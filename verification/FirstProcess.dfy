/** What the first process finds when boot enters user mode. */
module FirstProcess {
  import opened Wrappers
  import opened Sv39
  import PageTable
  import opened AddressSpace
  import opened UserCopy
  import opened UserMemory
  import opened Process
  import opened ProcessInvariants
  import opened KernelTables
  import opened Machine
  import opened KernelInvariant
  import opened BootInvariant

  /** Process 1 in slot 0, at the first byte of its image, with its stack pointer 16 below the top of its stack page and
   *  every other register 0, about to enter user mode with interrupts on; no other process. */
  predicate AtEntry(m: Machine) {
    && WellFormed(m) && m.k.current == Some(0) && m.k.procs[0].pid == 1 && m.k.procs[0].state == Running
    && m.k.procs[0].parent == None && m.k.nextPid == 2 && m.k.ticks == 0 && m.sscratch == 0
    && m.pc == 0x4000_0000 && m.sstatus == 0x20 && m.regs[2] == 0x7FFF_FFF0
    && (forall x :: 0 <= x < 32 && x != 2 ==> m.regs[x] == 0)
    && (forall i :: 1 <= i < |m.k.procs| ==> m.k.procs[i].state == Unused)
  }

  /** The image can be fetched and the stack page written, through the active table. */
  ghost predicate CanStart(m: Machine)
    requires WellFormed(m)
  {
    && (forall va: nat :: m.pc <= va < m.pc + 0x4000 ==>
          PageTable.HardwareTranslate(m.k.vm.pool, m.k.satp, va, Fetch, User)
          == Some(SlotBase(m.k.vm, 0) + (va - m.pc) / PGSIZE))
    && (forall va: nat :: m.regs[2] + 16 - PGSIZE <= va < m.regs[2] + 16 ==>
          PageTable.HardwareTranslate(m.k.vm.pool, m.k.satp, va, Store, User) == Some(SlotBase(m.k.vm, 0) + 4))
  }

  /** Boot enters user mode at the start of the zero-padded image, with a usable stack, for any image and layout. */
  lemma {:induction false} FirstEntry(vm: Vm, image: seq<Byte>)
    requires PoweredOn(vm)
    ensures Boot(vm, image).Some?
    ensures var m := Boot(vm, image).value;
            && AtEntry(m) && CanStart(m)
            && m.pc == USER_VPN * PGSIZE && m.regs[2] == (STACK_VPN + 1) * PGSIZE - 16
            && forall va: nat :: UserByte(m.k.vm, 0, va) == InitialByte(image, va)
  {
    hide KernelOk, Boot, CanStart;
    var loc := BootOk(vm, image);
    var m := Boot(vm, image).value;
    BootShape(vm, image);
    EntryReach(m, loc);
    BootBytes(vm, image);
  }

  lemma {:induction false} BootShape(vm: Vm, image: seq<Byte>)
    requires PoweredOn(vm) && Boot(vm, image).Some?
    ensures AtEntry(Boot(vm, image).value)
    ensures Boot(vm, image).value.k.vm == CreateUser(vm, image, 0).0
  {
    hide CreateUser, Layout, Probe;
    var (vm1, root) := CreateUser(vm, image, 0);
    var k := InitKernel(vm1, root.value);
    FirstProbe(k.procs);
  }

  lemma {:induction false} BootBytes(vm: Vm, image: seq<Byte>)
    requires PoweredOn(vm) && Boot(vm, image).Some? && Boot(vm, image).value.k.vm == CreateUser(vm, image, 0).0
    ensures forall va: nat :: UserByte(Boot(vm, image).value.k.vm, 0, va) == InitialByte(image, va)
  {
    hide CreateUser, Layout, UserByte, InitialByte, Dispatch, Restore;
    EmptyTree(vm);
    NoSpaceInNone(PageTable.SlotSpace(0));
    CreatedBytes(vm, map[], image, 0);
  }

  lemma {:induction false} EntryReach(m: Machine, loc: PageTable.Locations)
    requires AtEntry(m)
    requires Inv(m, loc)
    ensures CanStart(m)
  {
    hide TablesOk, Layout, PageTable.HardwareTranslate, PageTable.Tree, HasSpace, Core;
    LayoutFacts(m.k.vm);
    ActiveRoot(m.k, loc, 0);
    forall va: nat | m.pc <= va < m.pc + 0x4000
      ensures PageTable.HardwareTranslate(m.k.vm.pool, m.k.satp, va, Fetch, User)
           == Some(SlotBase(m.k.vm, 0) + (va - m.pc) / PGSIZE)
    {
      UserReach(m.k.vm, loc, 0, m.k.satp, va, Fetch);
    }
    forall va: nat | m.regs[2] + 16 - PGSIZE <= va < m.regs[2] + 16
      ensures PageTable.HardwareTranslate(m.k.vm.pool, m.k.satp, va, Store, User) == Some(SlotBase(m.k.vm, 0) + 4)
    {
      UserReach(m.k.vm, loc, 0, m.k.satp, va, Store);
    }
  }
}
