/** The invariant of every run: each event keeps it, and boot establishes it. */
module KernelInvariant {
  import opened Wrappers
  import PageTable
  import opened AddressSpace
  import opened UserCopy
  import opened Process
  import opened ProcessInvariants
  import opened KernelTables
  import opened Machine

  ghost predicate KernelOk(k: Kernel, loc: PageTable.Locations) {
    Typed(k) && Core(k) && Settled(k) && TablesOk(k, loc)
  }

  /** While process c runs, sscratch names its trapframe and satp its own root. */
  ghost predicate Seated(m: Machine) {
    m.k.current.Some? ==>
      m.k.current.value < |m.k.procs| && m.sscratch == m.k.current.value
      && m.k.procs[m.k.current.value].pagetable == Some(m.k.satp)
  }

  ghost predicate Inv(m: Machine, loc: PageTable.Locations) { WellFormed(m) && KernelOk(m.k, loc) && Seated(m) }

  // --------------------------------------------------------------------- exit

  lemma {:induction false} RootsDiffer(k: Kernel, loc: PageTable.Locations, i: nat, o: PageTable.Owner)
    requires Typed(k) && TablesOk(k, loc) && i < NPROC && k.procs[i].state != Unused && o != PageTable.SlotSpace(i)
    requires PageTable.Root(o) in loc
    ensures k.procs[i].pagetable.Some? && k.procs[i].pagetable != Some(loc[PageTable.Root(o)])
  {
    hide PageTable.Tree, PageTable.Leaf, SpaceTags, TagsOf;
    assert SlotTables(k.vm, loc, i, k.procs[i]);
    if k.procs[i].pagetable == Some(loc[PageTable.Root(o)]) {
      DistinctRoots(k.vm.pool, loc, PageTable.SlotSpace(i), o);
    }
  }

  /** satp after proc_exit still names a space that exists: the table that goes was switched away from. */
  lemma {:induction false} ExitTables(k: Kernel, loc: PageTable.Locations, p: nat, status: int)
    returns (loc': PageTable.Locations)
    requires Typed(k) && TablesOk(k, loc) && p < NPROC && Links(k.procs) && k.procs[p].state != Unused
    ensures TablesOk(ExitSlot(k, p, status), loc') && ExitSlot(k, p, status).vm.frames == k.vm.frames
  {
    hide TablesOk, SwitchToKernel, FreeSlot, Layout;
    var k1 := SetProc(k, p, k.procs[p].(exitStatus := status));
    SameTablesOk(k, k1, loc);
    var me := k1.procs[p];
    var handOff := me.parent.Some? && BlockedInWait(k1.procs[me.parent.value]);
    if handOff || me.parent.None? {
      var k4 := k1;
      if handOff {
        var q := me.parent.value;
        var k2 := SetReg(k1, k1.procs[q].tf, A0, me.pid);
        k4 := Deliver(SetProc(k2, q, k2.procs[q].(state := Runnable)), me.pid, q);
        SameTablesOk(k1, k4, loc);
      }
      var loc1 := SwitchToKernelTables(k4, loc);
      var k5 := SwitchToKernel(k4);
      RootsDiffer(k5, loc1, p, PageTable.KernelSpace);
      loc' := FreeSlotTables(k5, loc1, p);
    } else {
      SameTablesOk(k1, SetProc(k1, p, me.(state := Zombie)), loc);
      loc' := loc;
    }
  }

  lemma {:induction false} DispatchTables(k: Kernel, loc: PageTable.Locations)
    requires Typed(k) && TablesOk(k, loc) && NoneRunning(k.procs) && k.lastSlot >= 0
    ensures TablesOk(Dispatch(k), loc)
  {
    hide TablesOk, Dispatch, Layout;
    DispatchShape(k);
    SameTablesOk(k, Dispatch(k), loc);
  }

  lemma {:induction false} ExitOk(k: Kernel, loc: PageTable.Locations, p: nat, status: int)
    returns (loc': PageTable.Locations)
    requires KernelOk(k, loc) && k.current == Some(p)
    ensures KernelOk(Exit(k, status), loc')
  {
    hide TablesOk, ExitSlot, Core, Links;
    CoreLinks(k);
    loc' := ExitTables(k, loc, p, status);
    ExitCore(k, p, status);
    ExitShape(k, p, status);
    var k1 := ExitSlot(k, p, status);
    DispatchCore(k1);
    DispatchTables(k1, loc');
  }

  lemma {:induction false} CoreLinks(k: Kernel)
    requires Core(k)
    ensures Links(k.procs)
  {
  }

  // --------------------------------------------------------- the other calls

  lemma {:induction false} WaitOk(k: Kernel, loc: PageTable.Locations, p: nat) returns (loc': PageTable.Locations)
    requires KernelOk(k, loc) && k.current == Some(p) && k.procs[p].pagetable == Some(k.satp)
    ensures KernelOk(Wait(k).0, loc') && Wait(k).0.vm.frames == k.vm.frames
  {
    hide TablesOk, Core, FirstZombie, HasChild, FreeSlot, Dispatch, Layout;
    WaitCore(k, p);
    loc' := loc;
    var z := FirstZombie(k.procs, p, 0);
    if z < NPROC {
      var k1 := Deliver(k, k.procs[z].pid, p);
      SameTablesOk(k, k1, loc);
      ActiveRoot(k, loc, p);
      RootsDiffer(k, loc, z, PageTable.SlotSpace(p));
      loc' := FreeSlotTables(k1, loc, z);
    } else if HasChild(k.procs, p) {
      var k1 := SetProc(k, p, k.procs[p].(state := Sleeping));
      SameTablesOk(k, k1, loc);
      DispatchTables(k1, loc);
      DispatchShape(k1);
    }
  }

  lemma {:induction false} ActiveRoot(k: Kernel, loc: PageTable.Locations, p: nat)
    requires Typed(k) && TablesOk(k, loc) && p < NPROC && k.procs[p].state != Unused
    ensures PageTable.Root(PageTable.SlotSpace(p)) in loc
    ensures k.procs[p].pagetable == Some(loc[PageTable.Root(PageTable.SlotSpace(p))])
    ensures Space(k.vm, loc, p, loc[PageTable.Root(PageTable.SlotSpace(p))])
  {
    hide PageTable.Tree, PageTable.Leaf, SpaceTags, TagsOf;
    assert SlotTables(k.vm, loc, p, k.procs[p]);
  }

  lemma {:induction false} SleepOk(k: Kernel, loc: PageTable.Locations, p: nat, n: nat)
    requires KernelOk(k, loc) && k.current == Some(p)
    ensures KernelOk(SysSleep(k, n), loc)
  {
    hide TablesOk, Core, Dispatch, Layout;
    SleepCore(k, p, n);
    var m := if n > MAX_SLEEP then MAX_SLEEP else n;
    if m != 0 {
      var k1 := SetProc(k, p, k.procs[p].(wakeTick := k.ticks + m, state := Sleeping));
      SameTablesOk(k, k1, loc);
      DispatchTables(k1, loc);
    }
  }

  /** proc_fork fails exactly when the process table is full. */
  lemma {:induction false} ForkOk(k: Kernel, loc: PageTable.Locations, tf: nat, p: nat)
    returns (loc': PageTable.Locations)
    requires KernelOk(k, loc) && k.current == Some(p) && tf < NPROC
    ensures KernelOk(Fork(k, tf).0, loc')
    ensures Fork(k, tf).1 == -1 <==> forall i :: 0 <= i < NPROC ==> k.procs[i].state != Unused
    ensures Fork(k, tf).1 != -1 ==> Fork(k, tf).1 == k.nextPid
  {
    hide TablesOk, Core, FirstUnused, ForkInto, Layout;
    ForkCore(k, tf, p);
    loc' := loc;
    var i := FirstUnused(k.procs, 0);
    if i < NPROC { loc' := ForkTables(k, loc, tf, p, i); }
  }

  lemma {:induction false} ReadOk(k: Kernel, loc: PageTable.Locations, root: nat, uva: nat, len: nat, env: Env)
    requires KernelOk(k, loc) && root < PageTable.POOL_PAGES
    ensures KernelOk(SysRead(k, root, uva, len, env).0, loc)
  {
    hide TablesOk, Core, SysRead, Layout;
    SameTablesOk(k, SysRead(k, root, uva, len, env).0, loc);
    CoreFrames(k, SysRead(k, root, uva, len, env).0);
  }

  lemma {:induction false} CoreFrames(k: Kernel, k': Kernel)
    requires Core(k) && k' == k.(vm := k'.vm)
    ensures Core(k')
  {
  }

  lemma {:induction false} CallOk(k: Kernel, loc: PageTable.Locations, p: nat, root: nat, env: Env)
    returns (loc': PageTable.Locations)
    requires KernelOk(k, loc) && k.current == Some(p) && k.procs[p].pagetable == Some(root) && k.satp == root
    ensures KernelOk(Call(k, p, p, root, env).0, loc')
  {
    hide KernelOk, Core, TablesOk, SysRead, SysWrite, SysCat, Fork, Exit, Wait, SysSleep, Layout;
    Opened(k, loc);
    var regs := k.tfs[p].regs;
    var n := regs[A7];
    loc' := loc;
    if n == 0 { ReadOk(k, loc, root, regs[A0], regs[A1], env); }
    else if n == 2 { loc' := ForkOk(k, loc, p, p); }
    else if n == 3 { loc' := ExitOk(k, loc, p, ToInt32(regs[A0])); }
    else if n == 4 { loc' := WaitOk(k, loc, p); }
    else if n == 6 { SleepOk(k, loc, p, regs[A0]); }
  }

  lemma {:induction false} Opened(k: Kernel, loc: PageTable.Locations)
    requires KernelOk(k, loc)
    ensures Typed(k) && Core(k) && Settled(k) && TablesOk(k, loc)
  {
  }

  /** Trapframe contents other than the kernel stack are free. */
  lemma {:induction false} FramesFree(k: Kernel, k': Kernel, loc: PageTable.Locations)
    requires KernelOk(k, loc) && k' == k.(tfs := k'.tfs) && |k'.tfs| == NPROC
    requires forall i :: 0 <= i < NPROC ==> |k'.tfs[i].regs| == 32 && k'.tfs[i].kernelStack == k.tfs[i].kernelStack
    ensures KernelOk(k', loc)
  {
    hide TablesOk;
    SameTablesOk(k, k', loc);
  }

  lemma {:induction false} SyscallOk(k: Kernel, loc: PageTable.Locations, p: nat, root: nat, env: Env)
    returns (loc': PageTable.Locations)
    requires KernelOk(k, loc) && k.current == Some(p) && k.procs[p].pagetable == Some(root) && k.satp == root
    ensures KernelOk(Syscall(k, p, p, root, env), loc')
  {
    hide KernelOk, Call, Layout, Core, TablesOk;
    Opened(k, loc);
    loc' := CallOk(k, loc, p, root, env);
    var (k1, ret) := Call(k, p, p, root, env);
    FramesFree(k1, Syscall(k, p, p, root, env), loc');
  }

  // -------------------------------------------------------------------- timer

  lemma {:induction false} PreemptOk(k: Kernel, loc: PageTable.Locations, p: nat)
    requires KernelOk(k, loc) && k.current == Some(p)
    ensures KernelOk(Preempt(Tick(k)), loc)
  {
    hide TablesOk, Core, Dispatch, Tick, Layout;
    TickTables(k, loc);
    TickCore(k);
    var k1 := Tick(k);
    var k2 := SetProc(k1, p, k1.procs[p].(state := Runnable));
    TickCurrent(k);
    SameTablesOk(k1, k2, loc);
    assert Reshuffled(k1.procs, k2.procs);
    ReshuffledCore(k1, k2);
    DispatchCore(k2);
    DispatchTables(k2, loc);
  }

  lemma {:induction false} TickCurrent(k: Kernel)
    requires Typed(k)
    ensures Tick(k).current == k.current && Tick(k).lastSlot == k.lastSlot
  {
  }

  lemma {:induction false} TickTables(k: Kernel, loc: PageTable.Locations)
    requires Typed(k) && TablesOk(k, loc)
    ensures TablesOk(Tick(k), loc)
  {
    hide TablesOk, Layout;
    SameTablesOk(k, Tick(k), loc);
  }

  /** One turn of the idle loop. */
  lemma {:induction false} IdleOk(k: Kernel, loc: PageTable.Locations)
    requires KernelOk(k, loc) && k.current.None?
    ensures KernelOk(Dispatch(Tick(k)), loc)
  {
    hide TablesOk, Core, Dispatch, Tick, Layout;
    TickTables(k, loc);
    TickCore(k);
    TickCurrent(k);
    DispatchCore(Tick(k));
    DispatchTables(Tick(k), loc);
  }

  // --------------------------------------------------------------- whole steps

  /** The fallback of trap_handler is never taken: the selected process is RUNNING. */
  lemma {:induction false} FallbackUnused(k: Kernel)
    requires Typed(k) && Settled(k) && k.current.Some?
    ensures Fallback(k) == k
  {
  }

  /** Resuming leaves the kernel state alone but for satp, which becomes the process's own root. */
  lemma {:induction false} RestoreShape(k: Kernel, loc: PageTable.Locations)
    requires KernelOk(k, loc) && k.current.Some?
    ensures var c := k.current.value;
            var r := Restore(k);
            && k.procs[c].pagetable.Some?
            && r.k == k.(satp := k.procs[c].pagetable.value)
            && r.sscratch == c && r.regs == k.tfs[c].regs[0 := 0] && r.pc == k.tfs[c].sepc
            && r.sstatus == k.tfs[c].sstatus
  {
    hide TablesOk, Layout;
    var c := k.current.value;
    ActiveRoot(k, loc, c);
    assert k.procs[c := k.procs[c].(state := Running)] == k.procs;
  }

  lemma {:induction false} RestoreOk(k: Kernel, loc: PageTable.Locations)
    requires KernelOk(k, loc) && k.current.Some?
    ensures Inv(Restore(k), loc)
  {
    hide Core, Restore, SlotTables, KernelOwnTables, Owners, PageTable.Tree, Layout;
    RestoreShape(k, loc);
    ActiveRoot(k, loc, k.current.value);
    SameCore(k, Restore(k).k);
  }

  lemma {:induction false} SameCore(k: Kernel, k': Kernel)
    requires Core(k) && k' == k.(satp := k'.satp)
    ensures Core(k')
  {
  }

  lemma {:induction false} FinishOk(m: Machine, k: Kernel, loc: PageTable.Locations)
    requires WellFormed(m) && KernelOk(k, loc)
    ensures Inv(Finish(m, k), loc)
  {
    hide Core, TablesOk, Restore, Fallback;
    if k.current.Some? {
      FallbackUnused(k);
      RestoreOk(k, loc);
    }
  }

  lemma {:induction false} SaveOk(m: Machine, loc: PageTable.Locations, scause: nat)
    requires Inv(m, loc)
    ensures KernelOk(Save(m, scause), loc)
  {
    hide KernelOk;
    FramesFree(m.k, Save(m, scause), loc);
  }

  /** The handler starts by storing the trapframe pointer the process already has. */
  lemma {:induction false} HandleEntry(k: Kernel, c: nat)
    requires Typed(k) && k.current == Some(c) && Links(k.procs)
    ensures SetProc(k, c, k.procs[c].(tf := c)) == k
  {
    assert k.procs[c := k.procs[c].(tf := c)] == k.procs;
  }

  function AdvancePc(k: Kernel, tf: nat): (r: Kernel)
    requires Typed(k) && tf < NPROC
    ensures Typed(r)
  {
    k.(tfs := k.tfs[tf := k.tfs[tf].(sepc := k.tfs[tf].sepc + 4)])
  }

  lemma {:induction false} HandleIs(k: Kernel, c: nat, scause: nat, env: Env)
    requires Typed(k) && k.current == Some(c) && Links(k.procs)
    ensures Handle(k, c, scause, env) ==
            if scause == ECALL_U then Syscall(AdvancePc(k, c), c, c, RootOf(k.procs[c]), env)
            else if scause == TIMER then Preempt(Tick(k))
            else Exit(k, -1)
  {
    hide Syscall, Preempt, Exit, Tick, Layout;
    HandleEntry(k, c);
  }

  lemma {:induction false} HandleOk(k: Kernel, loc: PageTable.Locations, c: nat, scause: nat, env: Env)
    returns (loc': PageTable.Locations)
    requires KernelOk(k, loc) && k.current == Some(c) && k.procs[c].pagetable == Some(k.satp)
    ensures KernelOk(Handle(k, c, scause, env), loc')
  {
    hide KernelOk, Core, TablesOk, Handle, Syscall, Preempt, Exit, Tick, Layout;
    Opened(k, loc);
    CoreLinks(k);
    HandleIs(k, c, scause, env);
    loc' := loc;
    if scause == ECALL_U {
      var k2 := AdvancePc(k, c);
      FramesFree(k, k2, loc);
      loc' := SyscallOk(k2, loc, c, k.satp, env);
    } else if scause == TIMER {
      PreemptOk(k, loc, c);
    } else {
      loc' := ExitOk(k, loc, c, -1);
    }
  }

  lemma {:induction false} UserStepOk(m: Machine, loc: PageTable.Locations, regs: seq<nat>, pc: nat,
                                      store: Option<(nat, Byte)>)
    requires Inv(m, loc) && |regs| == 32 && regs[0] == 0
    ensures Inv(UserStep(m, regs, pc, store), loc)
  {
    hide TablesOk, Core, StoreByte, Layout;
    var r := UserStep(m, regs, pc, store);
    StoreKeeps(m, regs, pc, store);
    SameTablesOk(m.k, r.k, loc);
    CoreFrames(m.k, r.k);
  }

  lemma {:induction false} StoreKeeps(m: Machine, regs: seq<nat>, pc: nat, store: Option<(nat, Byte)>)
    requires WellFormed(m) && |regs| == 32 && regs[0] == 0
    ensures UserStep(m, regs, pc, store).k == m.k.(vm := m.k.vm.(frames := UserStep(m, regs, pc, store).k.vm.frames))
  {
  }

  /** Every event keeps the invariant. */
  lemma {:induction false} StepKeeps(m: Machine, loc: PageTable.Locations, ev: Event)
    returns (loc': PageTable.Locations)
    requires Inv(m, loc) && Enabled(m, ev)
    ensures Inv(Step(m, ev), loc')
  {
    hide KernelOk, Core, TablesOk, Handle, Finish, Dispatch, Tick, UserStep, Layout, Save;
    loc' := loc;
    match ev
    case UserRun(regs, pc, store) => UserStepOk(m, loc, regs, pc, store);
    case Trap(scause, env) =>
      SaveOk(m, loc, scause);
      SaveShape(m, scause);
      loc' := HandleOk(Save(m, scause), loc, m.sscratch, scause, env);
      FinishOk(m, Handle(Save(m, scause), m.sscratch, scause, env), loc');
    case IdleTick =>
      IdleOk(m.k, loc);
      FinishOk(m, Dispatch(Tick(m.k)), loc);
  }

  lemma {:induction false} SaveShape(m: Machine, scause: nat)
    requires WellFormed(m)
    ensures Save(m, scause) == m.k.(tfs := Save(m, scause).tfs)
    ensures Save(m, scause).tfs[m.sscratch]
         == TrapFrame(m.regs, m.pc, m.sstatus, scause, m.k.tfs[m.sscratch].kernelStack)
    ensures forall i :: 0 <= i < NPROC && i != m.sscratch ==> Save(m, scause).tfs[i] == m.k.tfs[i]
  {
  }
}
