/** Properties of whole runs. */
module Runs {
  import opened Wrappers
  import opened Sv39
  import PageTable
  import opened AddressSpace
  import opened UserCopy
  import opened UserMemory
  import opened Process
  import opened ProcessInvariants
  import opened KernelTables
  import opened Machine
  import opened KernelInvariant
  import opened BootInvariant
  import opened Bystander

  // ------------------------------------------------------- the invariant, always

  lemma {:induction false} RunKeeps(m: Machine, loc: PageTable.Locations, evs: seq<Event>)
    returns (loc': PageTable.Locations)
    requires Inv(m, loc) && CanRun(m, evs)
    ensures Inv(Run(m, evs), loc')
    decreases |evs|
  {
    hide KernelOk, Step, Seated;
    if evs == [] {
      loc' := loc;
    } else {
      var loc1 := StepKeeps(m, loc, evs[0]);
      loc' := RunKeeps(Step(m, evs[0]), loc1, evs[1..]);
    }
  }

  /** In every state a booted machine can reach: single runner, every slot's tables exactly its own, satp
   *  on an existing root, deadlines, waiters, pids and ledger in order. */
  lemma {:induction false} EveryReachableState(vm: Vm, image: seq<Byte>, evs: seq<Event>)
    returns (loc: PageTable.Locations)
    requires PoweredOn(vm)
    ensures Boot(vm, image).Some?
    ensures CanRun(Boot(vm, image).value, evs) ==> Inv(Run(Boot(vm, image).value, evs), loc)
  {
    hide Inv, Boot;
    loc := BootOk(vm, image);
    if CanRun(Boot(vm, image).value, evs) { loc := RunKeeps(Boot(vm, image).value, loc, evs); }
  }

  /** Slot q is not dispatched anywhere in the run. */
  predicate NeverRuns(m: Machine, evs: seq<Event>, q: nat)
    requires WellFormed(m) && CanRun(m, evs)
    decreases |evs|
  {
    evs == [] || (!Ran(Step(m, evs[0]).k, q) && NeverRuns(Step(m, evs[0]), evs[1..], q))
  }

  // ----------------------------------------------------------- user memory

  /** The five frames of slot q. */
  ghost predicate SameBytes(k: Kernel, k': Kernel, q: nat) {
    && |k.vm.frames| == |k'.vm.frames|
    && forall f :: 0 <= f < |k.vm.frames| && f / TOTAL_PAGES == q ==> k'.vm.frames[f] == k.vm.frames[f]
  }

  lemma {:induction false} CopyOutStaysHome(vm: Vm, loc: PageTable.Locations, slot: nat, root: nat, va: nat,
                                            src: seq<Byte>)
    requires Space(vm, loc, slot, root)
    ensures forall f :: 0 <= f < |vm.frames| && f / TOTAL_PAGES != slot ==>
         CopyOut(vm, root, va, src).0.frames[f] == vm.frames[f]
    decreases |src|
  {
    hide PageTable.Tree, HasSpace, PageTable.TranslateUser, PageTable.HardwareTranslate, Splice;
    if src != [] {
      Translations(vm, loc, slot, root, va);
      if FrameOf(slot, va).Some? {
        var n, f := Chunk(va, |src|), FrameOf(slot, va).value;
        var frames := WriteChunk(vm.frames, f, va % PGSIZE, src[..n]);
        SpaceKept(vm, loc, slot, root, frames);
        CopyOutStaysHome(vm.(frames := frames), loc, slot, root, va + n, src[n..]);
      }
    }
  }

  lemma {:induction false} ReadLoopStaysHome(vm: Vm, loc: PageTable.Locations, slot: nat, root: nat, uva: nat,
                                             len: nat, env: Env, i: nat)
    requires Space(vm, loc, slot, root) && i <= len
    ensures forall f :: 0 <= f < |vm.frames| && f / TOTAL_PAGES != slot ==>
         ReadLoop(vm, root, uva, len, env, i).0.frames[f] == vm.frames[f]
    decreases len - i
  {
    hide PageTable.Tree, HasSpace, CopyOut;
    if i < len {
      CopyOutStaysHome(vm, loc, slot, root, uva + i, [Typing(env, i)]);
      var vm1 := CopyOut(vm, root, uva + i, [Typing(env, i)]).0;
      SpaceKept(vm, loc, slot, root, vm1.frames);
      ReadLoopStaysHome(vm1, loc, slot, root, uva, len, env, i + 1);
    }
  }

  /** A user store reaches only the storing slot's frames. */
  lemma {:induction false} StoreStaysHome(vm: Vm, loc: PageTable.Locations, slot: nat, root: nat, va: nat, b: Byte)
    requires Space(vm, loc, slot, root)
    ensures var r := StoreByte(vm, root, va, b);
            r.Some? ==> forall f :: 0 <= f < |vm.frames| && f / TOTAL_PAGES != slot ==>
              r.value.frames[f] == vm.frames[f]
  {
    hide PageTable.Tree, HasSpace, StoreByte;
    ByteAccess(vm, loc, slot, root, va);
  }

  /** fork filled the unused slot q with a copy of the running parent. */
  ghost predicate FilledByFork(k: Kernel, k': Kernel, q: nat)
    requires Typed(k) && Typed(k') && q < NPROC
  {
    && k.procs[q].state == Unused && k'.procs[q].state == Runnable && k.current.Some?
    && k'.procs[q].parent == k.current && Copied(k.vm, k'.vm, q, k.current.value)
  }

  lemma {:induction false} CallBytes(k: Kernel, loc: PageTable.Locations, c: nat, root: nat, env: Env, q: nat)
    requires KernelOk(k, loc) && k.current == Some(c) && k.procs[c].pagetable == Some(root) && k.satp == root
    requires q < NPROC && q != c
    ensures SameBytes(k, Call(k, c, c, root, env).0, q) || FilledByFork(k, Call(k, c, c, root, env).0, q)
  {
    hide Core, TablesOk, SysWrite, SysCat, Wait, SysSleep, ReadLoop, FirstUnused, ExitSlot, ForkInto, Dispatch;
    var regs := k.tfs[c].regs;
    var n := regs[A7];
    if n == 0 {
      if 0 < regs[A1] <= 256 {
        ActiveRoot(k, loc, c);
        ReadLoopStaysHome(k.vm, loc, c, root, regs[A0], regs[A1], env, 0);
      }
    } else if n == 2 {
      var i := FirstUnused(k.procs, 0);
      if i < NPROC { ForkBytes(k, loc, c, i, q); }
    } else if n == 3 {
      CoreLinks(k);
      ExitBytes(k, loc, c, ToInt32(regs[A0]));
    } else if n == 4 {
      var loc' := WaitOk(k, loc, c);
    } else if n == 6 {
      SleepBytes(k, c, regs[A0]);
    }
  }

  lemma {:induction false} ForkBytes(k: Kernel, loc: PageTable.Locations, c: nat, i: nat, q: nat)
    requires KernelOk(k, loc) && k.current == Some(c) && i < NPROC && k.procs[i].state == Unused && q < NPROC
    ensures SameBytes(k, ForkInto(k, c, c, i).0, q) || FilledByFork(k, ForkInto(k, c, c, i).0, q)
  {
    hide Core, TablesOk, CloneUser, Layout;
    var loc' := ForkTables(k, loc, c, c, i);
    LayoutFacts(k.vm);
    if q != i {
      forall f | 0 <= f < |k.vm.frames| && f / TOTAL_PAGES == q
        ensures CopySlot(k.vm.frames, i, c)[f] == k.vm.frames[f] {}
    }
  }

  lemma {:induction false} ExitBytes(k: Kernel, loc: PageTable.Locations, c: nat, status: int)
    requires KernelOk(k, loc) && k.current == Some(c)
    ensures Exit(k, status).vm.frames == k.vm.frames
  {
    hide Core, TablesOk, ExitSlot, Layout, Links, Dispatch;
    CoreLinks(k);
    var loc' := ExitTables(k, loc, c, status);
    ExitShape(k, c, status);
    ExitCore(k, c, status);
    DispatchShape(ExitSlot(k, c, status));
  }

  lemma {:induction false} SleepBytes(k: Kernel, c: nat, n: nat)
    requires Typed(k) && k.current == Some(c) && Settled(k)
    ensures SysSleep(k, n).vm == k.vm
  {
    hide Layout, Dispatch;
    var m := if n > MAX_SLEEP then MAX_SLEEP else n;
    if m != 0 { DispatchShape(SetProc(k, c, k.procs[c].(wakeTick := k.ticks + m, state := Sleeping))); }
  }

  lemma {:induction false} HandleBytes(k: Kernel, loc: PageTable.Locations, c: nat, scause: nat, env: Env, q: nat)
    requires KernelOk(k, loc) && k.current == Some(c) && k.procs[c].pagetable == Some(k.satp) && q < NPROC && q != c
    ensures SameBytes(k, Handle(k, c, scause, env), q) || FilledByFork(k, Handle(k, c, scause, env), q)
  {
    hide Core, TablesOk, Handle, Call, Exit, Layout, Dispatch;
    CoreLinks(k);
    HandleIs(k, c, scause, env);
    if scause == ECALL_U {
      var k2 := AdvancePc(k, c);
      FramesFree(k, k2, loc);
      CallBytes(k2, loc, c, k.satp, env, q);
    } else if scause == TIMER {
      PreemptVm(k, c);
    } else {
      ExitBytes(k, loc, c, -1);
    }
  }

  lemma {:induction false} PreemptVm(k: Kernel, c: nat)
    requires Typed(k) && k.current == Some(c) && Settled(k)
    ensures Preempt(Tick(k)).vm == k.vm && Preempt(Tick(k)).ticks == k.ticks + 1
    ensures Preempt(Tick(k)).tfs == k.tfs
  {
    hide Layout, Dispatch, Tick;
    TickCurrent(k);
    TickShape(k);
    var k1 := Tick(k);
    assert k1.procs[c].state == Running;
    var k2 := SetProc(k1, c, k1.procs[c].(state := Runnable));
    NoneRunningAfter(k, k1, k2, c);
    DispatchShape(k2);
  }

  lemma {:induction false} NoneRunningAfter(k: Kernel, k1: Kernel, k2: Kernel, c: nat)
    requires Typed(k) && Typed(k1) && k1 == Tick(k) && OnlyRunning(k.procs, c) && c < NPROC
    requires k2 == SetProc(k1, c, k1.procs[c].(state := Runnable))
    ensures NoneRunning(k2.procs)
  {
  }

  /** Isolation, step by step: the bytes of slot q change only while q itself runs, or when fork fills the
   *  unused slot. */
  lemma {:induction false} SlotBytesChange(m: Machine, loc: PageTable.Locations, ev: Event, q: nat)
    requires Inv(m, loc) && Enabled(m, ev) && q < NPROC && !Ran(m.k, q)
    ensures SameBytes(m.k, Step(m, ev).k, q) || FilledByFork(m.k, Step(m, ev).k, q)
  {
    hide KernelOk, Handle, Finish, Dispatch, Tick, Save, UserStep, SameBytes, FilledByFork;
    match ev
    case UserRun(regs, pc, store) => UserBytes(m, loc, regs, pc, store, q);
    case Trap(scause, env) => TrapBytes(m, loc, scause, env, q);
    case IdleTick => IdleBytes(m, loc, q);
  }

  lemma {:induction false} UserBytes(m: Machine, loc: PageTable.Locations, regs: seq<nat>, pc: nat,
                                     store: Option<(nat, Byte)>, q: nat)
    requires Inv(m, loc) && m.k.current.Some? && |regs| == 32 && regs[0] == 0 && q < NPROC && !Ran(m.k, q)
    ensures SameBytes(m.k, UserStep(m, regs, pc, store).k, q)
  {
    hide Core, TablesOk, StoreByte, Layout, Space;
    if store.Some? {
      ActiveRoot(m.k, loc, m.k.current.value);
      StoreStaysHome(m.k.vm, loc, m.k.current.value, m.k.satp, store.value.0, store.value.1);
      var r := StoreByte(m.k.vm, m.k.satp, store.value.0, store.value.1);
      if r.Some? { LayoutFacts(m.k.vm); LayoutFacts(r.value); }
    }
  }

  lemma {:induction false} TrapBytes(m: Machine, loc: PageTable.Locations, scause: nat, env: Env, q: nat)
    requires Inv(m, loc) && m.k.current.Some? && q < NPROC && !Ran(m.k, q)
    ensures var k' := Finish(m, Handle(Save(m, scause), m.sscratch, scause, env)).k;
            SameBytes(m.k, k', q) || FilledByFork(m.k, k', q)
  {
    hide Core, TablesOk, Handle, Finish, Layout, Save, KernelOk;
    Opened(m.k, loc);
    SaveOk(m, loc, scause);
    SaveShape(m, scause);
    var k0 := Save(m, scause);
    HandleBytes(k0, loc, m.sscratch, scause, env, q);
    var loc' := HandleOk(k0, loc, m.sscratch, scause, env);
    FinishAlike(m, Handle(k0, m.sscratch, scause, env), loc', q);
  }

  lemma {:induction false} IdleBytes(m: Machine, loc: PageTable.Locations, q: nat)
    requires Inv(m, loc) && m.k.current.None? && q < NPROC
    ensures SameBytes(m.k, Finish(m, Dispatch(Tick(m.k))).k, q)
  {
    hide Core, TablesOk, Finish, Layout, Dispatch, Tick;
    IdleOk(m.k, loc);
    FinishAlike(m, Dispatch(Tick(m.k)), loc, q);
    TickShape(m.k);
    TickCoreIdle(m.k);
    DispatchShape(Tick(m.k));
  }

  lemma {:induction false} TickCoreIdle(k: Kernel)
    requires Typed(k) && NoneRunning(k.procs)
    ensures NoneRunning(Tick(k).procs)
  {
  }
}
