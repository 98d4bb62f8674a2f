/** What one event does to a process that is not the running one: almost nothing. */
module Bystander {
  import opened Wrappers
  import PageTable
  import opened AddressSpace
  import opened Process
  import opened ProcessInvariants
  import opened KernelTables
  import opened Machine
  import opened KernelInvariant

  predicate Ran(k: Kernel, q: nat) { k.current == Some(q) }

  /** Runnable, or already dispatched. */
  function Ready(k: Kernel, q: nat): State { if Ran(k, q) then Running else Runnable }

  /** A child c of the blocked process q was running, exited, and left its pid in q's a0. */
  ghost predicate HandedOff(k: Kernel, k': Kernel, q: nat)
    requires Typed(k) && Typed(k') && q < NPROC
  {
    && k.current.Some?
    && var c := k.procs[k.current.value];
    && ChildOf(c, q) && k'.procs[k.current.value].state == Unused
    && k'.hist.delivered == k.hist.delivered + [Delivery(c.pid, q)]
    && k'.tfs[q] == k.tfs[q].(regs := k.tfs[q].regs[10 := c.pid])
    && k'.procs[q] == k.procs[q].(state := Ready(k', q))
  }

  /** The zombie q was collected by its parent, which was running. */
  ghost predicate Reaped(k: Kernel, k': Kernel, q: nat)
    requires Typed(k) && Typed(k') && q < NPROC
  {
    && k.current.Some? && k.procs[q].parent == k.current && k'.procs[q].state == Unused
    && k'.hist.delivered == k.hist.delivered + [Delivery(k.procs[q].pid, k.current.value)]
  }

  /** The unused slot q became the child of the running process: a fresh pid, and the parent's frame with 0 in a0. */
  ghost predicate Born(k: Kernel, k': Kernel, q: nat)
    requires Typed(k) && Typed(k') && q < NPROC
  {
    && k.current.Some?
    && var p := k.current.value;
    && k'.procs[q] == Proc(k.nextPid, Ready(k', q), 0, Some(p), k'.procs[q].pagetable, q, 0)
    && var f := k'.tfs[p];
       k'.tfs[q] == TrapFrame(f.regs[A0 := 0], f.sepc, f.sstatus, f.scause, q)
  }

  /** All that may happen to slot q while another process, or nobody, runs. */
  ghost predicate Untouched(k: Kernel, k': Kernel, q: nat)
    requires Typed(k) && Typed(k') && q < NPROC
  {
    var p, p' := k.procs[q], k'.procs[q];
    match p.state
    case Unused => (p' == p && k'.tfs[q] == k.tfs[q]) || Born(k, k', q)
    case Running => p' == p && k'.tfs[q] == k.tfs[q]
    case Runnable => k'.tfs[q] == k.tfs[q] && p' == p.(state := Ready(k', q))
    case Zombie => k'.tfs[q] == k.tfs[q] && (p' == p || Reaped(k, k', q))
    case Sleeping =>
      if p.wakeTick == 0 then (p' == p && k'.tfs[q] == k.tfs[q]) || HandedOff(k, k', q)
      else k'.tfs[q] == k.tfs[q]
           && p' == (if k'.ticks < p.wakeTick then p else p.(wakeTick := 0, state := Ready(k', q)))
  }

  /** The part of the kernel Untouched speaks of, seen from slot q. */
  ghost predicate Alike(k: Kernel, k': Kernel, q: nat)
    requires Typed(k) && Typed(k') && q < NPROC
  {
    && k'.procs == k.procs && k'.current == k.current && k'.ticks == k.ticks && k'.hist == k.hist
    && k'.nextPid == k.nextPid && k'.tfs[q] == k.tfs[q]
  }

  /** Frames that differ in a0 at most. */
  ghost predicate SameButA0(f: TrapFrame, f': TrapFrame)
    requires |f.regs| == |f'.regs| == 32
  {
    f'.(regs := f'.regs[A0 := 0]) == f.(regs := f.regs[A0 := 0])
  }

  lemma {:induction false} AlikeBefore(k0: Kernel, k: Kernel, k': Kernel, q: nat)
    requires Typed(k0) && Typed(k) && Typed(k') && q < NPROC && Alike(k0, k, q) && Untouched(k, k', q)
    ensures Untouched(k0, k', q)
  {
    hide Layout;
  }

  lemma {:induction false} AlikeAfter(k: Kernel, k': Kernel, k'': Kernel, q: nat)
    requires Typed(k) && Typed(k') && Typed(k'') && q < NPROC && Untouched(k, k', q) && Alike(k', k'', q)
    requires k.current.Some? ==> SameButA0(k'.tfs[k.current.value], k''.tfs[k.current.value])
    ensures Untouched(k, k'', q)
  {
    hide Layout;
  }

  lemma {:induction false} DispatchUntouched(k: Kernel, k1: Kernel, q: nat)
    requires Typed(k) && Typed(k1) && q < NPROC && Untouched(k, k1, q) && !Ran(k1, q)
    requires NoneRunning(k1.procs) && k1.lastSlot >= 0
    ensures Untouched(k, Dispatch(k1), q)
  {
    hide Layout, Dispatch;
    DispatchShape(k1);
    var r := Dispatch(k1);
    assert r.current == Some(q) || r.procs[q] == k1.procs[q];
  }

  // ------------------------------------------------------------ each operation

  lemma {:induction false} ExitUntouched(k: Kernel, c: nat, status: int, q: nat)
    requires Typed(k) && Core(k) && OnlyRunning(k.procs, c) && k.current == Some(c) && k.lastSlot == c && q < NPROC
    requires q != c
    ensures Untouched(k, Exit(k, status), q)
  {
    hide Layout, ExitSlot, Waiters, Ledger, Pids, Dispatch;
    ExitShape(k, c, status);
    ExitCore(k, c, status);
    DispatchUntouched(k, ExitSlot(k, c, status), q);
  }

  lemma {:induction false} WaitUntouched(k: Kernel, c: nat, q: nat)
    requires Typed(k) && Core(k) && OnlyRunning(k.procs, c) && k.current == Some(c) && k.lastSlot == c && q < NPROC
    requires q != c
    ensures Untouched(k, Wait(k).0, q)
  {
    hide Layout, FirstZombie, HasChild, Waiters, Ledger, Pids, Dispatch, VmDestroy;
    var z := FirstZombie(k.procs, c, 0);
    if z == NPROC && HasChild(k.procs, c) {
      DispatchUntouched(k, SetProc(k, c, k.procs[c].(state := Sleeping)), q);
    }
  }

  lemma {:induction false} SleepUntouched(k: Kernel, c: nat, n: nat, q: nat)
    requires Typed(k) && Core(k) && OnlyRunning(k.procs, c) && k.current == Some(c) && k.lastSlot == c && q < NPROC
    requires q != c
    ensures Untouched(k, SysSleep(k, n), q)
  {
    hide Layout, Waiters, Ledger, Pids, Dispatch;
    var m := if n > MAX_SLEEP then MAX_SLEEP else n;
    if m != 0 { DispatchUntouched(k, SetProc(k, c, k.procs[c].(wakeTick := k.ticks + m, state := Sleeping)), q); }
  }

  lemma {:induction false} ForkUntouched(k: Kernel, loc: PageTable.Locations, c: nat, q: nat)
    requires KernelOk(k, loc) && k.current == Some(c) && q < NPROC && q != c
    ensures Untouched(k, Fork(k, c).0, q)
  {
    hide Layout, Waiters, Ledger, Pids, FirstUnused, CloneUser, TablesOk;
    SelfUntouched(k, q);
    var i := FirstUnused(k.procs, 0);
    if i < NPROC {
      FirstUnusedIs(k.procs, 0);
      var loc' := ForkTables(k, loc, c, c, i);
    }
  }

  lemma {:induction false} FirstUnusedIs(procs: seq<Proc>, i: nat)
    requires i <= |procs|
    ensures FirstUnused(procs, i) < |procs| ==> procs[FirstUnused(procs, i)].state == Unused
  {
  }

  lemma {:induction false} CallUntouched(k: Kernel, loc: PageTable.Locations, c: nat, root: nat, env: Env, q: nat)
    requires KernelOk(k, loc) && k.current == Some(c) && q < NPROC && q != c && root < PageTable.POOL_PAGES
    ensures Untouched(k, Call(k, c, c, root, env).0, q)
  {
    hide Layout, Core, TablesOk, SysRead, SysWrite, SysCat, Fork, Exit, Wait, SysSleep, Untouched;
    var regs := k.tfs[c].regs;
    var n := regs[A7];
    if n == 0 {
      SelfUntouched(k, q);
      AlikeAfter(k, k, SysRead(k, root, regs[A0], regs[A1], env).0, q);
    }
    else if n == 2 { ForkUntouched(k, loc, c, q); }
    else if n == 3 { ExitUntouched(k, c, ToInt32(regs[A0]), q); }
    else if n == 4 { WaitUntouched(k, c, q); }
    else if n == 6 { SleepUntouched(k, c, regs[A0], q); }
    else { SelfUntouched(k, q); }
  }

  lemma {:induction false} SelfUntouched(k: Kernel, q: nat)
    requires Typed(k) && q < NPROC && Core(k) && (k.procs[q].state == Runnable ==> !Ran(k, q))
    ensures Untouched(k, k, q)
  {
  }

  lemma {:induction false} TickUntouched(k: Kernel, q: nat)
    requires Typed(k) && Core(k) && q < NPROC && !Ran(k, q)
    ensures Untouched(k, Tick(k), q)
  {
    hide Layout, Waiters, Ledger, Pids;
  }

  lemma {:induction false} PreemptUntouched(k: Kernel, loc: PageTable.Locations, c: nat, q: nat)
    requires KernelOk(k, loc) && k.current == Some(c) && q < NPROC && q != c
    ensures Untouched(k, Preempt(Tick(k)), q)
  {
    hide Layout, TablesOk, Waiters, Ledger, Pids, Dispatch, Tick, Core;
    TickUntouched(k, q);
    TickCurrent(k);
    TickCore(k);
    TickShape(k);
    var k1 := Tick(k);
    var k2 := SetProc(k1, c, k1.procs[c].(state := Runnable));
    DispatchUntouched(k, k2, q);
  }

  lemma {:induction false} TickShape(k: Kernel)
    requires Typed(k)
    ensures Tick(k) == k.(ticks := k.ticks + 1, procs := Tick(k).procs)
    ensures forall i :: 0 <= i < NPROC && k.procs[i].state != Sleeping ==> Tick(k).procs[i] == k.procs[i]
    ensures forall i :: 0 <= i < NPROC && BlockedInWait(k.procs[i]) ==> Tick(k).procs[i] == k.procs[i]
  {
  }

  lemma {:induction false} IdleUntouched(k: Kernel, loc: PageTable.Locations, q: nat)
    requires KernelOk(k, loc) && k.current.None? && q < NPROC
    ensures Untouched(k, Dispatch(Tick(k)), q)
  {
    hide Layout, TablesOk, Waiters, Ledger, Pids, Dispatch, Tick, Core;
    TickUntouched(k, q);
    TickCurrent(k);
    TickCore(k);
    DispatchUntouched(k, Tick(k), q);
  }

  lemma {:induction false} FinishAlike(m: Machine, k: Kernel, loc: PageTable.Locations, q: nat)
    requires WellFormed(m) && KernelOk(k, loc) && q < NPROC
    ensures Alike(k, Finish(m, k).k, q)
    ensures Finish(m, k).k.lastSlot == k.lastSlot && Finish(m, k).k.vm == k.vm && Finish(m, k).k.nextPid == k.nextPid
    ensures Finish(m, k).k.tfs == k.tfs
  {
    hide Core, TablesOk, Restore, Fallback;
    if k.current.Some? {
      FallbackUnused(k);
      RestoreShape(k, loc);
    }
  }

  lemma {:induction false} HandleUntouched(k: Kernel, loc: PageTable.Locations, c: nat, scause: nat, env: Env, q: nat)
    requires KernelOk(k, loc) && k.current == Some(c) && k.procs[c].pagetable == Some(k.satp) && q < NPROC && q != c
    ensures Untouched(k, Handle(k, c, scause, env), q)
  {
    hide Core, TablesOk, Handle, Call, Preempt, Exit, Tick, Layout, Untouched;
    CoreLinks(k);
    HandleIs(k, c, scause, env);
    if scause == ECALL_U {
      var k2 := AdvancePc(k, c);
      FramesFree(k, k2, loc);
      CallUntouched(k2, loc, c, k.satp, env, q);
      var k3 := Call(k2, c, c, k.satp, env).0;
      AlikeAfter(k2, k3, Syscall(k2, c, c, k.satp, env), q);
      AlikeBefore(k, k2, Syscall(k2, c, c, k.satp, env), q);
    } else if scause == TIMER {
      PreemptUntouched(k, loc, c, q);
    } else {
      ExitUntouched(k, c, -1, q);
    }
  }

  /** One event, seen from a slot that is not running. */
  lemma {:induction false} StepUntouched(m: Machine, loc: PageTable.Locations, ev: Event, q: nat)
    requires Inv(m, loc) && Enabled(m, ev) && q < NPROC && !Ran(m.k, q)
    ensures Untouched(m.k, Step(m, ev).k, q)
  {
    hide Core, TablesOk, Handle, Finish, Dispatch, Tick, UserStep, Layout, Save, Untouched, KernelOk;
    Opened(m.k, loc);
    match ev
    case UserRun(regs, pc, store) =>
      StoreKeeps(m, regs, pc, store);
      SelfUntouchedOk(m.k, loc, q);
      AlikeAfter(m.k, m.k, UserStep(m, regs, pc, store).k, q);
    case Trap(scause, env) =>
      SaveOk(m, loc, scause);
      SaveShape(m, scause);
      var k0 := Save(m, scause);
      HandleUntouched(k0, loc, m.sscratch, scause, env, q);
      var loc' := HandleOk(k0, loc, m.sscratch, scause, env);
      var k1 := Handle(k0, m.sscratch, scause, env);
      Opened(k1, loc');
      FinishAlike(m, k1, loc', q);
      AlikeBefore(m.k, k0, k1, q);
      AlikeAfter(m.k, k1, Finish(m, k1).k, q);
    case IdleTick =>
      IdleUntouched(m.k, loc, q);
      IdleOk(m.k, loc);
      FinishAlike(m, Dispatch(Tick(m.k)), loc, q);
      AlikeAfter(m.k, Dispatch(Tick(m.k)), Finish(m, Dispatch(Tick(m.k))).k, q);
  }

  lemma {:induction false} SelfUntouchedOk(k: Kernel, loc: PageTable.Locations, q: nat)
    requires KernelOk(k, loc) && q < NPROC && !Ran(k, q)
    ensures Untouched(k, k, q)
  {
    hide TablesOk, Layout, Ledger, Pids, Waiters;
  }
}
