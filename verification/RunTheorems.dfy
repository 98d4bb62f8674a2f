/** What a process can rely on across a whole run. */
module RunTheorems {
  import opened Wrappers
  import opened Sv39
  import PageTable
  import opened AddressSpace
  import opened Process
  import opened ProcessInvariants
  import opened KernelTables
  import opened Machine
  import opened KernelInvariant
  import opened Bystander
  import opened Runs

  // --------------------------------------------------------- resuming a process

  /** Whenever a trap or an idle turn ends with a process selected, the machine holds that process's
   *  trapframe, registers and page table. */
  lemma {:induction false} StepResumes(m: Machine, loc: PageTable.Locations, ev: Event)
    requires Inv(m, loc) && Enabled(m, ev) && !ev.UserRun? && Step(m, ev).k.current.Some?
    ensures var r := Step(m, ev);
            var c := r.k.current.value;
            && r.k.procs[c].state == Running && r.sscratch == c && r.k.procs[c].pagetable == Some(r.k.satp)
            && r.regs == r.k.tfs[c].regs[0 := 0] && r.pc == r.k.tfs[c].sepc && r.sstatus == r.k.tfs[c].sstatus
  {
    hide Core, TablesOk, Handle, Dispatch, Tick, Layout, Save, Restore, Fallback;
    var k1, loc1 := m.k, loc;
    match ev {
      case Trap(scause, env) =>
        SaveOk(m, loc, scause);
        SaveShape(m, scause);
        k1 := Handle(Save(m, scause), m.sscratch, scause, env);
        loc1 := HandleOk(Save(m, scause), loc, m.sscratch, scause, env);
      case IdleTick =>
        k1 := Dispatch(Tick(m.k));
        IdleOk(m.k, loc);
    }
    FallbackUnused(k1);
    RestoreShape(k1, loc1);
  }

  /** From every state of the invariant and for every event, the process the handler or the idle loop selects is
   *  RUNNING already: the rescheduling fallback at the end of trap_handler is never taken, and revives nobody. */
  lemma {:induction false} FallbackNeverTaken(m: Machine, loc: PageTable.Locations, scause: nat, env: Env)
    requires Inv(m, loc)
    ensures var k := if m.k.current.Some? then Handle(Save(m, scause), m.sscratch, scause, env)
                     else Dispatch(Tick(m.k));
            k.current.Some? ==> k.procs[k.current.value].state == Running && Fallback(k) == k
  {
    hide Core, TablesOk, Handle, Dispatch, Tick, Layout, Save, Fallback;
    if m.k.current.Some? {
      SaveOk(m, loc, scause);
      SaveShape(m, scause);
      var loc1 := HandleOk(Save(m, scause), loc, m.sscratch, scause, env);
      var k := Handle(Save(m, scause), m.sscratch, scause, env);
      if k.current.Some? { FallbackUnused(k); }
    } else {
      IdleOk(m.k, loc);
      var k := Dispatch(Tick(m.k));
      if k.current.Some? { FallbackUnused(k); }
    }
  }

  /** A Runnable process that is not dispatched keeps its slot, its saved registers and its memory
   *  through any run of the others. */
  lemma {:induction false} WaitingTurn(m: Machine, loc: PageTable.Locations, evs: seq<Event>, q: nat)
    requires Inv(m, loc) && CanRun(m, evs) && q < NPROC && m.k.procs[q].state == Runnable && NeverRuns(m, evs, q)
    ensures var r := Run(m, evs);
            r.k.procs[q] == m.k.procs[q] && r.k.tfs[q] == m.k.tfs[q] && SameBytes(m.k, r.k, q)
    decreases |evs|
  {
    hide Core, TablesOk, Layout, Step;
    if evs != [] {
      var m1 := Step(m, evs[0]);
      var loc1 := StepKeeps(m, loc, evs[0]);
      StepUntouched(m, loc, evs[0], q);
      SlotBytesChange(m, loc, evs[0], q);
      WaitingTurn(m1, loc1, evs[1..], q);
    }
  }

  ghost predicate TimerSaved(m: Machine, r: Machine, p: nat)
    requires WellFormed(m) && WellFormed(r) && p < NPROC
  {
    && r.k.procs[p].state == Ready(r.k, p) && SameBytes(m.k, r.k, p)
    && r.k.tfs[p] == TrapFrame(m.regs, m.pc, m.sstatus, TIMER, m.k.tfs[p].kernelStack)
    && r.k.ticks == m.k.ticks + 1
  }

  /** The timer branch, seen by the interrupted process p. */
  lemma {:induction false} TimerSaves(m: Machine, env: Env, r: Machine, p: nat, loc: PageTable.Locations)
    requires WellFormed(m) && m.k.current == Some(p) && p < NPROC
    requires r == Step(m, Trap(TIMER, env)) && WellFormed(r)
    requires Inv(m, loc)
    ensures TimerSaved(m, r, p)
  {
    hide Core, TablesOk, Handle, Layout, Save, Dispatch, Tick, Finish, Syscall, Exit;
    SaveOk(m, loc, TIMER);
    SaveShape(m, TIMER);
    var k0 := Save(m, TIMER);
    CoreLinks(k0);
    HandleIs(k0, p, TIMER, env);
    PreemptVm(k0, p);
    PreemptOk(k0, loc, p);
    PreemptedState(k0, p);
    FinishAlike(m, Handle(k0, p, TIMER, env), loc, p);
  }

  lemma {:induction false} PreemptedState(k: Kernel, p: nat)
    requires Typed(k) && k.current == Some(p) && Settled(k)
    ensures Preempt(Tick(k)).procs[p] == k.procs[p].(state := Ready(Preempt(Tick(k)), p))
  {
    hide Layout, Dispatch, Tick;
    TickCurrent(k);
    TickShape(k);
    var k1 := Tick(k);
    var k2 := SetProc(k1, p, k1.procs[p].(state := Runnable));
    NoneRunningAfter(k, k1, k2, p);
    DispatchShape(k2);
  }

  /** Context non-interference: a process preempted by the timer, and dispatched again only after some run of
   *  the others, resumes with exactly the 31 registers, pc, status and memory it had. */
  lemma {:induction false} PreemptionIsTransparent(m: Machine, env: Env, m1: Machine, evs: seq<Event>, m2: Machine,
                                                   last: Event, r: Machine,
                                p: nat, loc: PageTable.Locations)
    requires WellFormed(m1) && CanRun(m1, evs) && !Ran(m1.k, p) && NeverRuns(m1, evs, p) && m2 == Run(m1, evs)
    requires WellFormed(m2) && Enabled(m2, last) && r == Step(m2, last) && Ran(r.k, p)
    requires WellFormed(m) && m.k.current == Some(p) && m1 == Step(m, Trap(TIMER, env))
    requires Inv(m, loc)
    ensures r.regs == m.regs && r.pc == m.pc && r.sstatus == m.sstatus && SameBytes(m.k, r.k, p)
  {
    hide Core, TablesOk, Layout, Step;
    TimerSaves(m, env, m1, p, loc);
    var loc1 := StepKeeps(m, loc, Trap(TIMER, env));
    WaitingTurn(m1, loc1, evs, p);
    var loc2 := RunKeeps(m1, loc1, evs);
    StepUntouched(m2, loc2, last, p);
    SlotBytesChange(m2, loc2, last, p);
    if last.UserRun? { UserRunKeepsCurrent(m2, last); }
    StepResumes(m2, loc2, last);
    assert m.regs[0 := 0] == m.regs;
  }

  lemma {:induction false} UserRunKeepsCurrent(m: Machine, ev: Event)
    requires WellFormed(m) && Enabled(m, ev) && ev.UserRun?
    ensures Step(m, ev).k.current == m.k.current && Step(m, ev).k.ticks == m.k.ticks
    ensures Step(m, ev).k.lastSlot == m.k.lastSlot
  {
    StoreKeeps(m, ev.regs, ev.pc, ev.store);
  }

  // -------------------------------------------------------------------- time

  predicate Ticks(ev: Event) { ev.IdleTick? || (ev.Trap? && ev.scause == TIMER) }

  lemma {:induction false} CallTicks(k: Kernel, loc: PageTable.Locations, c: nat, root: nat, env: Env)
    requires KernelOk(k, loc) && k.current == Some(c) && root < PageTable.POOL_PAGES
    ensures Call(k, c, c, root, env).0.ticks == k.ticks
  {
    hide Core, TablesOk, Layout, Dispatch, ExitSlot, SysWrite, SysCat, ReadLoop, CloneUser, FirstUnused, FirstZombie,
         HasChild, VmDestroy;
    var regs := k.tfs[c].regs;
    var n := regs[A7];
    if n == 3 {
      CoreLinks(k);
      ExitShape(k, c, ToInt32(regs[A0]));
      ExitCore(k, c, ToInt32(regs[A0]));
      DispatchShape(ExitSlot(k, c, ToInt32(regs[A0])));
    } else if n == 4 {
      if FirstZombie(k.procs, c, 0) == NPROC && HasChild(k.procs, c) {
        DispatchShape(SetProc(k, c, k.procs[c].(state := Sleeping)));
      }
    } else if n == 6 {
      var x := if regs[A0] > MAX_SLEEP then MAX_SLEEP else regs[A0];
      if x != 0 { DispatchShape(SetProc(k, c, k.procs[c].(wakeTick := k.ticks + x, state := Sleeping))); }
    }
  }

  lemma {:induction false} HandleTicks(k: Kernel, loc: PageTable.Locations, c: nat, scause: nat, env: Env)
    requires KernelOk(k, loc) && k.current == Some(c) && k.procs[c].pagetable == Some(k.satp)
    ensures Handle(k, c, scause, env).ticks == k.ticks + (if scause == TIMER then 1 else 0)
  {
    hide Core, TablesOk, Layout, Dispatch, ExitSlot, Call, Handle, Tick;
    CoreLinks(k);
    HandleIs(k, c, scause, env);
    if scause == ECALL_U {
      FramesFree(k, AdvancePc(k, c), loc);
      CallTicks(AdvancePc(k, c), loc, c, k.satp, env);
    } else if scause == TIMER {
      PreemptVm(k, c);
    } else {
      ExitShape(k, c, -1);
      ExitCore(k, c, -1);
      DispatchShape(ExitSlot(k, c, -1));
    }
  }

  /** One tick per timer interrupt and per idle turn, none otherwise. */
  lemma {:induction false} StepTicks(m: Machine, loc: PageTable.Locations, ev: Event)
    requires Inv(m, loc) && Enabled(m, ev)
    ensures Step(m, ev).k.ticks == m.k.ticks + (if Ticks(ev) then 1 else 0)
  {
    hide Core, TablesOk, Handle, Finish, Layout, Save, Dispatch, Tick, UserStep, KernelOk;
    match ev
    case UserRun(regs, pc, store) => StoreKeeps(m, regs, pc, store);
    case Trap(scause, env) =>
      Opened(m.k, loc);
      SaveOk(m, loc, scause);
      SaveShape(m, scause);
      var k0 := Save(m, scause);
      HandleTicks(k0, loc, m.sscratch, scause, env);
      var loc' := HandleOk(k0, loc, m.sscratch, scause, env);
      FinishAlike(m, Handle(k0, m.sscratch, scause, env), loc', 0);
    case IdleTick =>
      IdleTicks(m, loc);
  }

  lemma {:induction false} IdleTicks(m: Machine, loc: PageTable.Locations)
    requires Inv(m, loc) && m.k.current.None?
    ensures Finish(m, Dispatch(Tick(m.k))).k.ticks == m.k.ticks + 1
  {
    hide Core, TablesOk, Finish, Layout, Dispatch, Tick;
    IdleOk(m.k, loc);
    FinishAlike(m, Dispatch(Tick(m.k)), loc, 0);
    TickShape(m.k);
    TickCoreIdle(m.k);
    DispatchShape(Tick(m.k));
  }

  lemma {:induction false} TicksGrow(m: Machine, loc: PageTable.Locations, evs: seq<Event>)
    requires Inv(m, loc) && CanRun(m, evs)
    ensures Run(m, evs).k.ticks >= m.k.ticks
    decreases |evs|
  {
    hide KernelOk, Seated, Step;
    if evs != [] {
      var loc1 := StepKeeps(m, loc, evs[0]);
      StepTicks(m, loc, evs[0]);
      TicksGrow(Step(m, evs[0]), loc1, evs[1..]);
    }
  }

  // ------------------------------------------------------------------- sleep

  /** The state in which syscall_dispatch runs. */
  lemma {:induction false} EcallEntry(m: Machine, loc: PageTable.Locations, env: Env, p: nat) returns (k: Kernel)
    requires Inv(m, loc) && m.k.current == Some(p)
    ensures KernelOk(k, loc) && k == m.k.(tfs := k.tfs)
    ensures k.tfs[p].regs == m.regs && k.tfs[p].sepc == m.pc + 4 && k.tfs[p].sstatus == m.sstatus
    ensures forall q :: 0 <= q < NPROC && q != p ==> k.tfs[q] == m.k.tfs[q]
    ensures Handle(Save(m, ECALL_U), p, ECALL_U, env)
         == SetReg(Call(k, p, p, m.k.satp, env).0, p, A0, Call(k, p, p, m.k.satp, env).1 % TWO64)
  {
    hide Core, TablesOk, Handle, Layout, Save, Call;
    SaveOk(m, loc, ECALL_U);
    SaveShape(m, ECALL_U);
    var k0 := Save(m, ECALL_U);
    CoreLinks(k0);
    HandleIs(k0, p, ECALL_U, env);
    k := AdvancePc(k0, p);
    FramesFree(k0, k, loc);
  }

  ghost predicate SleepStarted(m: Machine, r: Machine, p: nat, n: nat)
    requires WellFormed(m) && WellFormed(r) && p < NPROC
  {
    && r.k.procs[p] == m.k.procs[p].(state := Sleeping, wakeTick := m.k.ticks + n) && r.k.ticks == m.k.ticks
    && r.k.tfs[p].regs == m.regs[10 := 0] && r.k.tfs[p].sepc == m.pc + 4 && r.k.tfs[p].sstatus == m.sstatus
    && SameBytes(m.k, r.k, p)
  }

  /** The sleep call itself: deadline call tick + min(n, MAX_SLEEP), and 0 in a0 for later. */
  lemma {:induction false} SleepCall(m: Machine, env: Env, r: Machine, p: nat, n: nat, loc: PageTable.Locations)
    requires WellFormed(m) && m.k.current == Some(p) && p < NPROC && m.regs[17] == 6
    requires n == (if m.regs[10] > 1000000 then 1000000 else m.regs[10]) && n > 0
    requires r == Step(m, Trap(ECALL_U, env)) && WellFormed(r)
    requires Inv(m, loc)
    ensures SleepStarted(m, r, p, n)
  {
    hide Core, TablesOk, Handle, Layout, Finish, Dispatch, Save, Call;
    var k2 := EcallEntry(m, loc, env, p);
    CallIsSleep(k2, p, m.k.satp, env);
    SleepBytes(k2, p, k2.tfs[p].regs[A0]);
    DispatchShape(SetProc(k2, p, k2.procs[p].(wakeTick := k2.ticks + n, state := Sleeping)));
    SaveOk(m, loc, ECALL_U);
    SaveShape(m, ECALL_U);
    var loc' := HandleOk(Save(m, ECALL_U), loc, p, ECALL_U, env);
    FinishAlike(m, Handle(Save(m, ECALL_U), p, ECALL_U, env), loc', p);
  }

  lemma {:induction false} CallIsSleep(k: Kernel, p: nat, root: nat, env: Env)
    requires Typed(k) && p < NPROC && root < PageTable.POOL_PAGES && k.tfs[p].regs[A7] == 6
    ensures Call(k, p, p, root, env) == (SysSleep(k, k.tfs[p].regs[A0]), 0)
  {
    hide Wait, Fork, Exit, SysRead, SysSleep, Layout;
  }

  lemma {:induction false} SleepsOn(m: Machine, loc: PageTable.Locations, evs: seq<Event>, q: nat)
    requires Inv(m, loc) && CanRun(m, evs) && q < NPROC && m.k.procs[q].state == Sleeping && m.k.procs[q].wakeTick != 0
    requires Run(m, evs).k.ticks < m.k.procs[q].wakeTick
    ensures Run(m, evs).k.procs[q] == m.k.procs[q] && Run(m, evs).k.tfs[q] == m.k.tfs[q]
    decreases |evs|
  {
    hide Core, TablesOk, Layout, Step;
    if evs != [] {
      var m1 := Step(m, evs[0]);
      var loc1 := StepKeeps(m, loc, evs[0]);
      StepUntouched(m, loc, evs[0], q);
      TicksGrow(m1, loc1, evs[1..]);
      SleepsOn(m1, loc1, evs[1..], q);
    }
  }

  /** Exact sleep: through any run a timed sleeper stays asleep while ticks < wake_tick, and the very event
   *  that brings ticks to wake_tick makes it Runnable, or Running if it is dispatched at once. */
  lemma {:induction false} SleepIsExact(m: Machine, loc: PageTable.Locations, evs: seq<Event>, ev: Event, q: nat)
    requires Inv(m, loc) && CanRun(m, evs) && q < NPROC && m.k.procs[q].state == Sleeping && m.k.procs[q].wakeTick != 0
    requires Enabled(Run(m, evs), ev) && Run(m, evs).k.ticks < m.k.procs[q].wakeTick <= Step(Run(m, evs), ev).k.ticks
    ensures Run(m, evs).k.procs[q] == m.k.procs[q]
    ensures var r := Step(Run(m, evs), ev).k;
            r.ticks == m.k.procs[q].wakeTick && r.procs[q] == m.k.procs[q].(wakeTick := 0, state := Ready(r, q))
            && r.tfs[q] == m.k.tfs[q]
  {
    hide Core, TablesOk, Layout, Step;
    SleepsOn(m, loc, evs, q);
    var loc1 := RunKeeps(m, loc, evs);
    StepTicks(Run(m, evs), loc1, ev);
    StepUntouched(Run(m, evs), loc1, ev, q);
  }

  // -------------------------------------------------------------------- wait

  /** No lost wakeup: if a process blocked in wait is found unblocked after a run, then at some point of that
   *  run it was still exactly as it blocked and the running process, a child of it, exited into its hands. */
  lemma {:induction false} OnlyAChildUnblocks(m: Machine, loc: PageTable.Locations, evs: seq<Event>, q: nat)
    returns (i: nat)
    requires Inv(m, loc) && CanRun(m, evs) && q < NPROC && BlockedInWait(m.k.procs[q])
    requires Run(m, evs).k.procs[q] != m.k.procs[q] || Run(m, evs).k.tfs[q] != m.k.tfs[q]
    ensures i < |evs| && CanRun(m, evs[..i])
    ensures var b := Run(m, evs[..i]);
            && b.k.procs[q] == m.k.procs[q] && b.k.tfs[q] == m.k.tfs[q]
            && Enabled(b, evs[i]) && HandedOff(b.k, Step(b, evs[i]).k, q)
    decreases |evs|
  {
    hide Core, TablesOk, Layout, Step;
    var m1 := Step(m, evs[0]);
    var loc1 := StepKeeps(m, loc, evs[0]);
    StepUntouched(m, loc, evs[0], q);
    if HandedOff(m.k, m1.k, q) {
      i := 0;
      assert evs[..0] == [];
    } else {
      var j := OnlyAChildUnblocks(m1, loc1, evs[1..], q);
      i := j + 1;
      assert evs[..i][0] == evs[0] && evs[..i][1..] == evs[1..][..j];
    }
  }

  /** The unblocked parent resumes with that child's pid in a0, whatever runs in between. */
  lemma {:induction false} WaiterGetsChildPid(m: Machine, loc: PageTable.Locations, ev: Event, evs: seq<Event>,
                                              last: Event, q: nat)
    requires Inv(m, loc) && Enabled(m, ev) && q < NPROC && BlockedInWait(m.k.procs[q])
    requires HandedOff(m.k, Step(m, ev).k, q)
    requires !Ran(Step(m, ev).k, q) ==>
               var m1 := Step(m, ev);
               CanRun(m1, evs) && NeverRuns(m1, evs, q) && Enabled(Run(m1, evs), last)
               && Ran(Step(Run(m1, evs), last).k, q)
    ensures var m1 := Step(m, ev);
            var r := if Ran(m1.k, q) then m1 else Step(Run(m1, evs), last);
            var saved: seq<nat> := m.k.tfs[q].regs[0 := 0];
            && r.regs == saved[10 := m.k.procs[m.k.current.value].pid]
            && r.pc == m.k.tfs[q].sepc
  {
    hide Core, TablesOk, Layout, Step;
    var m1 := Step(m, ev);
    var loc1 := StepKeeps(m, loc, ev);
    if ev.UserRun? { UserRunKeepsTable(m, ev); }
    var regs := m.k.tfs[q].regs;
    var pid := m.k.procs[m.k.current.value].pid;
    var given: seq<nat>, cleared: seq<nat> := regs[A0 := pid], regs[0 := 0];
    assert given[0 := 0] == cleared[A0 := pid];
    if Ran(m1.k, q) {
      StepResumes(m, loc, ev);
    } else {
      WaitingTurn(m1, loc1, evs, q);
      var loc2 := RunKeeps(m1, loc1, evs);
      var m2 := Run(m1, evs);
      StepUntouched(m2, loc2, last, q);
      if last.UserRun? { UserRunKeepsCurrent(m2, last); }
      StepResumes(m2, loc2, last);
    }
  }

  lemma {:induction false} UserRunKeepsTable(m: Machine, ev: Event)
    requires WellFormed(m) && Enabled(m, ev) && ev.UserRun?
    ensures Step(m, ev).k.procs == m.k.procs
  {
    StoreKeeps(m, ev.regs, ev.pc, ev.store);
  }

  // ------------------------------------------------------------------- idle

  function Idles(n: nat): seq<Event> { if n == 0 then [] else [IdleTick] + Idles(n - 1) }

  predicate TimedSleeper(p: Proc) { p.state == Sleeping && p.wakeTick != 0 }

  /** w is the earliest deadline in the table. */
  ghost predicate Earliest(procs: seq<Proc>, w: nat) {
    && (exists i :: 0 <= i < |procs| && TimedSleeper(procs[i]) && procs[i].wakeTick == w)
    && (forall i :: 0 <= i < |procs| && TimedSleeper(procs[i]) ==> w <= procs[i].wakeTick)
  }

  /** An idle turn before any deadline changes nothing but the clock; one at a deadline ends the loop. */
  lemma {:induction false} IdleTurn(m: Machine, loc: PageTable.Locations)
    requires Inv(m, loc) && m.k.current.None?
    ensures var r := Step(m, IdleTick).k;
            && r.ticks == m.k.ticks + 1
            && (r.current.Some? <==>
                  exists i :: 0 <= i < NPROC && TimedSleeper(m.k.procs[i]) && m.k.procs[i].wakeTick == m.k.ticks + 1)
            && (r.current.None? ==> r.procs == m.k.procs)
  {
    hide Core, TablesOk, Layout, Dispatch, Tick, Finish;
    StepTicks(m, loc, IdleTick);
    IdleOk(m.k, loc);
    FinishAlike(m, Dispatch(Tick(m.k)), loc, 0);
    TickShape(m.k);
    TickCoreIdle(m.k);
    DispatchShape(Tick(m.k));
    CoreDeadlines(m.k);
    TickWakes(m.k);
    var k1, r := Tick(m.k), Dispatch(Tick(m.k));
    if i :| 0 <= i < NPROC && TimedSleeper(m.k.procs[i]) && m.k.procs[i].wakeTick == m.k.ticks + 1 {
      assert k1.procs[i].state == Runnable;
      assert r.current.Some?;
    } else {
      assert k1.procs == m.k.procs;
    }
  }

  lemma {:induction false} CoreDeadlines(k: Kernel)
    requires Core(k)
    ensures Deadlines(k.procs, k.ticks)
  {
  }

  lemma {:induction false} TickWakes(k: Kernel)
    requires Typed(k) && Deadlines(k.procs, k.ticks)
    ensures forall i :: 0 <= i < NPROC ==>
              Tick(k).procs[i] == if TimedSleeper(k.procs[i]) && k.procs[i].wakeTick == k.ticks + 1
                                  then k.procs[i].(wakeTick := 0, state := Runnable) else k.procs[i]
  {
  }

  /** The idle loop ends after exactly (earliest wake_tick - ticks) turns. */
  lemma {:induction false} IdleLoopEnds(m: Machine, loc: PageTable.Locations, w: nat)
    requires Inv(m, loc) && m.k.current.None? && Earliest(m.k.procs, w)
    ensures w > m.k.ticks && CanRun(m, Idles(w - m.k.ticks)) && Run(m, Idles(w - m.k.ticks)).k.current.Some?
    ensures forall n: nat :: n < w - m.k.ticks ==> CanRun(m, Idles(n)) && Run(m, Idles(n)).k.current.None?
    decreases w - m.k.ticks
  {
    hide Core, TablesOk, Layout, Step;
    CoreDeadlines(m.k);
    IdleTurn(m, loc);
    var m1 := Step(m, IdleTick);
    var loc1 := StepKeeps(m, loc, IdleTick);
    var d := w - m.k.ticks;
    assert Idles(d)[0] == IdleTick && Idles(d)[1..] == Idles(d - 1);
    if d > 1 { IdleLoopEnds(m1, loc1, w); }
    forall n: nat | n < d ensures CanRun(m, Idles(n)) && Run(m, Idles(n)).k.current.None? {
      if n > 0 { assert Idles(n)[0] == IdleTick && Idles(n)[1..] == Idles(n - 1); }
    }
  }

  /** Without a timed sleeper the idle loop never ends: exactly the other half. */
  lemma {:induction false} IdleForever(m: Machine, loc: PageTable.Locations, n: nat)
    requires Inv(m, loc) && m.k.current.None? && forall i :: 0 <= i < NPROC ==> !TimedSleeper(m.k.procs[i])
    ensures CanRun(m, Idles(n)) && Run(m, Idles(n)).k.current.None?
    decreases n
  {
    hide Core, TablesOk, Layout, Step;
    if n > 0 {
      IdleTurn(m, loc);
      var loc1 := StepKeeps(m, loc, IdleTick);
      IdleForever(Step(m, IdleTick), loc1, n - 1);
      assert Idles(n)[0] == IdleTick && Idles(n)[1..] == Idles(n - 1);
    }
  }
}
