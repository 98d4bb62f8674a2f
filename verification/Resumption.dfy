/** From a blocking call to the return from it: what a process finds when it runs again. */
module Resumption {
  import opened Wrappers
  import PageTable
  import opened AddressSpace
  import opened Process
  import opened ProcessInvariants
  import opened KernelTables
  import opened Machine
  import opened KernelInvariant
  import opened Bystander
  import opened Runs
  import opened RunTheorems
  import opened Fairness

  /** The pid with which q was served by a delivery made between k and k'. */
  ghost predicate Served(k: Kernel, k': Kernel, q: nat, pid: nat) {
    exists d :: |k.hist.delivered| <= d < |k'.hist.delivered| && k'.hist.delivered[d] == Delivery(pid, q)
  }

  /** From k to k' process q did not run: its memory is untouched, and so is its frame, unless it was blocked in wait
   *  and a child's pid was put into its a0. */
  ghost predicate Away(k: Kernel, k': Kernel, q: nat)
    requires Typed(k) && Typed(k') && q < NPROC
  {
    var p, p', f, f' := k.procs[q], k'.procs[q], k.tfs[q], k'.tfs[q];
    && SameBytes(k, k', q) && k.hist.delivered <= k'.hist.delivered
    && if !BlockedInWait(p) then
         f' == f && (p'.state == Ready(k', q) || (p'.state == Sleeping && p' == p))
       else if p'.state == Sleeping then p' == p && f' == f
       else p'.state == Ready(k', q) && exists pid: nat :: Served(k, k', q, pid) && f' == f.(regs := f.regs[A0 := pid])
  }

  lemma {:induction false} StepAway(m: Machine, loc: PageTable.Locations, ev: Event, q: nat)
    requires Inv(m, loc) && Enabled(m, ev) && q < NPROC && !Ran(m.k, q)
    requires m.k.procs[q].state == Runnable || m.k.procs[q].state == Sleeping
    ensures Away(m.k, Step(m, ev).k, q)
  {
    hide Core, TablesOk, Layout, Step, SameBytes;
    var r := Step(m, ev);
    StepUntouched(m, loc, ev, q);
    SlotBytesChange(m, loc, ev, q);
    StepGrows(m, loc, ev);
    if HandedOff(m.k, r.k, q) {
      var pid := m.k.procs[m.k.current.value].pid;
      assert r.k.hist.delivered[|m.k.hist.delivered|] == Delivery(pid, q);
      assert Served(m.k, r.k, q, pid);
    }
  }

  lemma {:induction false} AwayStays(k: Kernel, k1: Kernel, k2: Kernel, q: nat)
    requires Typed(k) && Typed(k1) && Typed(k2) && q < NPROC && !Ran(k1, q)
    requires Away(k, k1, q) && Away(k1, k2, q)
    ensures Away(k, k2, q)
  {
    hide Layout;
    if BlockedInWait(k.procs[q]) && k2.procs[q].state != Sleeping {
      if k1.procs[q].state == Sleeping {
        var pid: nat :| Served(k1, k2, q, pid) && k2.tfs[q] == k1.tfs[q].(regs := k1.tfs[q].regs[A0 := pid]);
        assert Served(k, k2, q, pid);
      } else {
        var pid: nat :| Served(k, k1, q, pid) && k1.tfs[q] == k.tfs[q].(regs := k.tfs[q].regs[A0 := pid]);
        var d :| |k.hist.delivered| <= d < |k1.hist.delivered| && k1.hist.delivered[d] == Delivery(pid, q);
        assert k2.hist.delivered[d] == Delivery(pid, q);
        assert Served(k, k2, q, pid);
      }
    }
  }

  lemma {:induction false} StaysPut(k: Kernel, q: nat)
    requires Typed(k) && q < NPROC && (k.procs[q].state == Sleeping || (k.procs[q].state == Runnable && !Ran(k, q)))
    ensures Away(k, k, q)
  {
  }

  lemma {:induction false} RunAway(m: Machine, loc: PageTable.Locations, evs: seq<Event>, q: nat)
    requires Inv(m, loc) && CanRun(m, evs) && q < NPROC && !Ran(m.k, q) && NeverRuns(m, evs, q)
    requires m.k.procs[q].state == Runnable || m.k.procs[q].state == Sleeping
    ensures Away(m.k, Run(m, evs).k, q)
    decreases |evs|
  {
    hide Core, TablesOk, Layout, Step;
    if evs == [] {
      StaysPut(m.k, q);
    } else {
      var m1 := Step(m, evs[0]);
      StepAway(m, loc, evs[0], q);
      var loc1 := StepKeeps(m, loc, evs[0]);
      RunAway(m1, loc1, evs[1..], q);
      AwayStays(m.k, m1.k, Run(m1, evs[1..]).k, q);
    }
  }

  /** Away from state m1 through a run of the others, then dispatched by the event that leads to r. */
  ghost predicate Returns(m1: Machine, evs: seq<Event>, last: Event, r: Machine, q: nat)
    requires q < NPROC && WellFormed(m1)
  {
    && CanRun(m1, evs) && !Ran(m1.k, q) && NeverRuns(m1, evs, q)
    && Enabled(Run(m1, evs), last) && r == Step(Run(m1, evs), last) && Ran(r.k, q)
  }

  /** Whoever was not running and is dispatched again continues from its frame as it is then. */
  lemma {:induction false} Resumes(m1: Machine, evs: seq<Event>, last: Event, r: Machine, q: nat,
                                   loc: PageTable.Locations)
    requires WellFormed(m1) && WellFormed(r) && q < NPROC
    requires m1.k.procs[q].state == Runnable || m1.k.procs[q].state == Sleeping
    requires Returns(m1, evs, last, r, q)
    requires Inv(m1, loc)
    ensures Away(m1.k, r.k, q) && r.k.procs[q].state == Running
    ensures r.regs == r.k.tfs[q].regs[0 := 0] && r.pc == r.k.tfs[q].sepc && r.sstatus == r.k.tfs[q].sstatus
  {
    hide Core, TablesOk, Layout, Step, Away, Run;
    var m2 := Run(m1, evs);
    var loc2 := RunKeeps(m1, loc, evs);
    RunAway(m1, loc, evs, q);
    if last.UserRun? { UserRunKeepsCurrent(m2, last); }
    AwayState(m1.k, m2.k, q);
    NotRunningYet(m1, evs, q);
    StepAway(m2, loc2, last, q);
    AwayStays(m1.k, m2.k, r.k, q);
    StepResumes(m2, loc2, last);
  }

  lemma {:induction false} AwayState(k: Kernel, k': Kernel, q: nat)
    requires Typed(k) && Typed(k') && q < NPROC && Away(k, k', q)
    ensures k'.procs[q].state == Sleeping || k'.procs[q].state == Ready(k', q)
  {
    hide Layout;
  }

  lemma {:induction false} NotRunningYet(m: Machine, evs: seq<Event>, q: nat)
    requires WellFormed(m) && CanRun(m, evs) && !Ran(m.k, q) && NeverRuns(m, evs, q)
    ensures !Ran(Run(m, evs).k, q)
    decreases |evs|
  {
    hide Step;
    if evs != [] { NotRunningYet(Step(m, evs[0]), evs[1..], q); }
  }

  // ------------------------------------------------------------------ sleep

  /** r continues the system call made in m by process p: only a0 differs, and p's memory is as it was. */
  ghost predicate CallReturned(m: Machine, r: Machine, p: nat, a0: nat)
    requires WellFormed(m)
  {
    r.regs == m.regs[10 := a0] && r.pc == m.pc + 4 && r.sstatus == m.sstatus && SameBytes(m.k, r.k, p)
  }

  /** A process that calls sleep goes on, whenever it is dispatched again, behind the call with 0 in a0, all other
   *  registers and its memory unchanged, and not before min(n, MAX_SLEEP) ticks have passed. */
  lemma {:induction false} SleepReturns(m: Machine, env: Env, m1: Machine, evs: seq<Event>, last: Event, r: Machine,
                                        p: nat, n: nat, loc: PageTable.Locations)
    requires WellFormed(m) && m.k.current == Some(p) && p < NPROC && m.regs[17] == 6
    requires n == (if m.regs[10] > 1000000 then 1000000 else m.regs[10]) && n > 0
    requires m1 == Step(m, Trap(ECALL_U, env)) && WellFormed(m1) && WellFormed(r)
    requires Returns(m1, evs, last, r, p)
    requires Inv(m, loc)
    ensures CallReturned(m, r, p, 0) && r.k.ticks >= m.k.ticks + n
  {
    hide Core, TablesOk, Layout, Step, Run;
    SleepCall(m, env, m1, p, n, loc);
    var loc1 := StepKeeps(m, loc, Trap(ECALL_U, env));
    Resumes(m1, evs, last, r, p, loc1);
    var cleared: seq<nat> := m.regs[A0 := 0];
    assert cleared[0 := 0] == cleared;
    if r.k.ticks < m.k.ticks + n { StillAsleep(m1, evs, last, r, p, loc1); }
  }

  /** Before its deadline a sleeper is not dispatched. */
  lemma {:induction false} StillAsleep(m1: Machine, evs: seq<Event>, last: Event, r: Machine, p: nat,
                                       loc: PageTable.Locations)
    requires WellFormed(m1) && WellFormed(r) && p < NPROC && m1.k.procs[p].state == Sleeping
    requires m1.k.procs[p].wakeTick != 0
    requires Returns(m1, evs, last, r, p) && r.k.ticks < m1.k.procs[p].wakeTick
    requires Inv(m1, loc)
    ensures r.k.procs[p].state == Sleeping
  {
    hide Core, TablesOk, Layout, Step, Run;
    var m2 := Run(m1, evs);
    var loc2 := RunKeeps(m1, loc, evs);
    StepTicks(m2, loc2, last);
    SleepsOn(m1, loc, evs, p);
    NotRunningYet(m1, evs, p);
    StepUntouched(m2, loc2, last, p);
  }

  // ------------------------------------------------------------------ wait

  ghost predicate WaitStarted(m: Machine, r: Machine, p: nat)
    requires WellFormed(m) && WellFormed(r) && p < NPROC
  {
    && r.k.procs[p] == m.k.procs[p].(state := Sleeping) && BlockedInWait(r.k.procs[p])
    && r.k.hist == m.k.hist && SameBytes(m.k, r.k, p)
    && r.k.tfs[p].regs == m.regs[10 := 0] && r.k.tfs[p].sepc == m.pc + 4 && r.k.tfs[p].sstatus == m.sstatus
  }

  lemma {:induction false} BlockDetails(k: Kernel, p: nat)
    requires Typed(k) && Core(k) && k.current == Some(p) && Settled(k)
    requires HasChild(k.procs, p) && FirstZombie(k.procs, p, 0) == NPROC
    ensures var r := Wait(k).0;
            && Wait(k).1 == 0 && r.tfs == k.tfs && r.hist == k.hist && r.vm == k.vm
            && r.procs[p] == k.procs[p].(state := Sleeping) && k.procs[p].wakeTick == 0
  {
    hide Layout, FirstZombie, HasChild, Dispatch, Waiters, Ledger, Pids;
    DispatchShape(SetProc(k, p, k.procs[p].(state := Sleeping)));
  }

  /** p has a child, and no zombie child. */
  predicate LivingChildren(procs: seq<Proc>, p: nat) {
    && (exists c :: 0 <= c < |procs| && procs[c].state != Unused && procs[c].parent == Some(p))
    && forall c :: 0 <= c < |procs| ==> !ZombieChild(procs[c], p)
  }

  lemma {:induction false} LivingFound(procs: seq<Proc>, p: nat)
    requires LivingChildren(procs, p)
    ensures HasChild(procs, p) && FirstZombie(procs, p, 0) == |procs|
  {
    NoZombieFound(procs, p);
    var c :| 0 <= c < |procs| && procs[c].state != Unused && procs[c].parent == Some(p);
    assert ChildOf(procs[c], p);
  }

  /** The wait call with living children only: the caller blocks, with 0 in the a0 of its frame. */
  lemma {:induction false} WaitBlocks(m: Machine, env: Env, r: Machine, p: nat, loc: PageTable.Locations)
    requires WellFormed(m) && m.k.current == Some(p) && p < NPROC && m.regs[17] == 4
    requires LivingChildren(m.k.procs, p)
    requires r == Step(m, Trap(ECALL_U, env)) && WellFormed(r)
    requires Inv(m, loc)
    ensures WaitStarted(m, r, p)
  {
    hide Core, TablesOk, Handle, Layout, Finish, Save, FirstZombie, HasChild, Wait, Call;
    var k2 := EcallEntry(m, loc, env, p);
    CallIsWait(k2, p, m.k.satp, env);
    LivingFound(m.k.procs, p);
    Opened(k2, loc);
    BlockDetails(k2, p);
    SaveOk(m, loc, ECALL_U);
    SaveShape(m, ECALL_U);
    var k4 := Handle(Save(m, ECALL_U), p, ECALL_U, env);
    var loc' := HandleOk(Save(m, ECALL_U), loc, p, ECALL_U, env);
    FinishAlike(m, k4, loc', p);
  }

  /** A process whose wait call blocks goes on, whenever it is dispatched again, behind the call, with all registers but
   *  a0 and its memory unchanged; a0 holds the pid of a child of its own that was delivered to it since the call. */
  lemma {:induction false} WaitReturns(m: Machine, env: Env, m1: Machine, evs: seq<Event>, last: Event, r: Machine,
                                       p: nat, loc: PageTable.Locations) returns (pid: nat)
    requires WellFormed(m) && m.k.current == Some(p) && p < NPROC && m.regs[17] == 4
    requires LivingChildren(m.k.procs, p)
    requires m1 == Step(m, Trap(ECALL_U, env)) && WellFormed(m1) && WellFormed(r)
    requires Returns(m1, evs, last, r, p)
    requires Inv(m, loc)
    ensures CallReturned(m, r, p, pid) && Served(m.k, r.k, p, pid)
    ensures pid in r.k.hist.forked && r.k.hist.forked[pid] == p
  {
    hide Core, TablesOk, Layout, Step, Run, FirstZombie, HasChild;
    WaitBlocks(m, env, m1, p, loc);
    var loc1 := StepKeeps(m, loc, Trap(ECALL_U, env));
    Resumes(m1, evs, last, r, p, loc1);
    pid :| Served(m1.k, r.k, p, pid) && r.k.tfs[p] == m1.k.tfs[p].(regs := m1.k.tfs[p].regs[A0 := pid]);
    var blocked: seq<nat>, given: seq<nat> := m.regs[A0 := 0], m.regs[A0 := pid];
    assert blocked[A0 := pid] == given && given[0 := 0] == given;
    var loc2 := RunKeeps(m1, loc1, evs);
    var loc3 := StepKeeps(Run(m1, evs), loc2, last);
    DeliveredOwn(r, loc3, m.k, p, pid);
  }

  lemma {:induction false} DeliveredOwn(r: Machine, loc: PageTable.Locations, k: Kernel, p: nat, pid: nat)
    requires Inv(r, loc) && Served(k, r.k, p, pid)
    ensures pid in r.k.hist.forked && r.k.hist.forked[pid] == p
  {
    hide TablesOk, Layout, Waiters, Pids, IsLive, WasDelivered;
  }
}
