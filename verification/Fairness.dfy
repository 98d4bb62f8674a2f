/** Bounded bypass, the user-visible results of fork and wait, pid accounting and isolation over runs. */
module Fairness {
  import opened Wrappers
  import opened Sv39
  import PageTable
  import opened AddressSpace
  import opened Process
  import opened UserMemory
  import opened ProcessInvariants
  import opened KernelTables
  import opened Machine
  import opened KernelInvariant
  import opened Bystander
  import opened Runs
  import opened RunTheorems

  // ------------------------------------------------------------ bounded bypass

  lemma {:induction false} DispatchNearer(k: Kernel, q: nat)
    requires Typed(k) && NoneRunning(k.procs) && k.lastSlot >= 0 && Start(k) == k.lastSlot
    requires q < NPROC && k.procs[q].state == Runnable && !Ran(Dispatch(k), q)
    ensures Dispatch(k).current.Some? && Dist(Dispatch(k).lastSlot, q) < Dist(k.lastSlot, q)
  {
    hide Probe, Dist, Layout;
    ProbeFindsNearest(k.procs, Start(k), 1);
    DistRange(Start(k));
    PassedOverIsNearer(k.lastSlot, Dispatch(k).current.value, q);
  }

  /** Either the same process goes on without a dispatch, or q came strictly nearer. */
  ghost predicate Nearer(k: Kernel, k': Kernel, q: nat) {
    (k'.current == k.current && k'.lastSlot == k.lastSlot) || Dist(k'.lastSlot, q) < Dist(k.lastSlot, q)
  }

  lemma {:induction false} CallNearer(k: Kernel, loc: PageTable.Locations, c: nat, root: nat, env: Env, q: nat)
    requires KernelOk(k, loc) && k.current == Some(c) && root < PageTable.POOL_PAGES
    requires q < NPROC && k.procs[q].state == Runnable && !Ran(Call(k, c, c, root, env).0, q)
    ensures Nearer(k, Call(k, c, c, root, env).0, q)
  {
    hide Core, TablesOk, Layout, Dispatch, ExitSlot, SysWrite, SysCat, ReadLoop, CloneUser, FirstUnused, FirstZombie,
         HasChild, VmDestroy, Dist;
    var regs := k.tfs[c].regs;
    var n := regs[A7];
    if n == 3 {
      CoreLinks(k);
      ExitShape(k, c, ToInt32(regs[A0]));
      ExitCore(k, c, ToInt32(regs[A0]));
      DispatchNearer(ExitSlot(k, c, ToInt32(regs[A0])), q);
    } else if n == 4 {
      if FirstZombie(k.procs, c, 0) == NPROC && HasChild(k.procs, c) {
        DispatchNearer(SetProc(k, c, k.procs[c].(state := Sleeping)), q);
      }
    } else if n == 6 {
      var x := if regs[A0] > MAX_SLEEP then MAX_SLEEP else regs[A0];
      if x != 0 { DispatchNearer(SetProc(k, c, k.procs[c].(wakeTick := k.ticks + x, state := Sleeping)), q); }
    }
  }

  lemma {:induction false} HandleNearer(k: Kernel, loc: PageTable.Locations, c: nat, scause: nat, env: Env, q: nat)
    requires KernelOk(k, loc) && k.current == Some(c) && k.procs[c].pagetable == Some(k.satp)
    requires q < NPROC && k.procs[q].state == Runnable && !Ran(Handle(k, c, scause, env), q)
    ensures Nearer(k, Handle(k, c, scause, env), q)
    ensures scause == TIMER ==> Dist(Handle(k, c, scause, env).lastSlot, q) < Dist(k.lastSlot, q)
  {
    hide Core, TablesOk, Layout, Dispatch, ExitSlot, Call, Handle, Tick, Dist;
    CoreLinks(k);
    HandleIs(k, c, scause, env);
    if scause == ECALL_U {
      FramesFree(k, AdvancePc(k, c), loc);
      CallNearer(AdvancePc(k, c), loc, c, k.satp, env, q);
    } else if scause == TIMER {
      TickCurrent(k);
      TickShape(k);
      var k1 := Tick(k);
      var k2 := SetProc(k1, c, k1.procs[c].(state := Runnable));
      NoneRunningAfter(k, k1, k2, c);
      DispatchNearer(k2, q);
    } else {
      ExitShape(k, c, -1);
      ExitCore(k, c, -1);
      DispatchNearer(ExitSlot(k, c, -1), q);
    }
  }

  /** Did this event hand the processor to a process through proc_schedule? */
  predicate Dispatches(m: Machine, ev: Event)
    requires WellFormed(m) && Enabled(m, ev)
  {
    Step(m, ev).k.current.Some? && (Step(m, ev).k.current != m.k.current || Ticks(ev))
  }

  lemma {:induction false} StepNearer(m: Machine, loc: PageTable.Locations, ev: Event, q: nat)
    requires Inv(m, loc) && Enabled(m, ev) && q < NPROC && m.k.procs[q].state == Runnable && !Ran(Step(m, ev).k, q)
    ensures var r := Step(m, ev);
            if Dispatches(m, ev) then Dist(r.k.lastSlot, q) < Dist(m.k.lastSlot, q)
            else Dist(r.k.lastSlot, q) <= Dist(m.k.lastSlot, q)
  {
    hide Core, TablesOk, Handle, Finish, Layout, Save, Dist, UserStep;
    if ev.UserRun? {
      StoreKeeps(m, ev.regs, ev.pc, ev.store);
    } else if ev.Trap? {
      SaveOk(m, loc, ev.scause);
      SaveShape(m, ev.scause);
      var k0 := Save(m, ev.scause);
      var k1 := Handle(k0, m.sscratch, ev.scause, ev.env);
      var loc' := HandleOk(k0, loc, m.sscratch, ev.scause, ev.env);
      FinishAlike(m, k1, loc', q);
      HandleNearer(k0, loc, m.sscratch, ev.scause, ev.env, q);
    }
  }

  function CountDispatches(m: Machine, evs: seq<Event>): nat
    requires WellFormed(m) && CanRun(m, evs)
    decreases |evs|
  {
    if evs == [] then 0
    else (if Dispatches(m, evs[0]) then 1 else 0) + CountDispatches(Step(m, evs[0]), evs[1..])
  }

  lemma {:induction false} BypassBudget(m: Machine, loc: PageTable.Locations, evs: seq<Event>, q: nat)
    requires Inv(m, loc) && CanRun(m, evs) && q < NPROC && m.k.procs[q].state == Runnable && NeverRuns(m, evs, q)
    ensures CountDispatches(m, evs) + Dist(Run(m, evs).k.lastSlot, q) <= Dist(m.k.lastSlot, q)
    decreases |evs|
  {
    hide Core, TablesOk, Layout, Step, Dist, Dispatches;
    if evs != [] {
      var loc1 := StepKeeps(m, loc, evs[0]);
      StepUntouched(m, loc, evs[0], q);
      StepNearer(m, loc, evs[0], q);
      BypassBudget(Step(m, evs[0]), loc1, evs[1..], q);
    }
  }

  /** Bounded bypass: while a process waits Runnable, at most NPROC - 1 dispatches go to others. */
  lemma {:induction false} BoundedBypass(m: Machine, loc: PageTable.Locations, evs: seq<Event>, q: nat)
    requires Inv(m, loc) && CanRun(m, evs) && q < NPROC && m.k.procs[q].state == Runnable && NeverRuns(m, evs, q)
    ensures CountDispatches(m, evs) <= NPROC - 1
  {
    hide Core, TablesOk, Layout, Step, Dist, Dispatches, CountDispatches;
    BypassBudget(m, loc, evs, q);
    DistRange(Run(m, evs).k.lastSlot);
    DistRange(m.k.lastSlot);
  }

  // ---------------------------------------------------------- pids, accounting

  /** Pids go up, new forks take unused ones, and deliveries are only appended. */
  ghost predicate Grows(k: Kernel, k': Kernel) {
    && k.nextPid <= k'.nextPid && k.hist.delivered <= k'.hist.delivered
    && (forall pid :: pid in k.hist.forked ==> pid in k'.hist.forked && k'.hist.forked[pid] == k.hist.forked[pid])
    && (forall pid :: pid in k'.hist.forked && pid !in k.hist.forked ==> pid >= k.nextPid)
  }

  lemma {:induction false} FreshPidUnforked(k: Kernel)
    requires Core(k)
    ensures k.nextPid !in k.hist.forked
  {
  }

  lemma {:induction false} CallGrows(k: Kernel, loc: PageTable.Locations, c: nat, root: nat, env: Env)
    requires KernelOk(k, loc) && k.current == Some(c) && root < PageTable.POOL_PAGES
    ensures Grows(k, Call(k, c, c, root, env).0)
  {
    hide Core, TablesOk, Layout, Dispatch, ExitSlot, SysWrite, SysCat, ReadLoop, CloneUser, FirstUnused, FirstZombie,
         HasChild, VmDestroy;
    FreshPidUnforked(k);
    var regs := k.tfs[c].regs;
    var n := regs[A7];
    if n == 3 {
      CoreLinks(k);
      ExitShape(k, c, ToInt32(regs[A0]));
      ExitCore(k, c, ToInt32(regs[A0]));
      DispatchShape(ExitSlot(k, c, ToInt32(regs[A0])));
    } else if n == 4 {
      if FirstZombie(k.procs, c, 0) == NPROC && HasChild(k.procs, c) {
        DispatchShape(SetProc(k, c, k.procs[c].(state := Sleeping)));
      }
    } else if n == 6 {
      var x := if regs[A0] > MAX_SLEEP then MAX_SLEEP else regs[A0];
      if x != 0 { DispatchShape(SetProc(k, c, k.procs[c].(wakeTick := k.ticks + x, state := Sleeping))); }
    }
  }

  lemma {:induction false} HandleGrows(k: Kernel, loc: PageTable.Locations, c: nat, scause: nat, env: Env)
    requires KernelOk(k, loc) && k.current == Some(c) && k.procs[c].pagetable == Some(k.satp)
    ensures Grows(k, Handle(k, c, scause, env))
  {
    hide Core, TablesOk, Layout, Dispatch, ExitSlot, Call, Handle, Tick;
    CoreLinks(k);
    HandleIs(k, c, scause, env);
    if scause == ECALL_U {
      FramesFree(k, AdvancePc(k, c), loc);
      CallGrows(AdvancePc(k, c), loc, c, k.satp, env);
    } else if scause == TIMER {
      TickCurrent(k);
      TickShape(k);
      var k1 := Tick(k);
      var k2 := SetProc(k1, c, k1.procs[c].(state := Runnable));
      NoneRunningAfter(k, k1, k2, c);
      DispatchShape(k2);
    } else {
      ExitShape(k, c, -1);
      ExitCore(k, c, -1);
      DispatchShape(ExitSlot(k, c, -1));
    }
  }

  lemma {:induction false} StepGrows(m: Machine, loc: PageTable.Locations, ev: Event)
    requires Inv(m, loc) && Enabled(m, ev)
    ensures Grows(m.k, Step(m, ev).k)
  {
    hide Core, TablesOk, Handle, Finish, Layout, Save, Dispatch, Tick, UserStep;
    if ev.UserRun? {
      StoreKeeps(m, ev.regs, ev.pc, ev.store);
    } else if ev.Trap? {
      SaveOk(m, loc, ev.scause);
      SaveShape(m, ev.scause);
      var k0 := Save(m, ev.scause);
      var loc' := HandleOk(k0, loc, m.sscratch, ev.scause, ev.env);
      FinishAlike(m, Handle(k0, m.sscratch, ev.scause, ev.env), loc', 0);
      HandleGrows(k0, loc, m.sscratch, ev.scause, ev.env);
    } else {
      IdleOk(m.k, loc);
      FinishAlike(m, Dispatch(Tick(m.k)), loc, 0);
      TickShape(m.k);
      TickCoreIdle(m.k);
      DispatchShape(Tick(m.k));
    }
  }

  /** Exit accounting over a whole run: a pid forked later is new, deliveries once made stay, and in the final
   *  state every pid ever forked is either still in the table or was delivered, to its parent's slot, once. */
  lemma {:induction false} PidsAreAccountedFor(m: Machine, loc: PageTable.Locations, evs: seq<Event>)
    requires Inv(m, loc) && CanRun(m, evs)
    ensures Grows(m.k, Run(m, evs).k)
    ensures var r := Run(m, evs).k; Pids(r.procs, r.nextPid) && Ledger(r.procs, r.nextPid, r.hist)
    decreases |evs|
  {
    hide TablesOk, Layout, Step, Settled, Seated;
    if evs != [] {
      var loc1 := StepKeeps(m, loc, evs[0]);
      StepGrows(m, loc, evs[0]);
      PidsAreAccountedFor(Step(m, evs[0]), loc1, evs[1..]);
    }
  }

  // -------------------------------------------------- fork and wait, as calls

  predicate TableFull(k: Kernel) { forall i :: 0 <= i < |k.procs| ==> k.procs[i].state != Unused }

  /** Slot i holds a fresh child of p: a copy of p's frame with 0 in a0, and a copy of its memory. */
  ghost predicate ChildBorn(m: Machine, r: Machine, p: nat, i: nat)
    requires WellFormed(m) && WellFormed(r) && p < NPROC && i < NPROC
  {
    && m.k.procs[i].state == Unused && (forall j :: 0 <= j < i ==> m.k.procs[j].state != Unused)
    && r.k.procs[i].state == Runnable
    && r.k.procs[i].pid == m.k.nextPid && r.k.procs[i].parent == Some(p)
    && r.k.tfs[i].regs == m.regs[10 := 0] && r.k.tfs[i].sepc == m.pc + 4 && r.k.tfs[i].sstatus == m.sstatus
    && Copied(m.k.vm, r.k.vm, i, p)
  }

  ghost predicate ForkReturned(m: Machine, r: Machine, p: nat)
    requires WellFormed(m) && WellFormed(r) && p < NPROC
  {
    && r.k.current == Some(p) && r.k.procs[p] == m.k.procs[p] && r.pc == m.pc + 4 && r.sstatus == m.sstatus
    && r.regs == m.regs[10 := if TableFull(m.k) then TWO64 - 1 else m.k.nextPid % TWO64]
    && r.k.nextPid == m.k.nextPid + (if TableFull(m.k) then 0 else 1)
    && (TableFull(m.k) ==> r.k.procs == m.k.procs && r.k.vm == m.k.vm)
    && (!TableFull(m.k) ==> exists i: nat :: i < NPROC && ChildBorn(m, r, p, i))
  }

  /** fork, as the user sees it: it fails exactly when all NPROC slots are taken; otherwise the parent gets
   *  the child's fresh pid, the child a copy of the frame with 0 in a0 and a copy of the memory. */
  lemma {:induction false} ForkCall(m: Machine, env: Env, r: Machine, p: nat, loc: PageTable.Locations)
    requires WellFormed(m) && m.k.current == Some(p) && p < NPROC && m.regs[17] == 2
    requires r == Step(m, Trap(ECALL_U, env)) && WellFormed(r)
    requires Inv(m, loc)
    ensures ForkReturned(m, r, p)
  {
    hide Core, TablesOk, Handle, Layout, Finish, Save, ForkInto, FirstUnused, Call, CopySlot, Copied;
    var k2 := EcallEntry(m, loc, env, p);
    CallIsFork(k2, p, m.k.satp, env);
    var loc1 := ForkOk(k2, loc, p, p);
    var i := FirstUnused(k2.procs, 0);
    ForkDetails(k2, loc, p, i);
    SaveOk(m, loc, ECALL_U);
    SaveShape(m, ECALL_U);
    var k4 := Handle(Save(m, ECALL_U), p, ECALL_U, env);
    var loc' := HandleOk(Save(m, ECALL_U), loc, p, ECALL_U, env);
    FinishAlike(m, k4, loc', p);
    StepResumes(m, loc, Trap(ECALL_U, env));
    if i < NPROC {
      CopySlotCopies(m.k.vm, r.k.vm, i, p);
      assert ChildBorn(m, r, p, i);
    }
  }

  lemma {:induction false} CallIsFork(k: Kernel, p: nat, root: nat, env: Env)
    requires Typed(k) && p < NPROC && root < PageTable.POOL_PAGES && k.tfs[p].regs[A7] == 2
    ensures Call(k, p, p, root, env) == Fork(k, p)
  {
    hide Wait, Fork, Exit, SysRead, SysSleep, Layout;
  }

  lemma {:induction false} ForkDetails(k: Kernel, loc: PageTable.Locations, p: nat, i: nat)
    requires KernelOk(k, loc) && k.current == Some(p) && i <= NPROC && (i < NPROC ==> k.procs[i].state == Unused)
    ensures i < NPROC ==>
              var r := ForkInto(k, p, p, i).0;
              && r.current == k.current && r.nextPid == k.nextPid + 1 && r.procs == k.procs[i := r.procs[i]]
              && r.procs[i].state == Runnable && r.procs[i].pid == k.nextPid
              && r.procs[i].parent == Some(p)
              && r.tfs == k.tfs[i := k.tfs[p].(kernelStack := i, regs := k.tfs[p].regs[A0 := 0])]
              && r.vm.frames == CopySlot(k.vm.frames, i, p)
  {
    hide Core, TablesOk, Layout, CloneUser;
    if i < NPROC { var loc' := ForkTables(k, loc, p, p, i); }
  }

  ghost predicate Collected(m: Machine, r: Machine, p: nat, z: nat)
    requires WellFormed(m) && WellFormed(r) && p < NPROC && z < NPROC
  {
    && r.k.current == Some(p) && r.regs == m.regs[10 := m.k.procs[z].pid % TWO64] && r.pc == m.pc + 4
    && r.k.procs[z].state == Unused
    && r.k.hist.delivered == m.k.hist.delivered + [Delivery(m.k.procs[z].pid, p)]
  }

  predicate ZombieChild(c: Proc, p: nat) { c.state == Zombie && c.parent == Some(p) }

  lemma {:induction false} ZombieFound(procs: seq<Proc>, p: nat, z: nat)
    requires z < |procs| && ZombieChild(procs[z], p) && forall j :: 0 <= j < z ==> !ZombieChild(procs[j], p)
    ensures FirstZombie(procs, p, 0) == z
  {
  }

  lemma {:induction false} NoZombieFound(procs: seq<Proc>, p: nat)
    requires forall j :: 0 <= j < |procs| ==> !ZombieChild(procs[j], p)
    ensures FirstZombie(procs, p, 0) == |procs|
  {
  }

  /** wait with a zombie child, the first of them z: the caller goes on with that child's pid in a0, and the delivery
   *  is recorded. */
  lemma {:induction false} WaitCollects(m: Machine, env: Env, r: Machine, p: nat, z: nat, loc: PageTable.Locations)
    requires WellFormed(m) && m.k.current == Some(p) && p < NPROC && m.regs[17] == 4
    requires z < NPROC && ZombieChild(m.k.procs[z], p) && forall j :: 0 <= j < z ==> !ZombieChild(m.k.procs[j], p)
    requires r == Step(m, Trap(ECALL_U, env)) && WellFormed(r)
    requires Inv(m, loc)
    ensures Collected(m, r, p, z)
  {
    hide Core, TablesOk, Handle, Layout, Finish, Save, FirstZombie, Wait, Call;
    var k2 := EcallEntry(m, loc, env, p);
    CallIsWait(k2, p, m.k.satp, env);
    ZombieFound(m.k.procs, p, z);
    ReapDetails(k2, p, z);
    SaveOk(m, loc, ECALL_U);
    SaveShape(m, ECALL_U);
    var k4 := Handle(Save(m, ECALL_U), p, ECALL_U, env);
    var loc' := HandleOk(Save(m, ECALL_U), loc, p, ECALL_U, env);
    FinishAlike(m, k4, loc', p);
    StepResumes(m, loc, Trap(ECALL_U, env));
    assert m.regs[0 := 0] == m.regs;
  }

  lemma {:induction false} CallIsWait(k: Kernel, p: nat, root: nat, env: Env)
    requires Typed(k) && p < NPROC && root < PageTable.POOL_PAGES && k.tfs[p].regs[A7] == 4
    ensures Call(k, p, p, root, env) == Wait(k)
  {
    hide Wait, Fork, Exit, SysRead, SysSleep, Layout;
  }

  lemma {:induction false} ReapDetails(k: Kernel, p: nat, z: nat)
    requires Typed(k) && k.current == Some(p) && z == FirstZombie(k.procs, p, 0) && z < NPROC
    ensures var (r, n) := Wait(k);
            && n == k.procs[z].pid && r.current == k.current && r.tfs == k.tfs && r.procs[z].state == Unused
            && r.hist.delivered == k.hist.delivered + [Delivery(k.procs[z].pid, p)]
  {
    hide FirstZombie, Layout, VmDestroy;
  }

  // ------------------------------------------------------------- isolation

  /** In every reachable state and for every live slot, user-mode accesses through its table, at any
   *  address, reach exactly the slot's own five frames. */
  lemma {:induction false} ReachableIsolation(m: Machine, loc: PageTable.Locations, c: nat, va: nat, access: Access)
    requires Inv(m, loc) && c < NPROC && m.k.procs[c].state != Unused
    ensures m.k.procs[c].pagetable.Some?
    ensures PageTable.HardwareTranslate(m.k.vm.pool, m.k.procs[c].pagetable.value, va, access, User) ==
            (if UserPage(va / PGSIZE).Some? && (access == Fetch ==> va / PGSIZE != STACK_VPN)
             then Some(SlotBase(m.k.vm, c) + UserPage(va / PGSIZE).value) else None)
    ensures m.k.current == Some(c) ==> m.k.procs[c].pagetable == Some(m.k.satp)
  {
    hide Core, PageTable.Tree, HasSpace, PageTable.HardwareTranslate;
    ActiveRoot(m.k, loc, c);
    UserReach(m.k.vm, loc, c, m.k.procs[c].pagetable.value, va, access);
  }

  /** The tables of two live slots never lead user mode to a common frame, nor to a page of the pool. */
  lemma {:induction false} SlotsShareNothing(m: Machine, loc: PageTable.Locations, a: nat, b: nat, va: nat, va': nat,
                                             access: Access, access': Access)
    requires Inv(m, loc) && a < NPROC && b < NPROC && a != b && m.k.procs[a].state != Unused
    requires m.k.procs[b].state != Unused
    ensures m.k.procs[a].pagetable.Some? && m.k.procs[b].pagetable.Some?
    ensures var x := PageTable.HardwareTranslate(m.k.vm.pool, m.k.procs[a].pagetable.value, va, access, User);
            var y := PageTable.HardwareTranslate(m.k.vm.pool, m.k.procs[b].pagetable.value, va', access', User);
            (x.Some? ==> x != y) && (x.Some? ==> !PageTable.InPool(m.k.vm.pool, x.value))
  {
    hide Core, TablesOk, PageTable.HardwareTranslate, UserPage;
    ReachableIsolation(m, loc, a, va, access);
    ReachableIsolation(m, loc, b, va', access');
    if UserPage(va / PGSIZE).Some? {
      SlotsApart(m.k.vm, a, a, va / PGSIZE, va / PGSIZE);
      if UserPage(va' / PGSIZE).Some? { SlotsApart(m.k.vm, a, b, va / PGSIZE, va' / PGSIZE); }
    }
  }
}
