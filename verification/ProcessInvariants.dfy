/** What every process operation keeps: parent links, sleep deadlines, waiters, pids and the ledger of
 *  deliveries.  None of these depends on the page tables. */
module ProcessInvariants {
  import opened Wrappers
  import opened AddressSpace
  import opened Process

  // --------------------------------------------------------------- invariants

  /** Slot i uses trapframe i; no process is its own parent. */
  ghost predicate Links(procs: seq<Proc>) {
    forall i :: 0 <= i < |procs| ==> procs[i].tf == i && (procs[i].state != Unused ==> procs[i].parent != Some(i))
  }

  /** A deadline exists only for a sleeper, and then lies at most MAX_SLEEP ticks ahead. */
  ghost predicate Deadlines(procs: seq<Proc>, ticks: nat) {
    forall i :: 0 <= i < |procs| && procs[i].wakeTick != 0 ==>
      procs[i].state == Sleeping && ticks < procs[i].wakeTick <= ticks + MAX_SLEEP
  }

  /** A process blocked in wait has a child that can still exit, and no child that already has. */
  ghost predicate WaiterOk(procs: seq<Proc>, p: nat) {
    && (exists c :: 0 <= c < |procs| && ChildOf(procs[c], p) && procs[c].state != Zombie)
    && (forall c :: 0 <= c < |procs| && ChildOf(procs[c], p) ==> procs[c].state != Zombie)
  }

  ghost predicate Waiters(procs: seq<Proc>) {
    forall p :: 0 <= p < |procs| && BlockedInWait(procs[p]) ==> WaiterOk(procs, p)
  }

  ghost predicate Pids(procs: seq<Proc>, nextPid: nat) {
    && (forall i :: 0 <= i < |procs| && procs[i].state != Unused ==> 1 <= procs[i].pid < nextPid)
    && (forall i, j :: 0 <= i < j < |procs| && procs[i].state != Unused && procs[j].state != Unused ==>
          procs[i].pid != procs[j].pid)
  }

  predicate WasDelivered(h: History, pid: nat) { exists d :: 0 <= d < |h.delivered| && h.delivered[d].pid == pid }

  predicate IsLive(procs: seq<Proc>, pid: nat) {
    exists i :: 0 <= i < |procs| && procs[i].state != Unused && procs[i].pid == pid
  }

  /** Every forked pid is in the table or was delivered, never both; it was delivered at most once and
   *  only to its parent's slot. */
  ghost predicate Ledger(procs: seq<Proc>, nextPid: nat, h: History) {
    && (forall pid :: pid in h.forked ==> pid < nextPid && (IsLive(procs, pid) <==> !WasDelivered(h, pid)))
    && (forall i :: 0 <= i < |procs| && procs[i].state != Unused ==>
          (procs[i].parent.Some? <==> procs[i].pid in h.forked))
    && (forall i :: 0 <= i < |procs| && procs[i].state != Unused && procs[i].parent.Some? ==>
          procs[i].pid in h.forked && h.forked[procs[i].pid] == procs[i].parent.value)
    && (forall d :: 0 <= d < |h.delivered| ==>
          h.delivered[d].pid in h.forked && h.forked[h.delivered[d].pid] == h.delivered[d].to)
    && (forall d, e :: 0 <= d < e < |h.delivered| ==> h.delivered[d].pid != h.delivered[e].pid)
  }

  /** No two processes enter the kernel on the same stack. */
  ghost predicate Stacks(tfs: seq<TrapFrame>) { forall i :: 0 <= i < |tfs| ==> tfs[i].kernelStack == i }

  ghost predicate Core(k: Kernel) {
    && Links(k.procs) && Deadlines(k.procs, k.ticks) && Waiters(k.procs)
    && Pids(k.procs, k.nextPid) && Ledger(k.procs, k.nextPid, k.hist) && Stacks(k.tfs) && k.nextPid >= 1
  }

  ghost predicate NoneRunning(procs: seq<Proc>) { forall i :: 0 <= i < |procs| ==> procs[i].state != Running }

  ghost predicate OnlyRunning(procs: seq<Proc>, c: nat) {
    c < |procs| && forall i :: 0 <= i < |procs| ==> (procs[i].state == Running <==> i == c)
  }

  /** Between traps: either one process runs, and it is the one last dispatched, or nobody can run. */
  ghost predicate Settled(k: Kernel) {
    match k.current
    case Some(c) => OnlyRunning(k.procs, c) && k.lastSlot == c
    case None =>
      NoneRunning(k.procs) && (forall i :: 0 <= i < |k.procs| ==> k.procs[i].state != Runnable) && k.lastSlot >= 0
  }

  // --------------------------------------------------------------- scheduling

  /** How many probes from `start` until slot i is looked at: 1 .. NPROC. */
  function Dist(start: int, i: nat): nat { (i - start - 1) % NPROC + 1 }

  lemma {:induction false} DistProbe(start: int, n: nat, i: nat)
    requires 1 <= n <= NPROC && i < NPROC
    ensures (start + n) % NPROC == i <==> Dist(start, i) == n
  {
  }

  /** The probe finds the Runnable slot at the least cyclic distance, and fails only when there is none. */
  lemma {:induction false} ProbeFindsNearest(procs: seq<Proc>, start: int, n: nat)
    requires |procs| == NPROC && -1 <= start && 1 <= n <= NPROC + 1
    ensures match Probe(procs, start, n)
            case Some(i) => forall j :: 0 <= j < NPROC && procs[j].state == Runnable && Dist(start, j) >= n ==>
                              Dist(start, i) <= Dist(start, j)
            case None => forall j :: 0 <= j < NPROC && procs[j].state == Runnable ==> Dist(start, j) < n
    decreases NPROC + 1 - n
  {
    hide Dist;
    DistRange(start);
    if n <= NPROC {
      var i := (start + n) % NPROC;
      forall j | 0 <= j < NPROC ensures j == i <==> Dist(start, j) == n { DistProbe(start, n, j); }
      if procs[i].state != Runnable { ProbeFindsNearest(procs, start, n + 1); }
    }
  }

  lemma {:induction false} DistRange(start: int)
    ensures forall j: nat :: 1 <= Dist(start, j) <= NPROC
  {
  }

  /** Passing a Runnable slot over brings it strictly nearer. */
  lemma {:induction false} PassedOverIsNearer(start: int, i: nat, j: nat)
    requires -1 <= start < NPROC && i < NPROC && j < NPROC && i != j && Dist(start, i) <= Dist(start, j)
    ensures Dist(i, j) < Dist(start, j)
  {
  }

  /** Slots change only between Runnable and Running. */
  ghost predicate Reshuffled(procs: seq<Proc>, procs': seq<Proc>) {
    && |procs| == |procs'|
    && (forall i :: 0 <= i < |procs| ==>
          || procs'[i] == procs[i]
          || (procs[i].state in {Runnable, Running} && procs'[i].state in {Runnable, Running}
              && procs'[i] == procs[i].(state := procs'[i].state)))
  }

  lemma {:induction false} ReshuffledKeeps(procs: seq<Proc>, procs': seq<Proc>, ticks: nat, nextPid: nat, h: History)
    requires Reshuffled(procs, procs')
    ensures Links(procs) ==> Links(procs')
    ensures Deadlines(procs, ticks) ==> Deadlines(procs', ticks)
    ensures Waiters(procs) ==> Waiters(procs')
    ensures Pids(procs, nextPid) ==> Pids(procs', nextPid)
    ensures Ledger(procs, nextPid, h) ==> Ledger(procs', nextPid, h)
  {
    if Waiters(procs) {
      forall p | 0 <= p < |procs'| && BlockedInWait(procs'[p]) ensures WaiterOk(procs', p) {
        assert procs'[p] == procs[p];
        var c :| 0 <= c < |procs| && ChildOf(procs[c], p) && procs[c].state != Zombie;
        assert ChildOf(procs'[c], p) && procs'[c].state != Zombie;
      }
    }
    if Ledger(procs, nextPid, h) { SameLedger(procs, procs', nextPid, h); }
  }

  /** The ledger reads only liveness, pids and parents. */
  lemma {:induction false} SameLedger(procs: seq<Proc>, procs': seq<Proc>, nextPid: nat, h: History)
    requires Ledger(procs, nextPid, h) && |procs| == |procs'|
    requires forall i :: 0 <= i < |procs| ==> procs'[i].pid == procs[i].pid && procs'[i].parent == procs[i].parent
                                              && (procs'[i].state == Unused <==> procs[i].state == Unused)
    ensures Ledger(procs', nextPid, h)
  {
    forall pid | pid in h.forked ensures IsLive(procs', pid) <==> IsLive(procs, pid) {
      if IsLive(procs, pid) {
        var i :| 0 <= i < |procs| && procs[i].state != Unused && procs[i].pid == pid;
        assert procs'[i].state != Unused && procs'[i].pid == pid;
      }
      if IsLive(procs', pid) {
        var i :| 0 <= i < |procs'| && procs'[i].state != Unused && procs'[i].pid == pid;
        assert procs[i].state != Unused && procs[i].pid == pid;
      }
    }
  }

  /** Dispatching from a state where nobody runs. */
  lemma {:induction false} DispatchShape(k: Kernel)
    requires Typed(k) && NoneRunning(k.procs) && k.lastSlot >= 0
    ensures var r := Dispatch(k);
            && Reshuffled(k.procs, r.procs) && Settled(r)
            && r == k.(procs := r.procs, current := r.current, lastSlot := r.lastSlot)
            && (r.current.None? ==> r.procs == k.procs && r.lastSlot == k.lastSlot)
            && (r.current.Some? ==> && r.current.value < NPROC && k.procs[r.current.value].state == Runnable
                                    && var p := k.procs[r.current.value];
                                       r.procs == k.procs[r.current.value := p.(state := Running)])
  {
    hide Probe, Dist;
    ProbeFindsNearest(k.procs, Start(k), 1);
    DistRange(Start(k));
  }

  lemma {:induction false} ReshuffledCore(k: Kernel, r: Kernel)
    requires Core(k) && Reshuffled(k.procs, r.procs)
    requires r == k.(procs := r.procs, current := r.current, lastSlot := r.lastSlot)
    ensures Core(r)
  {
    hide Links, Deadlines, Waiters, Pids, Ledger, Reshuffled;
    ReshuffledKeeps(k.procs, r.procs, k.ticks, k.nextPid, k.hist);
  }

  lemma {:induction false} DispatchCore(k: Kernel)
    requires Typed(k) && NoneRunning(k.procs) && k.lastSlot >= 0 && Core(k)
    ensures Core(Dispatch(k)) && Settled(Dispatch(k))
  {
    hide Core, Dispatch, Reshuffled, Settled;
    DispatchShape(k);
    ReshuffledCore(k, Dispatch(k));
  }

  // -------------------------------------------------------- freeing a slot

  function Freed(p: Proc): Proc { p.(pagetable := None, state := Unused, pid := 0, parent := None) }

  /** Removing a process nobody blocked is waiting for keeps the waiters served. */
  lemma {:induction false} FreeKeepsWaiters(procs: seq<Proc>, c: nat, freed: Proc)
    requires Waiters(procs) && c < |procs| && freed.state == Unused
    requires procs[c].parent.Some? && procs[c].state != Zombie ==>
               (procs[c].parent.value < |procs| ==> !BlockedInWait(procs[procs[c].parent.value]))
    ensures Waiters(procs[c := freed])
  {
    var procs' := procs[c := freed];
    forall p | 0 <= p < |procs'| && BlockedInWait(procs'[p]) ensures WaiterOk(procs', p) {
      assert p != c && BlockedInWait(procs[p]);
      var w :| 0 <= w < |procs| && ChildOf(procs[w], p) && procs[w].state != Zombie;
      assert w != c;
      assert ChildOf(procs'[w], p) && procs'[w].state != Zombie;
    }
  }

  lemma {:induction false} FreeKeepsPids(procs: seq<Proc>, c: nat, freed: Proc, nextPid: nat)
    requires Pids(procs, nextPid) && c < |procs| && freed.state == Unused
    ensures Pids(procs[c := freed], nextPid)
  {
  }

  lemma {:induction false} FreeLiveness(procs: seq<Proc>, c: nat, freed: Proc, nextPid: nat, pid: nat)
    requires Pids(procs, nextPid) && c < |procs| && procs[c].state != Unused && freed.state == Unused
    ensures IsLive(procs[c := freed], pid) <==> IsLive(procs, pid) && pid != procs[c].pid
  {
    var procs' := procs[c := freed];
    if IsLive(procs', pid) {
      var i :| 0 <= i < |procs'| && procs'[i].state != Unused && procs'[i].pid == pid;
      assert procs[i].state != Unused && procs[i].pid == pid && i != c;
      if i < c { assert procs[i].pid != procs[c].pid; } else { assert procs[c].pid != procs[i].pid; }
    }
    if IsLive(procs, pid) && pid != procs[c].pid {
      var i :| 0 <= i < |procs| && procs[i].state != Unused && procs[i].pid == pid;
      assert procs'[i].state != Unused && procs'[i].pid == pid;
    }
  }

  /** A process without a parent leaves the ledger alone. */
  lemma {:induction false} FreeOrphanLedger(procs: seq<Proc>, c: nat, freed: Proc, nextPid: nat, h: History)
    requires Ledger(procs, nextPid, h) && Pids(procs, nextPid)
    requires c < |procs| && procs[c].state != Unused && procs[c].parent.None? && freed.state == Unused
    ensures Ledger(procs[c := freed], nextPid, h)
  {
    forall pid | pid in h.forked ensures IsLive(procs[c := freed], pid) <==> IsLive(procs, pid) {
      FreeLiveness(procs, c, freed, nextPid, pid);
    }
  }

  /** A delivered child moves from the table to the list of deliveries. */
  lemma {:induction false} FreeDeliveredLedger(procs: seq<Proc>, c: nat, freed: Proc, nextPid: nat, h: History)
    requires Ledger(procs, nextPid, h) && Pids(procs, nextPid)
    requires c < |procs| && procs[c].state != Unused && procs[c].parent.Some? && freed.state == Unused
    ensures Ledger(procs[c := freed], nextPid,
                   h.(delivered := h.delivered + [Delivery(procs[c].pid, procs[c].parent.value)]))
  {
    hide IsLive, WasDelivered;
    var h' := h.(delivered := h.delivered + [Delivery(procs[c].pid, procs[c].parent.value)]);
    var procs' := procs[c := freed];
    LiveAt(procs, c);
    assert !WasDelivered(h, procs[c].pid);
    forall pid | pid in h'.forked ensures IsLive(procs', pid) <==> !WasDelivered(h', pid) {
      FreeLiveness(procs, c, freed, nextPid, pid);
      DeliveredSnoc(h, procs[c].pid, procs[c].parent.value, pid);
    }
    NotDelivered(h, procs[c].pid);
  }

  lemma {:induction false} NotDelivered(h: History, pid: nat)
    requires !WasDelivered(h, pid)
    ensures forall d :: 0 <= d < |h.delivered| ==> h.delivered[d].pid != pid
  {
  }

  lemma {:induction false} LiveAt(procs: seq<Proc>, c: nat)
    requires c < |procs| && procs[c].state != Unused
    ensures IsLive(procs, procs[c].pid)
  {
  }

  lemma {:induction false} DeliveredSnoc(h: History, pid: nat, to: nat, x: nat)
    ensures WasDelivered(h.(delivered := h.delivered + [Delivery(pid, to)]), x) <==> WasDelivered(h, x) || x == pid
  {
    var h' := h.(delivered := h.delivered + [Delivery(pid, to)]);
    if WasDelivered(h, x) {
      var d :| 0 <= d < |h.delivered| && h.delivered[d].pid == x;
      assert h'.delivered[d].pid == x;
    }
    assert h'.delivered[|h.delivered|].pid == pid;
  }

  // --------------------------------------------------------------------- exit

  /** The three ways out of proc_exit, on the process table. */
  lemma {:induction false} ExitShape(k: Kernel, p: nat, status: int)
    requires Typed(k) && p < NPROC && Links(k.procs) && k.procs[p].state != Unused
    ensures var r := ExitSlot(k, p, status);
            var me := k.procs[p].(exitStatus := status);
            && r.current == k.current && r.lastSlot == k.lastSlot && r.nextPid == k.nextPid && r.ticks == k.ticks
            && (if me.parent.Some? && BlockedInWait(k.procs[me.parent.value]) then
                  var q := me.parent.value;
                  && r.procs == k.procs[q := k.procs[q].(state := Runnable)][p := Freed(me)]
                  && r.tfs == k.tfs[q := k.tfs[q].(regs := k.tfs[q].regs[A0 := me.pid])]
                  && r.hist == k.hist.(delivered := k.hist.delivered + [Delivery(me.pid, q)])
                else
                  && r.tfs == k.tfs && r.hist == k.hist
                  && r.procs == k.procs[p := if me.parent.None? then Freed(me) else me.(state := Zombie)])
  {
    hide VmDestroy, KernelPagetable;
    var me := k.procs[p].(exitStatus := status);
    if me.parent.Some? && BlockedInWait(k.procs[me.parent.value]) {
      var q := me.parent.value;
      assert q != p;
      assert k.procs[p := me][q := k.procs[q].(state := Runnable)][p := Freed(me)]
          == k.procs[q := k.procs[q].(state := Runnable)][p := Freed(me)];
    } else {
      assert k.procs[p := me][p := Freed(me)] == k.procs[p := Freed(me)];
      assert k.procs[p := me][p := me.(state := Zombie)] == k.procs[p := me.(state := Zombie)];
    }
  }

  /** Waking a waiter keeps everything but its own wait. */
  lemma {:induction false} WakeWaiter(procs: seq<Proc>, q: nat, ticks: nat, nextPid: nat, h: History)
    requires q < |procs| && BlockedInWait(procs[q])
    requires Links(procs) && Deadlines(procs, ticks) && Waiters(procs) && Pids(procs, nextPid)
    requires Ledger(procs, nextPid, h)
    ensures var procs' := procs[q := procs[q].(state := Runnable)];
            && Links(procs') && Deadlines(procs', ticks) && Waiters(procs') && Pids(procs', nextPid)
            && Ledger(procs', nextPid, h)
  {
    var procs' := procs[q := procs[q].(state := Runnable)];
    SameLedger(procs, procs', nextPid, h);
    StateChangeKeepsWaiters(procs, procs', q);
  }

  lemma {:induction false} StateChangeKeepsWaiters(procs: seq<Proc>, procs': seq<Proc>, q: nat)
    requires q < |procs| == |procs'| && Waiters(procs) && procs' == procs[q := procs'[q]]
    requires procs'[q].state != Unused && procs[q].state != Unused && procs'[q].parent == procs[q].parent
    requires !BlockedInWait(procs'[q]) || WaiterOk(procs', q)
    requires || procs'[q].state != Zombie
             || (&& procs[q].parent.Some? && procs[q].parent.value < |procs| && procs[q].parent.value != q
                 && !BlockedInWait(procs[procs[q].parent.value]))
    ensures Waiters(procs')
  {
    forall p | 0 <= p < |procs'| && BlockedInWait(procs'[p]) ensures WaiterOk(procs', p) {
      if p != q {
        var c :| 0 <= c < |procs| && ChildOf(procs[c], p) && procs[c].state != Zombie;
        assert ChildOf(procs'[c], p) && procs'[c].state != Zombie;
      }
    }
  }

  lemma {:induction false} ExitHandsOff(procs: seq<Proc>, p: nat, me: Proc, q: nat, ticks: nat, nextPid: nat,
                                        h: History)
    requires p < |procs| && q < |procs| && q != p && BlockedInWait(procs[q])
    requires procs[p].state == Running && me == procs[p].(exitStatus := me.exitStatus) && me.parent == Some(q)
    requires Links(procs) && Deadlines(procs, ticks) && Waiters(procs) && Pids(procs, nextPid)
    requires Ledger(procs, nextPid, h)
    ensures var procs' := procs[q := procs[q].(state := Runnable)][p := Freed(me)];
            var h' := h.(delivered := h.delivered + [Delivery(me.pid, q)]);
            && Links(procs') && Deadlines(procs', ticks) && Waiters(procs') && Pids(procs', nextPid)
            && Ledger(procs', nextPid, h')
  {
    hide Waiters, Ledger, Pids;
    WakeWaiter(procs, q, ticks, nextPid, h);
    var procs1 := procs[q := procs[q].(state := Runnable)];
    FreeKeepsWaiters(procs1, p, Freed(me));
    FreeKeepsPids(procs1, p, Freed(me), nextPid);
    FreeDeliveredLedger(procs1, p, Freed(me), nextPid, h);
  }

  lemma {:induction false} ExitFrees(procs: seq<Proc>, p: nat, me: Proc, ticks: nat, nextPid: nat, h: History)
    requires p < |procs| && procs[p].state == Running && me == procs[p].(exitStatus := me.exitStatus)
    requires me.parent == None
    requires Links(procs) && Deadlines(procs, ticks) && Waiters(procs) && Pids(procs, nextPid)
    requires Ledger(procs, nextPid, h)
    ensures var procs' := procs[p := Freed(me)];
            && Links(procs') && Deadlines(procs', ticks) && Waiters(procs') && Pids(procs', nextPid)
            && Ledger(procs', nextPid, h)
  {
    hide Waiters, Ledger, Pids;
    FreeKeepsWaiters(procs, p, Freed(me));
    FreeKeepsPids(procs, p, Freed(me), nextPid);
    FreeOrphanLedger(procs, p, Freed(me), nextPid, h);
  }

  lemma {:induction false} ExitZombie(procs: seq<Proc>, p: nat, me: Proc, ticks: nat, nextPid: nat, h: History)
    requires p < |procs| && procs[p].state == Running && me == procs[p].(exitStatus := me.exitStatus)
    requires me.parent.Some? && me.parent.value < |procs| && !BlockedInWait(procs[me.parent.value])
    requires Links(procs) && Deadlines(procs, ticks) && Waiters(procs) && Pids(procs, nextPid)
    requires Ledger(procs, nextPid, h)
    ensures var procs' := procs[p := me.(state := Zombie)];
            && Links(procs') && Deadlines(procs', ticks) && Waiters(procs') && Pids(procs', nextPid)
            && Ledger(procs', nextPid, h)
  {
    var procs' := procs[p := me.(state := Zombie)];
    SameLedger(procs, procs', nextPid, h);
    StateChangeKeepsWaiters(procs, procs', p);
  }

  lemma {:induction false} ExitCore(k: Kernel, p: nat, status: int)
    requires Typed(k) && Core(k) && OnlyRunning(k.procs, p)
    ensures Core(ExitSlot(k, p, status)) && NoneRunning(ExitSlot(k, p, status).procs)
  {
    hide Waiters, Ledger, Pids, Deadlines, ExitSlot;
    ExitShape(k, p, status);
    var me := k.procs[p].(exitStatus := status);
    if me.parent.Some? && BlockedInWait(k.procs[me.parent.value]) {
      ExitHandsOff(k.procs, p, me, me.parent.value, k.ticks, k.nextPid, k.hist);
    } else if me.parent.None? {
      ExitFrees(k.procs, p, me, k.ticks, k.nextPid, k.hist);
    } else {
      ExitZombie(k.procs, p, me, k.ticks, k.nextPid, k.hist);
    }
  }

  // --------------------------------------------------------------------- wait

  lemma {:induction false} ReapKeeps(procs: seq<Proc>, z: nat, ticks: nat, nextPid: nat, h: History)
    requires z < |procs| && procs[z].state == Zombie && procs[z].parent.Some?
    requires Links(procs) && Deadlines(procs, ticks) && Waiters(procs) && Pids(procs, nextPid)
    requires Ledger(procs, nextPid, h)
    ensures var procs' := procs[z := Freed(procs[z])];
            var h' := h.(delivered := h.delivered + [Delivery(procs[z].pid, procs[z].parent.value)]);
            && Links(procs') && Deadlines(procs', ticks) && Waiters(procs') && Pids(procs', nextPid)
            && Ledger(procs', nextPid, h')
  {
    hide Waiters, Ledger, Pids;
    FreeKeepsWaiters(procs, z, Freed(procs[z]));
    FreeKeepsPids(procs, z, Freed(procs[z]), nextPid);
    FreeDeliveredLedger(procs, z, Freed(procs[z]), nextPid, h);
  }

  /** Blocking in wait: the caller has a child and none of its children is a zombie. */
  lemma {:induction false} BlockKeeps(procs: seq<Proc>, p: nat, ticks: nat, nextPid: nat, h: History)
    requires p < |procs| && procs[p].state == Running && HasChild(procs, p) && FirstZombie(procs, p, 0) == |procs|
    requires Links(procs) && Deadlines(procs, ticks) && Waiters(procs) && Pids(procs, nextPid)
    requires Ledger(procs, nextPid, h)
    ensures var procs' := procs[p := procs[p].(state := Sleeping)];
            && Links(procs') && Deadlines(procs', ticks) && Waiters(procs') && Pids(procs', nextPid)
            && Ledger(procs', nextPid, h)
  {
    hide Ledger, Pids, FirstZombie, Waiters, WaiterOk;
    var procs' := procs[p := procs[p].(state := Sleeping)];
    BlockedWaiterOk(procs, p);
    StateChangeKeepsWaiters(procs, procs', p);
    SleepingKeeps(procs, p, nextPid, h);
  }

  lemma {:induction false} SleepingKeeps(procs: seq<Proc>, p: nat, nextPid: nat, h: History)
    requires p < |procs| && procs[p].state != Unused && Pids(procs, nextPid) && Ledger(procs, nextPid, h)
    ensures var procs' := procs[p := procs[p].(state := Sleeping)]; Pids(procs', nextPid) && Ledger(procs', nextPid, h)
  {
    hide Ledger;
    SameLedger(procs, procs[p := procs[p].(state := Sleeping)], nextPid, h);
  }

  lemma {:induction false} BlockedWaiterOk(procs: seq<Proc>, p: nat)
    requires p < |procs| && procs[p].state == Running && HasChild(procs, p) && FirstZombie(procs, p, 0) == |procs|
    requires Links(procs)
    ensures WaiterOk(procs[p := procs[p].(state := Sleeping)], p)
  {
    hide FirstZombie;
    var procs' := procs[p := procs[p].(state := Sleeping)];
    var c :| 0 <= c < |procs| && ChildOf(procs[c], p);
    assert c != p;
    assert ChildOf(procs'[c], p) && procs'[c].state != Zombie;
    forall d | 0 <= d < |procs'| && ChildOf(procs'[d], p) ensures procs'[d].state != Zombie {
      assert ChildOf(procs[d], p);
    }
  }

  lemma {:induction false} WaitCore(k: Kernel, p: nat)
    requires Typed(k) && Core(k) && Settled(k) && k.current == Some(p)
    ensures Core(Wait(k).0) && Settled(Wait(k).0)
  {
    hide Waiters, Ledger, Pids, Deadlines, Links, FirstZombie, HasChild, VmDestroy, Dispatch;
    var z := FirstZombie(k.procs, p, 0);
    if z < NPROC {
      ReapKeeps(k.procs, z, k.ticks, k.nextPid, k.hist);
      assert Wait(k).0.procs == k.procs[z := Freed(k.procs[z])];
    } else if HasChild(k.procs, p) {
      BlockKeeps(k.procs, p, k.ticks, k.nextPid, k.hist);
      DispatchCore(SetProc(k, p, k.procs[p].(state := Sleeping)));
    }
  }

  // -------------------------------------------------------------------- sleep

  lemma {:induction false} SleepKeeps(procs: seq<Proc>, p: nat, n: nat, ticks: nat, nextPid: nat, h: History)
    requires p < |procs| && procs[p].state == Running && 0 < n <= MAX_SLEEP
    requires Links(procs) && Deadlines(procs, ticks) && Waiters(procs) && Pids(procs, nextPid)
    requires Ledger(procs, nextPid, h)
    ensures var procs' := procs[p := procs[p].(wakeTick := ticks + n, state := Sleeping)];
            && Links(procs') && Deadlines(procs', ticks) && Waiters(procs') && Pids(procs', nextPid)
            && Ledger(procs', nextPid, h)
  {
    var procs' := procs[p := procs[p].(wakeTick := ticks + n, state := Sleeping)];
    SameLedger(procs, procs', nextPid, h);
    StateChangeKeepsWaiters(procs, procs', p);
  }

  lemma {:induction false} SleepCore(k: Kernel, p: nat, n: nat)
    requires Typed(k) && Core(k) && Settled(k) && k.current == Some(p)
    ensures Core(SysSleep(k, n)) && Settled(SysSleep(k, n))
  {
    hide Waiters, Ledger, Pids, Deadlines, Links, Dispatch;
    var m := if n > MAX_SLEEP then MAX_SLEEP else n;
    if m != 0 {
      SleepKeeps(k.procs, p, m, k.ticks, k.nextPid, k.hist);
      DispatchCore(SetProc(k, p, k.procs[p].(wakeTick := k.ticks + m, state := Sleeping)));
    }
  }

  // --------------------------------------------------------------------- tick

  lemma {:induction false} WakeKeeps(procs: seq<Proc>, ticks: nat, nextPid: nat, h: History)
    requires Links(procs) && Deadlines(procs, ticks) && Waiters(procs) && Pids(procs, nextPid)
    requires Ledger(procs, nextPid, h)
    ensures var procs' := WakeAll(procs, ticks + 1);
            && Links(procs') && Deadlines(procs', ticks + 1) && Waiters(procs') && Pids(procs', nextPid)
            && Ledger(procs', nextPid, h)
  {
    hide Ledger;
    var procs' := WakeAll(procs, ticks + 1);
    SameLedger(procs, procs', nextPid, h);
    forall p | 0 <= p < |procs'| && BlockedInWait(procs'[p]) ensures WaiterOk(procs', p) {
      assert BlockedInWait(procs[p]);
      var c :| 0 <= c < |procs| && ChildOf(procs[c], p) && procs[c].state != Zombie;
      assert ChildOf(procs'[c], p) && procs'[c].state != Zombie;
    }
  }

  lemma {:induction false} TickCore(k: Kernel)
    requires Typed(k) && Core(k)
    ensures Core(Tick(k))
    ensures k.current.Some? && Settled(k) ==> Settled(Tick(k))
    ensures NoneRunning(k.procs) ==> NoneRunning(Tick(k).procs)
  {
    hide Waiters, Ledger, Pids, Deadlines, Links, WakeAll;
    WakeKeeps(k.procs, k.ticks, k.nextPid, k.hist);
  }

  // --------------------------------------------------------------------- fork

  lemma {:induction false} ForkKeeps(procs: seq<Proc>, i: nat, child: Proc, p: nat, ticks: nat, pid: nat, h: History)
    requires i < |procs| && p < |procs| && procs[i].state == Unused && procs[p].state == Running && pid >= 1
    requires child.pid == pid && child.state == Runnable && child.parent == Some(p) && child.wakeTick == 0
    requires child.tf == i
    requires Links(procs) && Deadlines(procs, ticks) && Waiters(procs) && Pids(procs, pid) && Ledger(procs, pid, h)
    ensures var procs' := procs[i := child];
            var h' := h.(forked := h.forked[pid := p]);
            && Links(procs') && Deadlines(procs', ticks) && Waiters(procs') && Pids(procs', pid + 1)
            && Ledger(procs', pid + 1, h')
  {
    hide Ledger;
    var procs' := procs[i := child];
    forall q | 0 <= q < |procs'| && BlockedInWait(procs'[q]) ensures WaiterOk(procs', q) {
      var c :| 0 <= c < |procs| && ChildOf(procs[c], q) && procs[c].state != Zombie;
      assert ChildOf(procs'[c], q) && procs'[c].state != Zombie;
    }
    ForkLedger(procs, i, child, p, pid, h);
  }

  lemma {:induction false} ForkLedger(procs: seq<Proc>, i: nat, child: Proc, p: nat, pid: nat, h: History)
    requires i < |procs| && procs[i].state == Unused && child.pid == pid && child.state == Runnable
    requires child.parent == Some(p)
    requires Pids(procs, pid) && Ledger(procs, pid, h)
    ensures Ledger(procs[i := child], pid + 1, h.(forked := h.forked[pid := p]))
  {
    hide IsLive, WasDelivered;
    var procs', h' := procs[i := child], h.(forked := h.forked[pid := p]);
    assert pid !in h.forked;
    forall x | x in h'.forked ensures IsLive(procs', x) <==> !WasDelivered(h', x) {
      ForkLiveness(procs, i, child, x);
      SameDelivered(h, h', x);
      if x == pid { FreshPid(procs, pid, h); }
    }
  }

  lemma {:induction false} SameDelivered(h: History, h': History, x: nat)
    requires h.delivered == h'.delivered
    ensures WasDelivered(h, x) <==> WasDelivered(h', x)
  {
  }

  lemma {:induction false} FreshPid(procs: seq<Proc>, pid: nat, h: History)
    requires Pids(procs, pid) && Ledger(procs, pid, h)
    ensures !WasDelivered(h, pid) && !IsLive(procs, pid)
  {
  }

  lemma {:induction false} ForkLiveness(procs: seq<Proc>, i: nat, child: Proc, x: nat)
    requires i < |procs| && procs[i].state == Unused && child.state != Unused
    ensures IsLive(procs[i := child], x) <==> IsLive(procs, x) || x == child.pid
  {
    var procs' := procs[i := child];
    if IsLive(procs, x) {
      var j :| 0 <= j < |procs| && procs[j].state != Unused && procs[j].pid == x;
      assert procs'[j].state != Unused && procs'[j].pid == x;
    }
    if x == child.pid { assert procs'[i].state != Unused && procs'[i].pid == x; }
    if IsLive(procs', x) && x != child.pid {
      var j :| 0 <= j < |procs'| && procs'[j].state != Unused && procs'[j].pid == x;
      assert procs[j].state != Unused && procs[j].pid == x;
    }
  }

  /** A failed fork spends a pid and leaves an unused slot unused. */
  lemma {:induction false} FailedForkKeeps(procs: seq<Proc>, i: nat, dead: Proc, ticks: nat, pid: nat, h: History)
    requires i < |procs| && procs[i].state == Unused && dead.state == Unused && dead.wakeTick == 0 && dead.tf == i
    requires Links(procs) && Deadlines(procs, ticks) && Waiters(procs) && Pids(procs, pid) && Ledger(procs, pid, h)
    ensures var procs' := procs[i := dead];
            && Links(procs') && Deadlines(procs', ticks) && Waiters(procs') && Pids(procs', pid + 1)
            && Ledger(procs', pid + 1, h)
  {
    hide Ledger;
    var procs' := procs[i := dead];
    forall q | 0 <= q < |procs'| && BlockedInWait(procs'[q]) ensures WaiterOk(procs', q) {
      var c :| 0 <= c < |procs| && ChildOf(procs[c], q) && procs[c].state != Zombie;
      assert ChildOf(procs'[c], q) && procs'[c].state != Zombie;
    }
    FailedForkLedger(procs, i, dead, pid, h);
  }

  lemma {:induction false} FailedForkLedger(procs: seq<Proc>, i: nat, dead: Proc, pid: nat, h: History)
    requires i < |procs| && procs[i].state == Unused && dead.state == Unused && Ledger(procs, pid, h)
    ensures Ledger(procs[i := dead], pid + 1, h)
  {
    var procs' := procs[i := dead];
    forall x | x in h.forked ensures IsLive(procs', x) <==> IsLive(procs, x) {
      if IsLive(procs, x) {
        var j :| 0 <= j < |procs| && procs[j].state != Unused && procs[j].pid == x;
        assert procs'[j].state != Unused && procs'[j].pid == x;
      }
      if IsLive(procs', x) {
        var j :| 0 <= j < |procs'| && procs'[j].state != Unused && procs'[j].pid == x;
        assert procs[j].state != Unused && procs[j].pid == x;
      }
    }
  }

  lemma {:induction false} ForkCore(k: Kernel, tf: nat, p: nat)
    requires Typed(k) && Core(k) && Settled(k) && k.current == Some(p) && tf < NPROC
    ensures Core(Fork(k, tf).0) && Settled(Fork(k, tf).0)
  {
    hide Waiters, Ledger, Pids, Deadlines, FirstUnused, CloneUser;
    var i := FirstUnused(k.procs, 0);
    if i < NPROC {
      var (vm, root) := CloneUser(k.vm, i, p);
      var child := k.procs[i].(pid := k.nextPid, state := Runnable, parent := Some(p), exitStatus := 0, wakeTick := 0,
                               pagetable := root);
      if root.None? { FailedForkKeeps(k.procs, i, child.(state := Unused), k.ticks, k.nextPid, k.hist); }
      else { ForkKeeps(k.procs, i, child.(tf := i), p, k.ticks, k.nextPid, k.hist); }
    }
  }
}
