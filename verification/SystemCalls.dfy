/** Every system call, and the fault trap, as the process that makes it sees them. */
module SystemCalls {
  import opened Wrappers
  import opened Sv39
  import PageTable
  import opened AddressSpace
  import opened UserCopy
  import opened UserMemory
  import opened Process
  import opened ProcessInvariants
  import opened KernelTables
  import opened Machine
  import opened KernelInvariant
  import opened Bystander
  import opened Runs
  import opened RunTheorems

  /** r is the machine that goes on from kernel k, all but for satp. */
  ghost predicate GoesOn(k: Kernel, r: Machine)
    requires Typed(k)
  {
    && r.k == k.(satp := r.k.satp)
    && (k.current.Some? ==>
          var f := k.tfs[k.current.value];
          r.regs == f.regs[0 := 0] && r.pc == f.sepc && r.sstatus == f.sstatus)
  }

  /** The call by number, from the caller's frame with the pc moved on, then a0, then whoever is current. */
  lemma {:induction false} CallStep(m: Machine, env: Env, r: Machine, p: nat, loc: PageTable.Locations)
    returns (k: Kernel)
    requires WellFormed(m) && m.k.current == Some(p) && p < NPROC && m.k.satp < PageTable.POOL_PAGES
    requires r == Step(m, Trap(8, env)) && WellFormed(r)
    requires Inv(m, loc)
    ensures Typed(k) && KernelOk(k, loc) && k == m.k.(tfs := k.tfs) && k.procs[p].pagetable == Some(m.k.satp)
    ensures k.tfs[p].regs == m.regs && k.tfs[p].sepc == m.pc + 4 && k.tfs[p].sstatus == m.sstatus && m.regs[0] == 0
    ensures forall q :: 0 <= q < NPROC && q != p ==> k.tfs[q] == m.k.tfs[q]
    ensures var (k1, ret) := Call(k, p, p, m.k.satp, env); GoesOn(SetReg(k1, p, A0, ret % TWO64), r)
  {
    hide Core, TablesOk, Handle, Layout, Finish, Save, Call;
    k := EcallEntry(m, loc, env, p);
    SaveOk(m, loc, ECALL_U);
    SaveShape(m, ECALL_U);
    var loc' := HandleOk(Save(m, ECALL_U), loc, p, ECALL_U, env);
    var k4 := Handle(Save(m, ECALL_U), p, ECALL_U, env);
    FinishAlike(m, k4, loc', p);
    if r.k.current.Some? { StepResumes(m, loc, Trap(ECALL_U, env)); }
  }

  // ------------------------------------------------------------------ exit

  /** Process p is gone, with this status: freed if it has no parent or its parent was blocked in wait, which then has
   *  p's pid, and a zombie otherwise. */
  ghost predicate Exited(m: Machine, r: Machine, p: nat, status: int)
    requires WellFormed(m) && WellFormed(r) && p < NPROC
  {
    var me := m.k.procs[p];
    && r.k.current != Some(p) && r.k.ticks == m.k.ticks && r.k.vm.frames == m.k.vm.frames
    && match me.parent
       case None => r.k.procs[p].state == Unused && r.k.hist == m.k.hist
       case Some(q) =>
         if m.k.procs[q].state == Sleeping && m.k.procs[q].wakeTick == 0
         then r.k.procs[p].state == Unused && HandedOff(m.k, r.k, q)
         else r.k.procs[p] == me.(state := Zombie, exitStatus := status) && r.k.hist == m.k.hist
  }

  lemma {:induction false} ExitDetails(k: Kernel, loc: PageTable.Locations, p: nat, status: int)
    requires KernelOk(k, loc) && k.current == Some(p)
    ensures var e, r := ExitSlot(k, p, status), Exit(k, status);
            && p < NPROC && r.procs[p] == e.procs[p] && r.current != Some(p) && r.hist == e.hist && r.tfs == e.tfs
            && r.ticks == k.ticks && r.vm.frames == k.vm.frames && e.procs[p].state != Runnable
            && (forall q :: 0 <= q < NPROC ==>
                  r.procs[q] == if r.current == Some(q) then e.procs[q].(state := Running) else e.procs[q])
            && (forall q :: 0 <= q < NPROC && r.current == Some(q) ==> e.procs[q].state == Runnable)
  {
    hide TablesOk, Layout, Waiters, Ledger, Pids, Dispatch, ExitSlot;
    ExitShape(k, p, status);
    ExitCore(k, p, status);
    ExitBytes(k, loc, p, status);
    DispatchShape(ExitSlot(k, p, status));
  }

  lemma {:induction false} ExitResult(k: Kernel, loc: PageTable.Locations, p: nat, status: int, m: Machine, r: Machine)
    requires WellFormed(m) && WellFormed(r)
    requires k == m.k.(tfs := k.tfs) && p < NPROC && m.k.current == Some(p) && Typed(k)
    requires forall q :: 0 <= q < NPROC && q != p ==> k.tfs[q] == m.k.tfs[q]
    requires KernelOk(k, loc)
    requires r.k.procs == Exit(k, status).procs && r.k.current == Exit(k, status).current
    requires r.k.hist == Exit(k, status).hist && r.k.ticks == Exit(k, status).ticks
    requires r.k.vm.frames == Exit(k, status).vm.frames
    requires forall q :: 0 <= q < NPROC && q != p ==> r.k.tfs[q] == Exit(k, status).tfs[q]
    ensures Exited(m, r, p, status)
  {
    hide TablesOk, Layout, Waiters, Ledger, Pids, Dispatch, ExitSlot, Exit;
    ExitDetails(k, loc, p, status);
    ExitShape(k, p, status);
  }

  lemma {:induction false} Signed(w: nat)
    ensures var v := ToInt32(w); -0x8000_0000 <= v < 0x8000_0000 && (w - v) % 0x1_0000_0000 == 0
  {
  }

  /** exit, from the call on: the caller is gone, and its status is a0 as a signed 32-bit number. */
  lemma {:induction false} ExitCall(m: Machine, env: Env, r: Machine, p: nat, loc: PageTable.Locations)
    returns (status: int)
    requires WellFormed(m) && m.k.current == Some(p) && p < NPROC && m.regs[17] == 3
    requires r == Step(m, Trap(8, env)) && WellFormed(r)
    requires Inv(m, loc)
    ensures -0x8000_0000 <= status < 0x8000_0000 && (m.regs[10] - status) % 0x1_0000_0000 == 0
    ensures Exited(m, r, p, status)
  {
    hide KernelOk, Seated, Call, Exit, Exited, Layout, ToInt32;
    status := ToInt32(m.regs[10]);
    Signed(m.regs[10]);
    var k := CallStep(m, env, r, p, loc);
    CallIsExit(k, p, m.k.satp, env);
    ExitResult(k, loc, p, status, m, r);
  }

  /** Any trap but a system call and the timer ends the process with status -1. */
  lemma {:induction false} FaultKills(m: Machine, scause: nat, env: Env, r: Machine, p: nat, loc: PageTable.Locations)
    requires WellFormed(m) && m.k.current == Some(p) && p < NPROC
    requires scause != 8 && scause != 0x8000_0000_0000_0005
    requires r == Step(m, Trap(scause, env)) && WellFormed(r)
    requires Inv(m, loc)
    ensures Exited(m, r, p, -1)
  {
    hide Core, TablesOk, Handle, Layout, Finish, Save, Exit, Exited;
    SaveOk(m, loc, scause);
    SaveShape(m, scause);
    var k := Save(m, scause);
    CoreLinks(k);
    HandleIs(k, p, scause, env);
    var loc' := HandleOk(k, loc, p, scause, env);
    FinishAlike(m, Handle(k, p, scause, env), loc', p);
    ExitResult(k, loc, p, -1, m, r);
  }

  lemma {:induction false} CallIsExit(k: Kernel, p: nat, root: nat, env: Env)
    requires Typed(k) && p < NPROC && root < PageTable.POOL_PAGES && k.tfs[p].regs[A7] == 3
    ensures Call(k, p, p, root, env) == (Exit(k, ToInt32(k.tfs[p].regs[A0])), 0)
  {
    hide Wait, Fork, Exit, SysRead, SysSleep, Layout;
  }

  // ------------------------------------------------------------------ calls that return at once

  /** The caller goes on behind the call with ret in a0 and all else as it was; the process table, the clock, the page
   *  tables and the frames of the others are untouched. */
  ghost predicate Returned(m: Machine, r: Machine, p: nat, ret: int)
    requires WellFormed(m) && WellFormed(r) && p < NPROC
  {
    && r.k.current == Some(p) && r.regs == m.regs[10 := ret % TWO64] && r.pc == m.pc + 4 && r.sstatus == m.sstatus
    && r.k.procs == m.k.procs && r.k.ticks == m.k.ticks && r.k.nextPid == m.k.nextPid && r.k.hist == m.k.hist
    && r.k.vm == m.k.vm.(frames := r.k.vm.frames) && r.k.lastSlot == m.k.lastSlot
    && (forall q :: 0 <= q < NPROC && q != p ==> r.k.tfs[q] == m.k.tfs[q])
  }

  lemma {:induction false} Returning(m: Machine, env: Env, r: Machine, p: nat, k: Kernel, vm: Vm, ret: int)
    requires WellFormed(m) && WellFormed(r) && m.k.current == Some(p) && p < NPROC && m.k.satp < PageTable.POOL_PAGES
    requires Typed(k) && k == m.k.(tfs := k.tfs) && k.tfs[p].regs == m.regs && k.tfs[p].sepc == m.pc + 4
    requires k.tfs[p].sstatus == m.sstatus && forall q :: 0 <= q < NPROC && q != p ==> k.tfs[q] == m.k.tfs[q]
    requires Call(k, p, p, m.k.satp, env) == (k.(vm := vm), ret) && vm == k.vm.(frames := vm.frames)
    requires var (k1, n) := Call(k, p, p, m.k.satp, env); GoesOn(SetReg(k1, p, A0, n % TWO64), r)
    ensures Returned(m, r, p, ret) && r.k.vm == vm
  {
    hide Call, Layout;
    var given: seq<nat> := m.regs[10 := ret % TWO64];
    assert given[0 := 0] == given;
  }

  lemma {:induction false} CallIs(k: Kernel, p: nat, root: nat, env: Env)
    requires Typed(k) && p < NPROC && root < PageTable.POOL_PAGES
    ensures var n := k.tfs[p].regs[17];
            var c := Call(k, p, p, root, env);
            && (n == 0 ==> c == SysRead(k, root, k.tfs[p].regs[10], k.tfs[p].regs[11], env))
            && (n == 1 ==> c == (k, SysWrite(k, root, k.tfs[p].regs[10], k.tfs[p].regs[11])))
            && (n == 4 ==> c == Wait(k))
            && (n == 5 ==> c == (k, k.procs[p].pid as int))
            && (n == 6 ==> c == (SysSleep(k, k.tfs[p].regs[10]), 0))
            && (n == 7 || n == 8 ==> c == (k, 0))
            && (n == 9 ==> c == (k, SysCat(k, root, k.tfs[p].regs[10], env)))
            && (n > 9 ==> c == (k, -1))
  {
    hide Wait, Fork, Exit, SysRead, SysSleep, SysWrite, SysCat, Layout;
  }

  /** getpid, ps, ls, a number that is no call, and sleep(0). */
  lemma {:induction false} SimpleCalls(m: Machine, env: Env, r: Machine, p: nat, loc: PageTable.Locations)
    requires WellFormed(m) && m.k.current == Some(p) && p < NPROC
    requires r == Step(m, Trap(8, env)) && WellFormed(r)
    requires Inv(m, loc)
    ensures m.regs[17] == 5 ==> Returned(m, r, p, m.k.procs[p].pid) && r.k.vm == m.k.vm
    ensures m.regs[17] == 7 || m.regs[17] == 8 ==> Returned(m, r, p, 0) && r.k.vm == m.k.vm
    ensures m.regs[17] == 6 && m.regs[10] == 0 ==> Returned(m, r, p, 0) && r.k.vm == m.k.vm
    ensures m.regs[17] > 9 ==> Returned(m, r, p, -1) && r.k.vm == m.k.vm
  {
    hide KernelOk, Seated, Call, Returned, Layout;
    var k := CallStep(m, env, r, p, loc);
    CallIs(k, p, m.k.satp, env);
    SleepNothing(k);
    var n := m.regs[17];
    if n == 5 || n == 7 || n == 8 || n > 9 || (n == 6 && m.regs[10] == 0) {
      var ret := if n == 5 then k.procs[p].pid else if n > 9 then -1 else 0;
      assert k == k.(vm := k.vm);
      Returning(m, env, r, p, k, k.vm, ret);
    }
  }

  lemma {:induction false} SleepNothing(k: Kernel)
    requires Typed(k)
    ensures SysSleep(k, 0) == k
  {
  }

  /** wait without children: -1, nothing else. */
  lemma {:induction false} WaitRefused(m: Machine, env: Env, r: Machine, p: nat, loc: PageTable.Locations)
    requires WellFormed(m) && m.k.current == Some(p) && p < NPROC && m.regs[17] == 4
    requires forall c :: 0 <= c < NPROC && m.k.procs[c].state != Unused ==> m.k.procs[c].parent != Some(p)
    requires r == Step(m, Trap(8, env)) && WellFormed(r)
    requires Inv(m, loc)
    ensures Returned(m, r, p, -1) && r.k.vm == m.k.vm
  {
    hide KernelOk, Seated, Call, Returned, Layout;
    var k := CallStep(m, env, r, p, loc);
    CallIs(k, p, m.k.satp, env);
    WaitAlone(k, p);
    assert k == k.(vm := k.vm);
    Returning(m, env, r, p, k, k.vm, -1);
  }

  lemma {:induction false} WaitAlone(k: Kernel, p: nat)
    requires Typed(k) && k.current == Some(p)
    requires forall c :: 0 <= c < NPROC && k.procs[c].state != Unused ==> k.procs[c].parent != Some(p)
    ensures Wait(k) == (k, -1)
  {
    hide Layout;
    var z := FirstZombie(k.procs, p, 0);
    FirstZombieIs(k.procs, p, 0);
  }

  lemma {:induction false} FirstZombieIs(procs: seq<Proc>, p: nat, i: nat)
    requires i <= |procs|
    ensures FirstZombie(procs, p, i) < |procs| ==> ChildOf(procs[FirstZombie(procs, p, i)], p)
  {
  }

  // ------------------------------------------------------------------ write, read and cat

  /** The process's own table, as every system call uses it. */
  lemma {:induction false} OwnTable(k: Kernel, loc: PageTable.Locations, p: nat, root: nat)
    requires KernelOk(k, loc) && k.current == Some(p) && k.procs[p].pagetable == Some(root)
    ensures p < NPROC && Space(k.vm, loc, p, root)
  {
    hide Layout, Space, Core, TablesOk;
    ActiveRoot(k, loc, p);
  }

  /** write: -1 exactly when one of the first 1024 bytes asked for is not mapped, and their number otherwise. */
  lemma {:induction false} WriteCall(m: Machine, env: Env, r: Machine, p: nat, loc: PageTable.Locations)
    requires WellFormed(m) && m.k.current == Some(p) && p < NPROC && m.regs[17] == 1
    requires r == Step(m, Trap(8, env)) && WellFormed(r)
    requires Inv(m, loc)
    ensures var n := if m.regs[11] > 1024 then 1024 else m.regs[11];
            && r.k.vm == m.k.vm
            && (if forall x :: m.regs[10] <= x < m.regs[10] + n ==> UserAddress(x) then Returned(m, r, p, n)
                else Returned(m, r, p, -1))
  {
    hide KernelOk, Seated, Call, Returned, Layout, Space, SysWrite, WriteSends, UserAddress, UserByte;
    var k := CallStep(m, env, r, p, loc);
    CallIs(k, p, m.k.satp, env);
    OwnTable(k, loc, p, m.k.satp);
    WriteMeaning(k, loc, p, m.k.satp, m.regs[10], m.regs[11]);
    forall va: nat ensures UserByte(k.vm, p, va).Some? <==> UserAddress(va) { UserAddresses(k.vm, p, va); }
    assert k == k.(vm := k.vm);
    Returning(m, env, r, p, k, k.vm, SysWrite(k, m.k.satp, m.regs[10], m.regs[11]));
  }

  /** n characters are read when len are asked for: up to and with the first newline typed, or all of them. */
  predicate IsLine(env: Env, len: nat, n: nat) {
    && 0 < n <= len && (forall i :: 0 <= i < n - 1 ==> Typing(env, i) != 10)
    && (n == len || Typing(env, n - 1) == 10)
  }

  /** The characters typed from i to n. */
  function TypedFrom(env: Env, i: nat, n: nat): (s: seq<Byte>)
    requires i <= n
    ensures |s| == n - i
  {
    seq(n - i, j requires 0 <= j < n - i => Typing(env, i + j))
  }

  /** From the i-th character on: those that fit before the first unmapped byte are stored in order, nothing else
   *  changes, and ret says whether all were. */
  ghost predicate Stores(vm: Vm, vm': Vm, ret: int, slot: nat, uva: nat, env: Env, i: nat, n: nat)
    requires Layout(vm) && Layout(vm') && i <= n
  {
    var stored := Reach(uva + i, n - i);
    ret == (if stored == n - i then n else -1) && Overwrites(vm, vm', slot, uva + i, TypedFrom(env, i, n), stored)
  }

  lemma {:induction false} ReadLoopMeaning(vm: Vm, loc: PageTable.Locations, slot: nat, root: nat, uva: nat, len: nat,
                                           env: Env, i: nat, n: nat)
    requires Space(vm, loc, slot, root) && IsLine(env, len, n) && i < n
    ensures var r := ReadLoop(vm, root, uva, len, env, i); Stores(vm, r.0, r.1, slot, uva, env, i, n)
    decreases n - i
  {
    hide PageTable.Tree, HasSpace, UserByte, CopyOut, StoreBytes, Overwrites, TypedFrom, Reach, Layout, FramesOk,
         Typing, ReadLoop, UserPage;
    ReadLoopStep(vm, root, uva, len, env, i);
    var c := Typing(env, i);
    CopyOutRefines(vm, loc, slot, root, uva + i, [c]);
    StoreBytesMeaning(vm, loc, slot, root, uva + i, [c]);
    OneReach(uva + i);
    var (vm1, ok) := CopyOut(vm, root, uva + i, [c]);
    if !ok {
      NoReach(uva + i, n - i);
      NothingWritten(vm, vm1, slot, uva + i, [c], TypedFrom(env, i, n));
    } else {
      TypedStep(env, i, n);
      if i + 1 == n {
        ReadLoopEnd(vm1, root, uva, len, env, n);
      } else {
        LayoutFacts(vm1);
        SpaceKept(vm, loc, slot, root, vm1.frames);
        ReadLoopMeaning(vm1, loc, slot, root, uva, len, env, i + 1, n);
        MoreReach(uva + i, n - i);
        var k1 := Reach(uva + i + 1, n - i - 1);
        ReachBound(uva + i + 1, n - i - 1);
        OverwriteOnce(vm, vm1, ReadLoop(vm1, root, uva, len, env, i + 1).0, slot, uva + i, c,
                      TypedFrom(env, i + 1, n), k1);
      }
    }
  }

  lemma {:induction false} ReadLoopStep(vm: Vm, root: nat, uva: nat, len: nat, env: Env, i: nat)
    requires Layout(vm) && root < PageTable.POOL_PAGES && i < len
    ensures var (vm1, ok) := CopyOut(vm, root, uva + i, [Typing(env, i)]);
            ReadLoop(vm, root, uva, len, env, i) ==
              if !ok then (vm1, -1)
              else if Typing(env, i) == 10 then (vm1, i + 1)
              else ReadLoop(vm1, root, uva, len, env, i + 1)
  {
    hide CopyOut, Layout, Typing;
  }

  lemma {:induction false} ReachBound(va: nat, len: nat)
    ensures Reach(va, len) <= len
  {
  }

  lemma {:induction false} TypedStep(env: Env, i: nat, n: nat)
    requires i < n
    ensures TypedFrom(env, i, n) == [Typing(env, i)] + TypedFrom(env, i + 1, n)
    ensures i + 1 == n ==> TypedFrom(env, i, n) == [Typing(env, i)]
  {
    hide Typing;
  }

  lemma {:induction false} ReadLoopEnd(vm: Vm, root: nat, uva: nat, len: nat, env: Env, n: nat)
    requires Layout(vm) && root < PageTable.POOL_PAGES && n <= len
    ensures n == len ==> ReadLoop(vm, root, uva, len, env, n) == (vm, len)
  {
  }

  lemma {:induction false} OneReach(va: nat)
    ensures Reach(va, 1) == if UserPage(va / PGSIZE).Some? then 1 else 0
  {
    assert Reach(va + 1, 0) == 0;
  }

  lemma {:induction false} NoReach(va: nat, len: nat)
    requires len > 0 && UserPage(va / PGSIZE).None?
    ensures Reach(va, len) == 0
  {
  }

  lemma {:induction false} MoreReach(va: nat, len: nat)
    requires len > 0 && UserPage(va / PGSIZE).Some?
    ensures Reach(va, len) == 1 + Reach(va + 1, len - 1)
  {
  }

  lemma {:induction false} NothingWritten(vm: Vm, vm': Vm, slot: nat, va: nat, a: seq<Byte>, b: seq<Byte>)
    requires Layout(vm) && Layout(vm') && Overwrites(vm, vm', slot, va, a, 0)
    ensures Overwrites(vm, vm', slot, va, b, 0)
  {
    hide UserByte, Layout;
  }

  lemma {:induction false} OverwriteOnce(vm: Vm, vm1: Vm, vm2: Vm, slot: nat, va: nat, c: Byte, rest: seq<Byte>, k: nat)
    requires Layout(vm) && Layout(vm1) && Layout(vm2) && k <= |rest|
    requires Overwrites(vm, vm1, slot, va, [c], 1) && Overwrites(vm1, vm2, slot, va + 1, rest, k)
    ensures Overwrites(vm, vm2, slot, va, [c] + rest, k + 1)
  {
    hide UserByte, Layout;
    var all := [c] + rest;
    forall s: nat, x: nat | s < NPROC
      ensures UserByte(vm2, s, x)
           == if s == slot && va <= x < va + (k + 1) then Some(all[x - va]) else UserByte(vm, s, x)
    {
    }
  }

  /** read, for a process on its own table. Asked for no characters or more than 256 it refuses. Otherwise n characters
   *  are due, up to and with the first newline: the result is n if all of them can be stored and -1 if not, and the
   *  memory before the first unmapped byte holds them in order; nothing else changes. */
  lemma {:induction false} ReadMeaning(k: Kernel, loc: PageTable.Locations, slot: nat, root: nat, uva: nat, len: nat,
                                       env: Env, n: nat)
    requires Typed(k) && Space(k.vm, loc, slot, root)
    ensures len == 0 || len > 256 ==> SysRead(k, root, uva, len, env) == (k, -1)
    ensures 0 < len <= 256 && IsLine(env, len, n) ==>
              var (k1, ret) := SysRead(k, root, uva, len, env);
              k1 == k.(vm := k.vm.(frames := k1.vm.frames)) && Stores(k.vm, k1.vm, ret, slot, uva, env, 0, n)
  {
    hide PageTable.Tree, HasSpace, ReadLoop, Stores, Typing;
    if 0 < len <= 256 && IsLine(env, len, n) { ReadLoopMeaning(k.vm, loc, slot, root, uva, len, env, 0, n); }
  }

  /** There is always exactly one such n. */
  lemma {:induction false} LineExists(env: Env, len: nat, i: nat) returns (n: nat)
    requires i < len && forall j :: 0 <= j < i ==> Typing(env, j) != 10
    ensures IsLine(env, len, n)
    decreases len - i
  {
    if Typing(env, i) == 10 || i + 1 == len { n := i + 1; } else { n := LineExists(env, len, i + 1); }
  }

  ghost predicate ReadDone(m: Machine, r: Machine, p: nat, env: Env, n: nat)
    requires WellFormed(m) && WellFormed(r) && p < NPROC
  {
    exists ret :: Returned(m, r, p, ret) && Stores(m.k.vm, r.k.vm, ret, p, m.regs[10], env, 0, n)
  }

  /** read as a call. */
  lemma {:induction false} ReadCall(m: Machine, env: Env, r: Machine, p: nat, n: nat, loc: PageTable.Locations)
    requires WellFormed(m) && m.k.current == Some(p) && p < NPROC && m.regs[17] == 0
    requires r == Step(m, Trap(8, env)) && WellFormed(r)
    requires Inv(m, loc)
    ensures m.regs[11] == 0 || m.regs[11] > 256 ==> Returned(m, r, p, -1) && r.k.vm == m.k.vm
    ensures 0 < m.regs[11] <= 256 && IsLine(env, m.regs[11], n) ==> ReadDone(m, r, p, env, n)
  {
    hide KernelOk, Seated, Call, Returned, Layout, Space, SysRead, Stores, IsLine;
    var k := CallStep(m, env, r, p, loc);
    CallIs(k, p, m.k.satp, env);
    OwnTable(k, loc, p, m.k.satp);
    ReadMeaning(k, loc, p, m.k.satp, m.regs[10], m.regs[11], env, n);
    var (k1, ret) := SysRead(k, m.k.satp, m.regs[10], m.regs[11], env);
    assert k1 == k.(vm := k1.vm);
    Returning(m, env, r, p, k, k1.vm, ret);
  }

  /** What cat says of the name at uva, n readable characters before a NUL, a gap or the 32nd: -1 if the gap comes
   *  first, otherwise whether the name, cut at 31 characters, is that of a file. */
  ghost predicate CatAnswer(vm: Vm, slot: nat, uva: nat, env: Env, n: nat, name: seq<Byte>, ret: int)
    requires Layout(vm) && slot < NPROC
  {
    if n < 32 && UserByte(vm, slot, uva + n).None? then ret == -1
    else
      && |name| == (if n < 32 then n else 31)
      && (forall i :: 0 <= i < |name| ==> UserByte(vm, slot, uva + i) == Some(name[i]))
      && ret == if name in env.files then 0 else -1
  }

  ghost predicate CatDone(m: Machine, r: Machine, p: nat, env: Env, n: nat, name: seq<Byte>)
    requires WellFormed(m) && WellFormed(r) && p < NPROC
  {
    exists ret :: Returned(m, r, p, ret) && CatAnswer(m.k.vm, p, m.regs[10], env, n, name, ret)
  }

  lemma {:induction false} CatCall(m: Machine, env: Env, r: Machine, p: nat, n: nat, loc: PageTable.Locations)
    returns (name: seq<Byte>)
    requires WellFormed(m) && m.k.current == Some(p) && p < NPROC && m.regs[17] == 9
    requires r == Step(m, Trap(8, env)) && WellFormed(r)
    requires n == StringReach(m.k.vm, p, m.regs[10], 32)
    requires Inv(m, loc)
    ensures r.k.vm == m.k.vm && CatDone(m, r, p, env, n, name)
  {
    hide KernelOk, Seated, Call, Returned, Layout, Space, StringReach, SysCat, CatAnswer;
    var k := CallStep(m, env, r, p, loc);
    CallIs(k, p, m.k.satp, env);
    OwnTable(k, loc, p, m.k.satp);
    name := CatMeaning(k, loc, p, m.k.satp, m.regs[10], env);
    assert k == k.(vm := k.vm);
    Returning(m, env, r, p, k, k.vm, SysCat(k, m.k.satp, m.regs[10], env));
  }

  lemma {:induction false} CatMeaning(k: Kernel, loc: PageTable.Locations, slot: nat, root: nat, uva: nat, env: Env)
    returns (name: seq<Byte>)
    requires Typed(k) && Space(k.vm, loc, slot, root)
    ensures var n := StringReach(k.vm, slot, uva, 32);
            CatAnswer(k.vm, slot, uva, env, n, name, SysCat(k, root, uva, env))
  {
    hide PageTable.Tree, HasSpace, CopyInStr, UserByte, StringReach, BeforeNul, Layout;
    CopyInStrMeaning(k.vm, loc, slot, root, uva, 32);
    var s := CopyInStr(k.vm, root, uva, 32);
    name := [];
    if s.Some? {
      name := s.value[..|s.value| - 1];
      WholeString(s.value);
    }
  }

  lemma {:induction false} WholeString(s: seq<Byte>)
    requires s != [] && s[|s| - 1] == 0 && forall i :: 0 <= i < |s| - 1 ==> s[i] != 0
    ensures BeforeNul(s) == s[..|s| - 1]
  {
    hide BeforeNul;
    BeforeNulIs(s);
  }

  lemma {:induction false} BeforeNulIs(s: seq<Byte>)
    ensures var r := BeforeNul(s); |r| <= |s| && r == s[..|r|] && 0 !in r && (|r| < |s| ==> s[|r|] == 0)
  {
  }
}
