/** kernel/proc.c, timer.c, syscall.c and trap.c in their own form: one object whose tables are updated in
 *  place.  Every method is proved to leave exactly the state the corresponding function computes. */
module KernelObject {
  import opened Wrappers
  import opened Sv39
  import P = PageTable
  import A = AddressSpace
  import C = UserCopy
  import K = Process
  import I = ProcessInvariants
  import M = Machine
  import KT = KernelTables
  import KI = KernelInvariant
  import B = Bystander
  import R = Runs
  import T = RunTheorems
  import V = VmObject

  class NanoKernel {
    const vm: V.VirtualMemory
    const procs: array<K.Proc>
    const tfs: array<K.TrapFrame>
    var current: Option<nat>
    var lastSlot: int
    var nextPid: nat
    var ticks: nat
    var satp: nat
    ghost var hist: K.History

    ghost function Model(): K.Kernel
      reads this, procs, tfs, vm, vm.used, vm.pages, vm.frames
    {
      K.Kernel(procs[..], current, lastSlot, nextPid, ticks, tfs[..], satp, vm.Model(), hist)
    }

    ghost predicate Valid()
      reads this, procs, tfs, vm, vm.used, vm.pages, vm.frames
    {
      K.Typed(Model())
    }

    /** proc_init, on a fresh memory */
    constructor (vm: V.VirtualMemory)
      requires vm.Valid()
      ensures Valid() && this.vm == vm && fresh(procs) && fresh(tfs)
      ensures current == None && lastSlot == -1 && nextPid == 1 && ticks == 0
      ensures forall i :: 0 <= i < A.NPROC ==> procs[i] == M.FREE_SLOT.(tf := i) && tfs[i] == M.EmptyFrame(i)
    {
      this.vm := vm;
      procs := new K.Proc[A.NPROC](i => M.FREE_SLOT.(tf := i));
      tfs := new K.TrapFrame[A.NPROC](i => M.EmptyFrame(i));
      current, lastSlot, nextPid, ticks, satp, hist := None, -1, 1, 0, 0, K.History(map[], []);
    }

    // ------------------------------------------------------------ scheduling

    method ProcSchedule() returns (next: Option<nat>)
      requires Valid()
      modifies this`lastSlot, procs
      ensures Valid() && (Model(), next) == K.Schedule(old(Model()))
    {
      hide A.Layout, K.Probe;
      var start := if current.Some? then current.value else lastSlot;
      var n := 1;
      while n <= A.NPROC
        invariant 1 <= n <= A.NPROC + 1 && Model() == old(Model())
        invariant K.Probe(procs[..], start, n) == K.Probe(procs[..], start, 1)
      {
        ProbeStep(procs[..], start, n);
        var i := (start + n) % A.NPROC;
        if procs[i].state == K.Runnable {
          lastSlot := i;
          procs[i] := procs[i].(state := K.Running);
          return Some(i);
        }
        n := n + 1;
      }
      ProbeEnd(procs[..], start);
      return None;
    }

    /** current_proc = proc_schedule() */
    method Dispatch()
      requires Valid()
      modifies this`lastSlot, this`current, procs
      ensures Valid() && Model() == K.Dispatch(old(Model()))
    {
      hide A.Layout, K.Schedule;
      var next := ProcSchedule();
      current := next;
    }

    // --------------------------------------------------------- address spaces

    method SwitchToKernel()
      requires Valid()
      modifies this`satp, vm`kernelPt, vm.used, vm.pages
      ensures Valid() && Model() == K.SwitchToKernel(old(Model()))
    {
      hide A.KernelPagetable, P.Shape;
      var root := vm.KernelPagetable();
      if root.Some? { satp := root.value; }
    }

    method FreeSlot(i: nat)
      requires Valid() && i < A.NPROC
      modifies procs, vm.used
      ensures Valid() && Model() == K.FreeSlot(old(Model()), i)
    {
      hide A.VmDestroy, P.Shape;
      vm.VmDestroy(procs[i].pagetable);
      procs[i] := procs[i].(pagetable := None, state := K.Unused, pid := 0, parent := None);
    }

    // ------------------------------------------------------------------ fork

    method ProcFork(tf: nat) returns (ret: int)
      requires Valid() && tf < A.NPROC
      modifies this`nextPid, this`hist, procs, tfs, vm.used, vm.pages, vm.frames
      ensures Valid() && (Model(), ret) == K.Fork(old(Model()), tf)
    {
      hide A.Layout, K.ForkInto, K.FirstUnused;
      if current.None? { return -1; }
      var i := 0;
      while i < A.NPROC
        invariant 0 <= i <= A.NPROC && Model() == old(Model())
        invariant K.FirstUnused(procs[..], i) == K.FirstUnused(procs[..], 0)
      {
        UnusedStep(procs[..], i);
        if procs[i].state == K.Unused {
          ret := ForkInto(tf, current.value, i);
          return;
        }
        i := i + 1;
      }
      UnusedEnd(procs[..]);
      return -1;
    }

    method ForkInto(tf: nat, parent: nat, i: nat) returns (ret: int)
      requires Valid() && tf < A.NPROC && parent < A.NPROC && i < A.NPROC
      modifies this`nextPid, this`hist, procs, tfs, vm.used, vm.pages, vm.frames
      ensures Valid() && (Model(), ret) == K.ForkInto(old(Model()), tf, parent, i)
    {
      hide A.CloneUser, A.Layout;
      ghost var was := procs[..];
      var pid := nextPid;
      nextPid := nextPid + 1;
      procs[i] := procs[i].(pid := pid, state := K.Runnable, parent := Some(parent), exitStatus := 0, wakeTick := 0);
      var root := vm.VmCloneUser(i, parent);
      procs[i] := procs[i].(pagetable := root);
      if root.None? {
        procs[i] := procs[i].(state := K.Unused);
        assert procs[..] == was[i := procs[i]];
        return -1;
      }
      procs[i] := procs[i].(tf := i);
      assert procs[..] == was[i := procs[i]];
      tfs[i] := tfs[tf].(kernelStack := i, regs := tfs[tf].regs[K.A0 := 0]);
      hist := hist.(forked := hist.forked[pid := parent]);
      return pid;
    }

    // ------------------------------------------------------------------ exit

    method ProcExit(status: int)
      requires Valid()
      modifies this, procs, tfs, vm`kernelPt, vm.used, vm.pages
      ensures Valid() && Model() == K.Exit(old(Model()), status)
    {
      hide A.Layout, K.ExitSlot, K.Dispatch;
      if current.None? { return; }
      ExitSlot(current.value, status);
      Dispatch();
    }

    method ExitSlot(p: nat, status: int)
      requires Valid() && p < A.NPROC
      modifies this`satp, this`hist, procs, tfs, vm`kernelPt, vm.used, vm.pages
      ensures Valid() && Model() == K.ExitSlot(old(Model()), p, status)
      ensures current == old(current)
    {
      hide A.Layout, K.FreeSlot, K.SwitchToKernel;
      procs[p] := procs[p].(exitStatus := status);
      if procs[p].parent.Some? && procs[procs[p].parent.value].state == K.Sleeping
         && procs[procs[p].parent.value].wakeTick == 0
      {
        var q, pid := procs[p].parent.value, procs[p].pid;
        var t := procs[q].tf;
        tfs[t] := tfs[t].(regs := tfs[t].regs[K.A0 := pid]);
        procs[q] := procs[q].(state := K.Runnable);
        hist := hist.(delivered := hist.delivered + [K.Delivery(pid, q)]);
        SwitchToKernel();
        FreeSlot(p);
      } else if procs[p].parent.None? {
        SwitchToKernel();
        FreeSlot(p);
      } else {
        procs[p] := procs[p].(state := K.Zombie);
      }
    }

    // ------------------------------------------------------------------ wait

    method ProcWait() returns (ret: int)
      requires Valid()
      modifies this, procs, vm.used
      ensures Valid() && (Model(), ret) == K.Wait(old(Model()))
    {
      hide A.Layout, K.FreeSlot, K.FirstZombie, K.Dispatch, K.HasChild;
      if current.None? { return -1; }
      var p := current.value;
      var i := 0;
      while i < A.NPROC
        invariant 0 <= i <= A.NPROC && Model() == old(Model())
        invariant K.FirstZombie(procs[..], p, i) == K.FirstZombie(procs[..], p, 0)
      {
        ZombieStep(procs[..], p, i);
        if procs[i].state != K.Unused && procs[i].parent == Some(p) && procs[i].state == K.Zombie {
          var pid := procs[i].pid;
          hist := hist.(delivered := hist.delivered + [K.Delivery(pid, p)]);
          FreeSlot(i);
          return pid;
        }
        i := i + 1;
      }
      ZombieEnd(procs[..], p);
      var haveChild := HaveChild(p);
      if !haveChild { return -1; }
      procs[p] := procs[p].(state := K.Sleeping);
      Dispatch();
      return 0;
    }

    method HaveChild(p: nat) returns (have: bool)
      requires Valid()
      ensures have == K.HasChild(procs[..], p)
    {
      have := false;
      var i := 0;
      while i < A.NPROC
        invariant 0 <= i <= A.NPROC
        invariant have <==> exists j :: 0 <= j < i && K.ChildOf(procs[..][j], p)
      {
        if procs[i].state != K.Unused && procs[i].parent == Some(p) {
          assert K.ChildOf(procs[..][i], p);
          have := true;
        }
        i := i + 1;
      }
    }

    // -------------------------------------------------------- sleep and ticks

    method ProcSleep(n: nat)
      requires Valid()
      modifies this`lastSlot, this`current, procs
      ensures Valid() && Model() == K.Sleep(old(Model()), n)
    {
      hide A.Layout, K.Dispatch;
      if current.None? || n == 0 { return; }
      var p := current.value;
      procs[p] := procs[p].(wakeTick := ticks + n, state := K.Sleeping);
      Dispatch();
    }

    method ProcWakeup(now: nat)
      requires Valid()
      modifies procs
      ensures Valid() && procs[..] == K.WakeAll(old(procs[..]), now)
    {
      hide A.Layout;
      var i := 0;
      while i < A.NPROC
        invariant 0 <= i <= A.NPROC
        invariant forall j :: 0 <= j < A.NPROC ==>
             procs[j] == if j < i then K.WakeOne(old(procs[j]), now) else old(procs[j])
      {
        var p := procs[i];
        if p.state == K.Sleeping && p.wakeTick != 0 && p.wakeTick <= now {
          procs[i] := p.(wakeTick := 0, state := K.Runnable);
        }
        i := i + 1;
      }
    }

    method TimerTick()
      requires Valid()
      modifies this`ticks, procs
      ensures Valid() && Model() == K.Tick(old(Model()))
    {
      hide A.Layout, K.WakeAll;
      ticks := ticks + 1;
      ProcWakeup(ticks);
    }

    // ----------------------------------------------------------- system calls

    method SysRead(root: nat, uva: nat, len: nat, env: K.Env) returns (ret: int)
      requires Valid() && root < P.POOL_PAGES
      modifies vm.frames
      ensures Valid() && (Model(), ret) == K.SysRead(old(Model()), root, uva, len, env)
    {
      hide C.CopyOut, P.Shape;
      if len == 0 || len > 256 { return -1; }
      var i := 0;
      while i < len
        invariant 0 <= i <= len && Valid()
        invariant K.ReadLoop(vm.Model(), root, uva, len, env, i) == K.ReadLoop(old(vm.Model()), root, uva, len, env, 0)
      {
        var c := K.Typing(env, i);
        var ok := vm.CopyOut(root, uva + i, [c]);
        if !ok { return -1; }
        if c == 10 { return i + 1; }
        i := i + 1;
      }
      return len;
    }

    method SysWrite(root: nat, uva: nat, len: nat) returns (ret: int, console: seq<A.Byte>)
      requires Valid() && root < P.POOL_PAGES
      ensures ret == K.SysWrite(Model(), root, uva, len) && console == K.WriteSends(Model(), root, uva, len)
    {
      hide C.CopyIn, P.Shape;
      var n := if len > 1024 then 1024 else len;
      var buf := new A.Byte[1025](_ => 0);
      var ok := vm.CopyIn(buf, 0, root, uva, n);
      if !ok { return -1, []; }
      ghost var bytes := buf[..n];
      ghost var read := C.CopyIn(vm.Model(), root, uva, n);
      assert buf[..] == read.value + buf[n..] && |read.value| == n;
      assert bytes == read.value;
      buf[n] := 0;
      assert buf[..n] == bytes && buf[..n + 1] == bytes + [0];
      console := ReadString(buf, n);
      return n, console;
    }

    /** The loop of uart_puts and of strcmp: the characters of a buffer whose NUL is at n or before */
    method ReadString(buf: array<A.Byte>, ghost n: nat) returns (console: seq<A.Byte>)
      requires n < buf.Length && buf[n] == 0
      ensures console == K.BeforeNul(buf[..n])
    {
      hide K.BeforeNul;
      console := [];
      ghost var text := buf[..n];
      var i := 0;
      assert text[0..] == text;
      while buf[i] != 0
        invariant i <= n && console + K.BeforeNul(text[i..]) == K.BeforeNul(text)
        decreases n - i
      {
        BeforeNulStep(text, i);
        Push(console, buf[i], K.BeforeNul(text[i + 1..]));
        console := console + [buf[i]];
        i := i + 1;
      }
      BeforeNulEnd(text, i);
      assert console + [] == console;
    }

    method SysCat(root: nat, uva: nat, env: K.Env) returns (ret: int)
      requires Valid() && root < P.POOL_PAGES
      ensures ret == K.SysCat(Model(), root, uva, env)
    {
      hide C.CopyInStr, P.Shape, K.BeforeNul, A.Layout, C.CopyInStrFrom;
      var name := new A.Byte[32](_ => 0);
      var ok := vm.CopyInStr(name, root, uva, 32);
      if !ok { return -1; }
      ghost var read := C.CopyInStr(vm.Model(), root, uva, 32).value;
      StringEnds(vm.Model(), root, uva);
      ghost var n := |read| - 1;
      assert name[n] == name[..|read|][n];
      var found := ReadString(name, n);
      BeforeLastNul(read);
      assert name[..n] == name[..|read|][..n];
      return if found in env.files then 0 else -1;
    }

    method Call(tf: nat, p: nat, root: nat, env: K.Env) returns (ret: int)
      requires Valid() && tf < A.NPROC && p < A.NPROC && root < P.POOL_PAGES
      modifies this, procs, tfs, vm`kernelPt, vm.used, vm.pages, vm.frames
      ensures Valid() && (Model(), ret) == K.Call(old(Model()), tf, p, root, env)
    {
      hide A.Layout, K.SysRead, K.SysWrite, K.SysCat, K.Fork, K.Exit, K.Wait, K.Sleep, K.ToInt32;
      var regs := tfs[tf].regs;
      var n := regs[K.A7];
      if n == 0 { ret := SysRead(root, regs[K.A0], regs[K.A1], env); }
      else if n == 1 { var console; ret, console := SysWrite(root, regs[K.A0], regs[K.A1]); }
      else if n == 2 { ret := ProcFork(tf); }
      else if n == 3 { ProcExit(K.ToInt32(regs[K.A0])); ret := 0; }
      else if n == 4 { ret := ProcWait(); }
      else if n == 5 { ret := procs[p].pid; }
      else if n == 6 { ProcSleep(if regs[K.A0] > K.MAX_SLEEP then K.MAX_SLEEP else regs[K.A0]); ret := 0; }
      else if n == 7 || n == 8 { ret := 0; }
      else if n == 9 { ret := SysCat(root, regs[K.A0], env); }
      else { ret := -1; }
    }

    method SyscallDispatch(tf: nat, p: nat, root: nat, env: K.Env)
      requires Valid() && tf < A.NPROC && p < A.NPROC && root < P.POOL_PAGES
      modifies this, procs, tfs, vm`kernelPt, vm.used, vm.pages, vm.frames
      ensures Valid() && Model() == K.Syscall(old(Model()), tf, p, root, env)
    {
      hide A.Layout, K.Call;
      var ret := Call(tf, p, root, env);
      tfs[tf] := tfs[tf].(regs := tfs[tf].regs[K.A0 := ret % TWO64]);
    }

    // ------------------------------------------------------------------ traps

    /** The three branches of trap_handler. */
    method HandleTrap(tf: nat, scause: nat, env: K.Env)
      requires Valid() && current.Some? && tf < A.NPROC
      modifies this, procs, tfs, vm`kernelPt, vm.used, vm.pages, vm.frames
      ensures Valid() && Model() == M.Handle(old(Model()), tf, scause, env)
    {
      hide A.Layout, K.Syscall, K.Dispatch, K.Tick, K.Exit;
      var c := current.value;
      procs[c] := procs[c].(tf := tf);
      if scause == M.ECALL_U {
        tfs[tf] := tfs[tf].(sepc := tfs[tf].sepc + 4);
        SyscallDispatch(tf, c, M.RootOf(procs[c]), env);
      } else if scause == M.TIMER {
        TimerTick();
        if current.Some? && procs[current.value].state == K.Running {
          procs[current.value] := procs[current.value].(state := K.Runnable);
          Dispatch();
        }
      } else {
        ProcExit(-1);
      }
    }

    /** The idle loop.  In a state of the invariant with a timed sleeper it terminates, after exactly as many
     *  turns as there are ticks to the earliest deadline. */
    method IdleLoop(ghost loc: P.Locations, ghost w: nat)
      requires Valid() && KI.KernelOk(Model(), loc) && current.None? && T.Earliest(procs[..], w)
      modifies this`ticks, this`lastSlot, this`current, procs
      ensures Valid() && KI.KernelOk(Model(), loc) && current.Some?
      ensures w > old(ticks) && Model() == IdleTurns(old(Model()), w - old(ticks)) && ticks == w
    {
      hide A.Layout, KI.KernelOk, K.Tick, K.Dispatch;
      DeadlinesAhead(Model(), loc, w);
      NoTurns(Model());
      while current.None?
        invariant Valid() && KI.KernelOk(Model(), loc) && old(ticks) <= ticks <= w
        invariant current.None? ==> ticks < w && T.Earliest(procs[..], w)
        invariant current.Some? ==> ticks == w
        invariant Model() == IdleTurns(old(Model()), ticks - old(ticks))
        decreases w - ticks, current.None?
      {
        IdleTurnShape(Model(), loc, w);
        TurnsStep(old(Model()), ticks - old(ticks));
        TimerTick();
        Dispatch();
      }
    }

    /** The end of trap_handler: the fallback, then switch_to; the trapframe to restore from. */
    method Resume() returns (tf: nat)
      requires Valid() && current.Some?
      modifies this`satp, this`lastSlot, this`current, procs
      ensures Valid() && Model() == M.Restore(M.Fallback(old(Model()))).k
      ensures tf == M.Restore(M.Fallback(old(Model()))).sscratch
    {
      hide A.Layout, K.Schedule;
      if procs[current.value].state != K.Running {
        var next := ProcSchedule();
        if next.Some? { current := next; }
      }
      var c := current.value;
      procs[c] := procs[c].(state := K.Running);
      if procs[c].pagetable.Some? { satp := procs[c].pagetable.value; }
      return procs[c].tf;
    }
  }

  // ------------------------------------------------------------ loop lemmas

  lemma {:induction false} StringEnds(vm: A.Vm, root: nat, uva: nat)
    requires A.Layout(vm) && root < P.POOL_PAGES
    ensures var s := C.CopyInStr(vm, root, uva, 32);
            s.Some? ==> 0 < |s.value| <= 32 && s.value[|s.value| - 1] == 0
  {
    C.CopyInStrEnds(vm, root, uva, 32, []);
  }

  lemma {:induction false} BeforeLastNul(s: seq<A.Byte>)
    requires s != [] && s[|s| - 1] == 0
    ensures K.BeforeNul(s[..|s| - 1]) == K.BeforeNul(s)
  {
    if |s| > 1 {
      assert s[..|s| - 1][1..] == s[1..][..|s| - 2];
      BeforeLastNul(s[1..]);
    }
  }

  lemma {:induction false} BeforeNulStep(s: seq<A.Byte>, i: nat)
    requires i < |s| && s[i] != 0
    ensures K.BeforeNul(s[i..]) == [s[i]] + K.BeforeNul(s[i + 1..])
  {
    assert s[i..][1..] == s[i + 1..];
  }

  lemma {:induction false} BeforeNulEnd(s: seq<A.Byte>, i: nat)
    requires i <= |s| && (i < |s| ==> s[i] == 0)
    ensures K.BeforeNul(s[i..]) == []
  {
  }

  lemma {:induction false} Push(a: seq<A.Byte>, c: A.Byte, b: seq<A.Byte>)
    ensures a + ([c] + b) == (a + [c]) + b
  {
  }

  lemma {:induction false} ProbeStep(procs: seq<K.Proc>, start: int, n: nat)
    requires |procs| == A.NPROC && -1 <= start && 1 <= n <= A.NPROC
    ensures var i := (start + n) % A.NPROC;
            K.Probe(procs, start, n) == if procs[i].state == K.Runnable then Some(i) else K.Probe(procs, start, n + 1)
  {
  }

  lemma {:induction false} ProbeEnd(procs: seq<K.Proc>, start: int)
    requires |procs| == A.NPROC && -1 <= start
    ensures K.Probe(procs, start, A.NPROC + 1) == None
  {
  }

  lemma {:induction false} UnusedStep(procs: seq<K.Proc>, i: nat)
    requires i < |procs|
    ensures K.FirstUnused(procs, i) == if procs[i].state == K.Unused then i else K.FirstUnused(procs, i + 1)
  {
  }

  lemma {:induction false} UnusedEnd(procs: seq<K.Proc>)
    ensures K.FirstUnused(procs, |procs|) == |procs|
  {
  }

  lemma {:induction false} ZombieStep(procs: seq<K.Proc>, p: nat, i: nat)
    requires i < |procs|
    ensures K.FirstZombie(procs, p, i) ==
            if K.ChildOf(procs[i], p) && procs[i].state == K.Zombie then i else K.FirstZombie(procs, p, i + 1)
  {
  }

  lemma {:induction false} ZombieEnd(procs: seq<K.Proc>, p: nat)
    ensures K.FirstZombie(procs, p, |procs|) == |procs|
  {
  }

  /** n turns of the idle loop. */
  ghost function IdleTurns(k: K.Kernel, n: nat): (r: K.Kernel)
    requires K.Typed(k)
    ensures K.Typed(r)
  {
    if n == 0 then k else var r := IdleTurns(k, n - 1); K.Dispatch(K.Tick(r))
  }

  lemma {:induction false} NoTurns(k: K.Kernel)
    requires K.Typed(k)
    ensures IdleTurns(k, 0) == k
  {
  }

  lemma {:induction false} TurnsStep(k: K.Kernel, n: nat)
    requires K.Typed(k)
    ensures IdleTurns(k, n + 1) == K.Dispatch(K.Tick(IdleTurns(k, n)))
  {
  }

  lemma {:induction false} DeadlinesAhead(k: K.Kernel, loc: P.Locations, w: nat)
    requires KI.KernelOk(k, loc) && T.Earliest(k.procs, w)
    ensures k.ticks < w
  {
    hide KT.TablesOk;
    T.CoreDeadlines(k);
  }

  /** One turn, in the terms of the loop invariant. */
  lemma {:induction false} IdleTurnShape(k: K.Kernel, loc: P.Locations, w: nat)
    requires KI.KernelOk(k, loc) && k.current.None? && T.Earliest(k.procs, w) && k.ticks < w
    ensures var r := K.Dispatch(K.Tick(k));
            && KI.KernelOk(r, loc) && r.ticks == k.ticks + 1
            && (r.current.Some? <==> k.ticks + 1 == w) && (r.current.None? ==> r.procs == k.procs)
  {
    hide KT.TablesOk, I.Core, A.Layout, K.Dispatch, K.Tick;
    KI.IdleOk(k, loc);
    T.CoreDeadlines(k);
    T.TickWakes(k);
    B.TickShape(k);
    R.TickCoreIdle(k);
    I.DispatchShape(K.Tick(k));
    var k1, r := K.Tick(k), K.Dispatch(K.Tick(k));
    if k.ticks + 1 == w {
      var i :| 0 <= i < |k.procs| && T.TimedSleeper(k.procs[i]) && k.procs[i].wakeTick == w;
      assert k1.procs[i].state == K.Runnable;
    } else {
      assert k1.procs == k.procs;
    }
  }
}
