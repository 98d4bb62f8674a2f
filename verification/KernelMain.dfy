/** trap_handler as a whole and the boot sequence, on the in-place kernel: what one trap and the idle turns after it
 *  come to in the machine model, and the state main hands to user mode. */
module KernelMain {
  import opened Wrappers
  import P = PageTable
  import A = AddressSpace
  import K = Process
  import I = ProcessInvariants
  import M = Machine
  import KT = KernelTables
  import KI = KernelInvariant
  import B = BootInvariant
  import T = RunTheorems
  import KernelObject

  // ------------------------------------------------------------------ traps

  /** From m, the trap and n idle turns lead to r, where a process runs. Idle turns happen only while none does, so n
   *  and r are the only ones with this property. */
  ghost predicate After(m: M.Machine, trap: M.Event, n: nat, r: M.Machine)
    requires M.WellFormed(m) && M.Enabled(m, trap)
  {
    var m1 := M.Step(m, trap);
    M.CanRun(m1, T.Idles(n)) && r == M.Run(m1, T.Idles(n)) && r.k.current.Some?
  }

  /** The kernel when the branches of trap_handler are done. */
  ghost function Branched(m: M.Machine, scause: nat, env: K.Env): (k: K.Kernel)
    requires M.WellFormed(m) && m.k.current.Some?
    ensures K.Typed(k)
  {
    M.Handle(M.Save(m, scause), m.sscratch, scause, env)
  }

  /** If nobody can run after the handler's branches, w is the earliest deadline. */
  ghost predicate Wakes(m: M.Machine, scause: nat, env: K.Env, w: nat)
    requires M.WellFormed(m) && m.k.current.Some?
  {
    var k := Branched(m, scause, env);
    k.current.None? ==> T.Earliest(k.procs, w)
  }

  lemma {:induction false} TurnsFirst(k: K.Kernel, n: nat)
    requires K.Typed(k)
    ensures KernelObject.IdleTurns(k, n + 1) == KernelObject.IdleTurns(K.Dispatch(K.Tick(k)), n)
    decreases n
  {
    hide K.Dispatch, K.Tick, A.Layout;
    if n > 0 { TurnsFirst(k, n - 1); }
  }

  /** The idle turns of the machine are those of the loop, and the last one resumes the process that woke. */
  lemma {:induction false} IdleRun(m: M.Machine, loc: P.Locations, w: nat)
    requires KI.Inv(m, loc) && m.k.current.None? && T.Earliest(m.k.procs, w)
    ensures w > m.k.ticks && M.CanRun(m, T.Idles(w - m.k.ticks))
    ensures var k := KernelObject.IdleTurns(m.k, w - m.k.ticks);
            k.current.Some? && M.Run(m, T.Idles(w - m.k.ticks)) == Resumed(k)
    decreases w - m.k.ticks
  {
    hide I.Core, KT.TablesOk, A.Layout, K.Dispatch, K.Tick, Resumed, KernelObject.IdleTurns, M.Run, M.CanRun, M.Step,
         T.Idles;
    T.CoreDeadlines(m.k);
    T.IdleLoopEnds(m, loc, w);
    T.IdleTurn(m, loc);
    var d := w - m.k.ticks;
    var m1, k1 := M.Step(m, M.IdleTick), K.Dispatch(K.Tick(m.k));
    IdleStep(m);
    IdlesFirst(m, d);
    IdlesFirst(m, 1);
    NoIdles(m1);
    TurnsFirst(m.k, d - 1);
    KernelObject.NoTurns(k1);
    if d > 1 {
      var loc1 := KI.StepKeeps(m, loc, M.IdleTick);
      IdleRun(m1, loc1, w);
    }
  }

  lemma {:induction false} IdleStep(m: M.Machine)
    requires M.WellFormed(m) && m.k.current.None?
    ensures var k1 := K.Dispatch(K.Tick(m.k));
            M.Step(m, M.IdleTick) == if k1.current.None? then m.(k := k1) else Resumed(k1)
    ensures var k1 := K.Dispatch(K.Tick(m.k)); k1.current.Some? ==> Resumed(k1).k.current.Some?
  {
    hide K.Dispatch, K.Tick, A.Layout;
    var k1 := K.Dispatch(K.Tick(m.k));
    if k1.current.Some? { RestoreRuns(k1); }
  }

  lemma {:induction false} IdlesFirst(m: M.Machine, n: nat)
    requires M.WellFormed(m) && m.k.current.None? && n > 0 && M.CanRun(m, T.Idles(n))
    ensures var m1 := M.Step(m, M.IdleTick);
            M.CanRun(m1, T.Idles(n - 1)) && M.Run(m, T.Idles(n)) == M.Run(m1, T.Idles(n - 1))
  {
    hide M.Step;
    assert T.Idles(n)[0] == M.IdleTick && T.Idles(n)[1..] == T.Idles(n - 1);
  }

  ghost predicate TrapDone(m: M.Machine, scause: nat, env: K.Env, loc: P.Locations)
    requires M.WellFormed(m) && m.k.current.Some?
  {
    var k, m1 := Branched(m, scause, env), M.Step(m, M.Trap(scause, env));
    KI.KernelOk(k, loc) && KI.Inv(m1, loc) && m1 == M.Finish(m, k)
  }

  /** The state the handler leaves when it selects nobody is that of the machine in its idle loop. */
  lemma {:induction false} TrapStep(m: M.Machine, scause: nat, env: K.Env, loc: P.Locations) returns (loc': P.Locations)
    requires M.WellFormed(m) && m.k.current.Some?
    requires KI.Inv(m, loc)
    ensures TrapDone(m, scause, env, loc')
  {
    hide I.Core, KT.TablesOk, A.Layout, M.Handle, M.Save;
    KI.SaveOk(m, loc, scause);
    KI.SaveShape(m, scause);
    loc' := KI.HandleOk(M.Save(m, scause), loc, m.sscratch, scause, env);
    KI.FinishOk(m, M.Handle(M.Save(m, scause), m.sscratch, scause, env), loc');
  }

  ghost function Resumed(k: K.Kernel): (r: M.Machine)
    requires K.Typed(k) && k.current.Some?
    ensures M.WellFormed(r)
  {
    M.Restore(M.Fallback(k))
  }

  /** The machine after the trap, from the kernel after the handler's branches and n turns of its idle loop. */
  ghost predicate HandledTo(m: M.Machine, scause: nat, env: K.Env, w: nat, n: nat)
    requires M.WellFormed(m) && m.k.current.Some?
  {
    var k := Branched(m, scause, env);
    if k.current.Some? then n == 0 && After(m, M.Trap(scause, env), 0, Resumed(k))
    else
      var k1 := KernelObject.IdleTurns(k, n);
      n > 0 && n == w - k.ticks && k1.current.Some? && After(m, M.Trap(scause, env), n, Resumed(k1))
  }

  /** The two ways out of the handler. */
  lemma {:induction false} HandledAfter(m: M.Machine, scause: nat, env: K.Env, w: nat, loc: P.Locations)
    returns (n: nat)
    requires M.WellFormed(m) && m.k.current.Some? && Wakes(m, scause, env, w)
    requires KI.Inv(m, loc)
    ensures HandledTo(m, scause, env, w, n)
  {
    hide KI.KernelOk, KI.Seated, A.Layout, Branched, M.Step, M.Restore, M.Fallback, KernelObject.IdleTurns, M.Run,
         M.CanRun;
    var k := Branched(m, scause, env);
    var loc1 := TrapStep(m, scause, env, loc);
    var m1 := M.Step(m, M.Trap(scause, env));
    n := 0;
    if k.current.Some? {
      NoIdles(m1);
      RestoreRuns(k);
    } else {
      IdleRun(m1, loc1, w);
      n := w - k.ticks;
      RestoreRuns(KernelObject.IdleTurns(k, n));
    }
  }

  lemma {:induction false} NoIdles(m: M.Machine)
    requires M.WellFormed(m)
    ensures M.CanRun(m, T.Idles(0)) && M.Run(m, T.Idles(0)) == m
  {
  }

  lemma {:induction false} RestoreRuns(k: K.Kernel)
    requires K.Typed(k) && k.current.Some?
    ensures Resumed(k).k.current.Some?
  {
    hide A.Layout;
  }

  /** trap_handler, entered from a state of the invariant with the frame tf just saved: its branches, the idle loop
   *  (which a process that can still wake ends) and the resumption leave the kernel, and name the frame to restore,
   *  exactly as the machine's trap step and the idle turns after it do. Without a current process it goes to the idle
   *  frame, here None. */
  method TrapHandler(n: KernelObject.NanoKernel, tf: nat, env: K.Env, ghost m: M.Machine, ghost loc: P.Locations,
                     ghost w: nat) returns (next: Option<nat>, ghost turns: nat, ghost r: M.Machine)
    requires n.Valid() && KI.Inv(m, loc) && tf == m.sscratch
    requires n.Model() == M.Save(m, n.tfs[tf].scause)
    requires m.k.current.Some? ==> Wakes(m, n.tfs[tf].scause, env, w)
    modifies n, n.procs, n.tfs, n.vm`kernelPt, n.vm.used, n.vm.pages, n.vm.frames
    ensures n.Valid()
    ensures m.k.current.None? ==> next == None && n.Model() == K.SwitchToKernel(old(n.Model()))
    ensures m.k.current.Some? ==>
              && After(m, M.Trap(old(n.tfs[tf].scause), env), turns, r)
              && n.Model() == r.k && next == Some(r.sscratch)
  {
    hide KI.KernelOk, KI.Seated, A.Layout, M.Handle, M.Save, Resumed, KernelObject.IdleTurns, After, K.SwitchToKernel;
    turns, r := 0, m;
    var scause := n.tfs[tf].scause;
    KI.SaveShape(m, scause);
    if n.current.None? {
      n.SwitchToKernel();
      return None, 0, m;
    }
    ghost var loc1 := TrapStep(m, scause, env, loc);
    turns := HandledAfter(m, scause, env, w, loc);
    n.HandleTrap(tf, scause, env);
    if n.current.None? { n.IdleLoop(loc1, w); }
    r := Resumed(n.Model());
    next := ResumeFrame(n);
  }

  method ResumeFrame(n: KernelObject.NanoKernel) returns (next: Option<nat>)
    requires n.Valid() && n.current.Some?
    modifies n`satp, n`lastSlot, n`current, n.procs
    ensures n.Valid() && n.Model() == Resumed(old(n.Model())).k && next == Some(Resumed(old(n.Model())).sscratch)
  {
    var t := n.Resume();
    return Some(t);
  }

  // ------------------------------------------------------------------ boot

  /** proc_create_init: the first unused slot gets the image and a frame that starts it; None when that fails. */
  ghost function CreateInit(k: K.Kernel, image: seq<A.Byte>): (r: (K.Kernel, Option<nat>))
    requires K.Typed(k)
    ensures K.Typed(r.0)
  {
    var i := K.FirstUnused(k.procs, 0);
    if i == A.NPROC then (k, None) else CreateInto(k, image, i)
  }

  ghost function CreateInto(k: K.Kernel, image: seq<A.Byte>, i: nat): (r: (K.Kernel, Option<nat>))
    requires K.Typed(k) && i < A.NPROC
    ensures K.Typed(r.0)
  {
    var (vm, root) := A.CreateUser(k.vm, image, i);
    var p := k.procs[i].(pid := k.nextPid, state := K.Runnable, parent := None, exitStatus := 0, wakeTick := 0,
                         pagetable := root);
    var k1 := k.(nextPid := k.nextPid + 1, vm := vm);
    if root.None? then (K.SetProc(k1, i, p.(state := K.Unused)), None)
    else (Started(K.SetProc(k1, i, p.(tf := i)), i), Some(i))
  }

  ghost function Started(k: K.Kernel, i: nat): (r: K.Kernel)
    requires K.Typed(k) && i < A.NPROC
    ensures K.Typed(r)
  {
    k.(tfs := k.tfs[i := M.UserFrame(i)])
  }

  method ProcCreateInit(n: KernelObject.NanoKernel, image: seq<A.Byte>) returns (slot: Option<nat>)
    requires n.Valid()
    modifies n`nextPid, n.procs, n.tfs, n.vm.used, n.vm.pages, n.vm.frames
    ensures n.Valid() && (n.Model(), slot) == CreateInit(old(n.Model()), image)
  {
    hide A.CreateUser, A.Layout, K.FirstUnused;
    ghost var was := n.procs[..];
    var i := 0;
    while i < A.NPROC
      invariant 0 <= i <= A.NPROC && n.Model() == old(n.Model())
      invariant K.FirstUnused(n.procs[..], i) == K.FirstUnused(n.procs[..], 0)
    {
      KernelObject.UnusedStep(n.procs[..], i);
      if n.procs[i].state == K.Unused {
        n.procs[i] := n.procs[i].(pid := n.nextPid, state := K.Runnable, parent := None, exitStatus := 0,
                                  wakeTick := 0);
        n.nextPid := n.nextPid + 1;
        var root := n.vm.VmCreateUser(image, i);
        n.procs[i] := n.procs[i].(pagetable := root);
        if root.None? {
          n.procs[i] := n.procs[i].(state := K.Unused);
          assert n.procs[..] == was[i := n.procs[i]];
          return None;
        }
        n.procs[i] := n.procs[i].(tf := i);
        assert n.procs[..] == was[i := n.procs[i]];
        n.tfs[i] := M.UserFrame(i);
        return Some(i);
      }
      i := i + 1;
    }
    KernelObject.UnusedEnd(n.procs[..]);
    return None;
  }

  /** What proc_init leaves, on a memory fresh from vm_init. */
  ghost predicate JustInitialised(k: K.Kernel)
  {
    && K.Typed(k) && M.PoweredOn(k.vm) && k.current == None && k.lastSlot == -1 && k.nextPid == 1 && k.ticks == 0
    && k.hist == K.History(map[], [])
    && forall i :: 0 <= i < A.NPROC ==> k.procs[i] == M.FREE_SLOT.(tf := i) && k.tfs[i] == M.EmptyFrame(i)
  }

  lemma {:induction false} CreateInitIs(k: K.Kernel, image: seq<A.Byte>)
    requires JustInitialised(k)
    ensures var (vm, root) := A.CreateUser(k.vm, image, 0);
            var r := CreateInit(k, image);
            && (root.None? ==> r.1 == None)
            && (root.Some? ==> r.1 == Some(0) && r.0 == M.InitKernel(vm, root.value).(satp := k.satp))
  {
    hide A.CreateUser, A.Layout;
    var (vm, root) := A.CreateUser(k.vm, image, 0);
    assert K.FirstUnused(k.procs, 0) == 0;
    if root.Some? {
      var r := CreateInit(k, image).0;
      assert r.procs == M.InitProcs(root.value);
      assert r.tfs == M.InitFrames();
    }
  }

  /** satp plays no part until the first process is resumed, and is its root from then on. */
  lemma {:induction false} FirstResume(k: K.Kernel, satp: nat)
    requires K.Typed(k) && satp < P.POOL_PAGES && K.Dispatch(k).current.Some?
    requires k.procs[K.Dispatch(k).current.value].pagetable.Some?
    ensures var k' := k.(satp := satp);
            && K.Dispatch(k').current == K.Dispatch(k).current
            && M.Restore(K.Dispatch(k')) == M.Restore(K.Dispatch(k))
  {
    hide A.Layout, K.Probe;
  }

  lemma {:induction false} BootSucceeds(vm: A.Vm, image: seq<A.Byte>)
    requires M.PoweredOn(vm)
    ensures var (vm1, root) := A.CreateUser(vm, image, 0);
            && root.Some?
            && var k := K.Dispatch(M.InitKernel(vm1, root.value));
               k.current.Some? && M.Boot(vm, image) == Some(M.Restore(k))
  {
    hide A.CreateUser, A.Layout, K.Dispatch, M.Restore, KI.Inv;
    var loc := B.BootOk(vm, image);
  }

  lemma {:induction false} DispatchRuns(k: K.Kernel)
    requires K.Typed(k) && K.Dispatch(k).current.Some?
    ensures M.Fallback(K.Dispatch(k)) == K.Dispatch(k)
  {
    hide A.Layout, K.Probe;
  }

  /** main after vm_init and proc_init: create the first process, select it and enter user mode on its frame. The two
   *  panics do not happen, for any image. */
  method StartFirst(n: KernelObject.NanoKernel, image: seq<A.Byte>) returns (tf: Option<nat>)
    requires JustInitialised(n.Model())
    modifies n, n.procs, n.tfs, n.vm.used, n.vm.pages, n.vm.frames
    ensures n.Valid()
    ensures var m := M.Boot(old(n.vm.Model()), image);
            m.Some? && tf == Some(m.value.sscratch) && n.Model() == m.value.k
  {
    hide A.CreateUser, A.Layout, K.Dispatch, M.Restore, M.Fallback, M.InitKernel, CreateInit;
    ghost var k0 := n.Model();
    CreateInitIs(k0, image);
    BootSucceeds(k0.vm, image);
    var slot := ProcCreateInit(n, image);
    if slot.None? { return None; }
    ghost var k1 := n.Model();
    ghost var (vm, root) := A.CreateUser(k0.vm, image, 0);
    ghost var k2 := M.InitKernel(vm, root.value);
    InitRoots(vm, root.value);
    FirstResume(k2, k0.satp);
    n.Dispatch();
    if n.current.None? { return None; }
    DispatchRuns(k1);
    var t := n.Resume();
    return Some(t);
  }

  lemma {:induction false} InitRoots(vm: A.Vm, root: nat)
    requires A.Layout(vm) && root < P.POOL_PAGES && K.Dispatch(M.InitKernel(vm, root)).current.Some?
    ensures M.InitKernel(vm, root).procs[K.Dispatch(M.InitKernel(vm, root)).current.value].pagetable.Some?
  {
    hide A.Layout;
    var k := M.InitKernel(vm, root);
    assert forall i :: 1 <= i < A.NPROC ==> k.procs[i].state == K.Unused;
  }
}
