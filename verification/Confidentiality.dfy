/** What a process keeps in its memory never reaches the others: two machines that differ only in the user bytes of a
 *  slot go through the same events alike for as long as that slot is not dispatched. */
module Confidentiality {
  import opened Wrappers
  import opened Sv39
  import PageTable
  import opened AddressSpace
  import opened UserCopy
  import opened Process
  import opened ProcessInvariants
  import opened KernelTables
  import opened Machine
  import opened KernelInvariant
  import opened Bystander
  import opened Runs

  /** The same frames, but for those of slot q. */
  predicate SameBut(frames: seq<seq<Byte>>, g: seq<seq<Byte>>, q: nat) {
    |g| == |frames| && forall f :: 0 <= f < |frames| && f / TOTAL_PAGES != q ==> g[f] == frames[f]
  }

  /** The same kernel, but for the bytes of slot q. */
  predicate Low(k: Kernel, k': Kernel, q: nat) {
    k' == k.(vm := k.vm.(frames := k'.vm.frames)) && SameBut(k.vm.frames, k'.vm.frames, q)
  }

  predicate LowMachine(m: Machine, m': Machine, q: nat) { m' == m.(k := m'.k) && Low(m.k, m'.k, q) }

  // ------------------------------------------------------------------ operations blind to user memory

  function With(k: Kernel, g: seq<seq<Byte>>): (r: Kernel)
    requires Typed(k) && FramesOk(g)
    ensures Typed(r)
  {
    k.(vm := k.vm.(frames := g))
  }

  lemma {:induction false} DispatchBlind(k: Kernel, g: seq<seq<Byte>>)
    requires Typed(k) && FramesOk(g)
    ensures Dispatch(With(k, g)) == With(Dispatch(k), g)
  {
    hide Layout, Probe;
  }

  lemma {:induction false} FreeSlotBlind(k: Kernel, i: nat, g: seq<seq<Byte>>)
    requires Typed(k) && FramesOk(g) && i < NPROC
    ensures FreeSlot(With(k, g), i) == With(FreeSlot(k, i), g)
  {
    hide PageTable.DestroyLevel, PageTable.Shape;
  }

  lemma {:induction false} SwitchBlind(k: Kernel, g: seq<seq<Byte>>)
    requires Typed(k) && FramesOk(g)
    ensures SwitchToKernel(With(k, g)) == With(SwitchToKernel(k), g)
  {
    hide PageTable.Alloc, KernelMap, PageTable.Release, PageTable.Shape;
  }

  lemma {:induction false} ExitSlotBlind(k: Kernel, p: nat, status: int, g: seq<seq<Byte>>)
    requires Typed(k) && FramesOk(g) && p < NPROC
    ensures ExitSlot(With(k, g), p, status) == With(ExitSlot(k, p, status), g)
  {
    hide Layout, FreeSlot, SwitchToKernel;
    var k1 := SetProc(k, p, k.procs[p].(exitStatus := status));
    var me := k1.procs[p];
    if me.parent.Some? && BlockedInWait(k1.procs[me.parent.value]) {
      var q := me.parent.value;
      var k2 := SetReg(k1, k1.procs[q].tf, A0, me.pid);
      var k3 := Deliver(SetProc(k2, q, k2.procs[q].(state := Runnable)), me.pid, q);
      SwitchBlind(k3, g);
      FreeSlotBlind(SwitchToKernel(k3), p, g);
    } else if me.parent.None? {
      SwitchBlind(k1, g);
      FreeSlotBlind(SwitchToKernel(k1), p, g);
    }
  }

  lemma {:induction false} ExitBlind(k: Kernel, status: int, g: seq<seq<Byte>>)
    requires Typed(k) && FramesOk(g)
    ensures Exit(With(k, g), status) == With(Exit(k, status), g)
  {
    hide Layout, ExitSlot, Dispatch;
    if k.current.Some? {
      ExitSlotBlind(k, k.current.value, status, g);
      DispatchBlind(ExitSlot(k, k.current.value, status), g);
    }
  }

  lemma {:induction false} WaitBlind(k: Kernel, g: seq<seq<Byte>>)
    requires Typed(k) && FramesOk(g)
    ensures Wait(With(k, g)) == (With(Wait(k).0, g), Wait(k).1)
  {
    hide Layout, FreeSlot, Dispatch, FirstZombie, HasChild;
    if k.current.Some? {
      var p := k.current.value;
      var z := FirstZombie(k.procs, p, 0);
      if z < NPROC { FreeSlotBlind(Deliver(k, k.procs[z].pid, p), z, g); }
      else if HasChild(k.procs, p) { DispatchBlind(SetProc(k, p, k.procs[p].(state := Sleeping)), g); }
    }
  }

  lemma {:induction false} SleepBlind(k: Kernel, n: nat, g: seq<seq<Byte>>)
    requires Typed(k) && FramesOk(g)
    ensures SysSleep(With(k, g), n) == With(SysSleep(k, n), g)
  {
    hide Layout, Dispatch;
    var t := if n > MAX_SLEEP then MAX_SLEEP else n;
    if k.current.Some? && t != 0 {
      var p := k.current.value;
      DispatchBlind(SetProc(k, p, k.procs[p].(wakeTick := k.ticks + t, state := Sleeping)), g);
    }
  }

  lemma {:induction false} TickBlind(k: Kernel, g: seq<seq<Byte>>)
    requires Typed(k) && FramesOk(g)
    ensures Tick(With(k, g)) == With(Tick(k), g)
  {
    hide Layout;
  }

  lemma {:induction false} PreemptBlind(k: Kernel, g: seq<seq<Byte>>)
    requires Typed(k) && FramesOk(g)
    ensures Preempt(With(k, g)) == With(Preempt(k), g)
  {
    hide Layout, Dispatch;
    if k.current.Some? && k.procs[k.current.value].state == Running {
      var c := k.current.value;
      DispatchBlind(SetProc(k, c, k.procs[c].(state := Runnable)), g);
    }
  }

  // ------------------------------------------------------------------ operations on the caller's own memory

  /** copyout does the same to both memories. */
  lemma {:induction false} CopyOutLow(vm: Vm, g: seq<seq<Byte>>, root: nat, va: nat, src: seq<Byte>, q: nat)
    requires Layout(vm) && FramesOk(g) && root < PageTable.POOL_PAGES && SameBut(vm.frames, g, q)
    ensures var r, r' := CopyOut(vm, root, va, src), CopyOut(vm.(frames := g), root, va, src);
            r'.1 == r.1 && SameBut(r.0.frames, r'.0.frames, q)
    decreases |src|
  {
    hide PageTable.TranslateUser, PageTable.Shape, Splice;
    if src != [] {
      var t := PageTable.TranslateUser(vm.pool, root, va);
      if t.Some? && InFrames(vm, t.value) {
        var n := Chunk(va, |src|);
        var f := t.value - vm.userBase;
        var a := WriteChunk(vm.frames, f, va % PGSIZE, src[..n]);
        var b := WriteChunk(g, f, va % PGSIZE, src[..n]);
        CopyOutLow(vm.(frames := a), b, root, va + n, src[n..], q);
      }
    }
  }

  lemma {:induction false} ReadLoopLow(vm: Vm, g: seq<seq<Byte>>, root: nat, uva: nat, len: nat, env: Env, i: nat,
                                       q: nat)
    requires Layout(vm) && FramesOk(g) && root < PageTable.POOL_PAGES && SameBut(vm.frames, g, q) && i <= len
    ensures var r, r' := ReadLoop(vm, root, uva, len, env, i), ReadLoop(vm.(frames := g), root, uva, len, env, i);
            r'.1 == r.1 && SameBut(r.0.frames, r'.0.frames, q)
    decreases len - i
  {
    hide PageTable.Shape, SameBut, CopyOut;
    if i < len {
      var c := Typing(env, i);
      CopyOutLow(vm, g, root, uva + i, [c], q);
      var r, r' := CopyOut(vm, root, uva + i, [c]), CopyOut(vm.(frames := g), root, uva + i, [c]);
      if r.1 && c != 10 { ReadLoopLow(r.0, r'.0.frames, root, uva, len, env, i + 1, q); }
    }
  }

  /** A translation of slot c's table leads into slot c's frames. */
  lemma {:induction false} OwnFrame(vm: Vm, loc: PageTable.Locations, c: nat, root: nat, va: nat)
    requires Space(vm, loc, c, root)
    ensures var t := PageTable.TranslateUser(vm.pool, root, va);
            t.Some? ==> InFrames(vm, t.value) && (t.value - vm.userBase) / TOTAL_PAGES == c
  {
    hide PageTable.TranslateUser, PageTable.HardwareTranslate, PageTable.Tree, HasSpace;
    Translations(vm, loc, c, root, va);
  }

  /** copyin and copyinstr read the caller's memory only. */
  lemma {:induction false} CopyInLow(vm: Vm, loc: PageTable.Locations, c: nat, root: nat, g: seq<seq<Byte>>, va: nat,
                                     len: nat, q: nat)
    requires Space(vm, loc, c, root) && FramesOk(g) && SameBut(vm.frames, g, q) && q != c
    ensures CopyIn(vm.(frames := g), root, va, len) == CopyIn(vm, root, va, len)
    decreases len
  {
    hide PageTable.TranslateUser, PageTable.Tree, HasSpace;
    if len > 0 {
      OwnFrame(vm, loc, c, root, va);
      CopyInLow(vm, loc, c, root, g, va + Chunk(va, len), len - Chunk(va, len), q);
    }
  }

  lemma {:induction false} CopyInStrLow(vm: Vm, loc: PageTable.Locations, c: nat, root: nat, g: seq<seq<Byte>>, va: nat,
                                        max: nat, got: seq<Byte>, q: nat)
    requires Space(vm, loc, c, root) && FramesOk(g) && SameBut(vm.frames, g, q) && q != c && 0 < max && |got| <= max
    ensures CopyInStrFrom(vm.(frames := g), root, va, max, got) == CopyInStrFrom(vm, root, va, max, got)
    decreases max - |got|
  {
    hide CopyIn, PageTable.Tree, HasSpace, SameBut;
    if |got| < max {
      CopyInLow(vm, loc, c, root, g, va + |got|, 1, q);
      var b := CopyIn(vm, root, va + |got|, 1);
      if b.Some? && |b.value| == 1 && b.value[0] != 0 { CopyInStrLow(vm, loc, c, root, g, va, max, got + b.value, q); }
    }
  }

  // ------------------------------------------------------------------ system calls

  lemma {:induction false} LowIs(k: Kernel, k': Kernel, q: nat)
    requires Typed(k) && Typed(k') && Low(k, k', q)
    ensures FramesOk(k'.vm.frames) && k' == With(k, k'.vm.frames)
  {
  }

  lemma {:induction false} WithLow(k: Kernel, g: seq<seq<Byte>>, q: nat)
    requires Typed(k) && FramesOk(g) && SameBut(k.vm.frames, g, q)
    ensures Low(k, With(k, g), q)
  {
  }

  /** fork copies the caller's frames, into slot q as well. */
  lemma {:induction false} ForkLow(k: Kernel, k': Kernel, loc: PageTable.Locations, c: nat, q: nat)
    requires Typed(k) && Typed(k') && Low(k, k', q)
    requires KernelOk(k, loc) && k.current == Some(c) && q != c
    ensures Low(Fork(k, c).0, Fork(k', c).0, q) && Fork(k', c).1 == Fork(k, c).1
  {
    hide TablesOk, Core, Layout, FirstUnused;
    var i := FirstUnused(k.procs, 0);
    if i < NPROC {
      FirstUnusedIs(k.procs, 0);
      var loc' := ForkTables(k, loc, c, c, i);
      ForkIntoLow(k, k', c, i, q);
    }
  }

  lemma {:induction false} ForkIntoLow(k: Kernel, k': Kernel, c: nat, i: nat, q: nat)
    requires Typed(k) && Typed(k') && Low(k, k', q) && c < NPROC && i < NPROC && q != c
    ensures Low(ForkInto(k, c, c, i).0, ForkInto(k', c, c, i).0, q) && ForkInto(k', c, c, i).1 == ForkInto(k, c, c, i).1
  {
    hide Layout, CloneUser;
    CloneLow(k.vm, k'.vm, i, c, q);
  }

  lemma {:induction false} CloneLow(vm: Vm, vm': Vm, dst: nat, src: nat, q: nat)
    requires Layout(vm) && Layout(vm') && vm' == vm.(frames := vm'.frames) && SameBut(vm.frames, vm'.frames, q)
    requires dst < NPROC && src < NPROC && q != src
    ensures var r, r' := CloneUser(vm, dst, src), CloneUser(vm', dst, src);
            r'.1 == r.1 && r'.0 == r.0.(frames := r'.0.frames) && SameBut(r.0.frames, r'.0.frames, q)
  {
    hide PageTable.Alloc, KernelMap, UserMap, PageTable.DestroyLevel, PageTable.Shape;
    CopySlotLow(vm.frames, vm'.frames, dst, src, q);
  }

  lemma {:induction false} CopySlotLow(frames: seq<seq<Byte>>, g: seq<seq<Byte>>, dst: nat, src: nat, q: nat)
    requires FramesOk(frames) && FramesOk(g) && SameBut(frames, g, q) && dst < NPROC && src < NPROC && q != src
    ensures SameBut(CopySlot(frames, dst, src), CopySlot(g, dst, src), q)
  {
    forall f | 0 <= f < |frames| && f / TOTAL_PAGES != q
      ensures CopySlot(g, dst, src)[f] == CopySlot(frames, dst, src)[f]
    {
      assert (src * TOTAL_PAGES + f % TOTAL_PAGES) / TOTAL_PAGES == src;
    }
  }

  ghost predicate CallLow(k: Kernel, k': Kernel, c: nat, root: nat, env: Env, q: nat)
    requires Typed(k) && Typed(k') && c < NPROC && root < PageTable.POOL_PAGES
  {
    var r, r' := Call(k, c, c, root, env), Call(k', c, c, root, env);
    r'.1 == r.1 && Low(r.0, r'.0, q)
  }

  lemma {:induction false} CallsLow(k: Kernel, k': Kernel, loc: PageTable.Locations, c: nat, root: nat, env: Env,
                                    q: nat)
    requires Typed(k) && Typed(k') && Low(k, k', q) && k.current == Some(c) && c < NPROC && root < PageTable.POOL_PAGES
    requires k.procs[c].pagetable == Some(root) && k.satp == root && q != c
    requires KernelOk(k, loc)
    ensures CallLow(k, k', c, root, env, q)
  {
    hide KernelOk, Typed, SysRead, SysWrite, SysCat, Fork, Exit, Wait, SysSleep, Low, Space, ToInt32;
    OwnSpace(k, loc, c, root);
    SameRegs(k, k', q);
    TypedFrames(k, c);
    TypedFrames(k', c);
    var regs := k.tfs[c].regs;
    var n := regs[A7];
    if n == 0 { ReadLow(k, k', root, regs[A0], regs[A1], env, q); }
    else if n == 1 { WriteLow(k, k', loc, c, root, regs[A0], regs[A1], q); }
    else if n == 2 { ForkLow(k, k', loc, c, q); }
    else if n == 3 { ExitLow(k, k', loc, c, ToInt32(regs[A0]), q); }
    else if n == 4 { WaitLow(k, k', loc, c, root, q); }
    else if n == 6 { SleepLow(k, k', loc, c, regs[A0], q); }
    else if n == 9 { CatLow(k, k', loc, c, root, regs[A0], env, q); }
  }

  lemma {:induction false} TypedFrames(k: Kernel, c: nat)
    requires Typed(k) && c < NPROC
    ensures |k.tfs| == |k.procs| == NPROC && |k.tfs[c].regs| == 32
  {
    hide Layout;
  }

  lemma {:induction false} ExitLow(k: Kernel, k': Kernel, loc: PageTable.Locations, c: nat, status: int, q: nat)
    requires Typed(k) && Typed(k') && Low(k, k', q)
    requires KernelOk(k, loc) && k.current == Some(c)
    ensures Low(Exit(k, status), Exit(k', status), q)
  {
    hide KernelOk, Layout, Exit, With;
    LowIs(k, k', q);
    ExitBlind(k, status, k'.vm.frames);
    ExitBytes(k, loc, c, status);
    Kept(k, Exit(k, status), k'.vm.frames, q);
  }

  lemma {:induction false} WaitLow(k: Kernel, k': Kernel, loc: PageTable.Locations, c: nat, root: nat, q: nat)
    requires Typed(k) && Typed(k') && Low(k, k', q)
    requires KernelOk(k, loc) && k.current == Some(c) && k.procs[c].pagetable == Some(root) && k.satp == root
    ensures Low(Wait(k).0, Wait(k').0, q) && Wait(k').1 == Wait(k).1
  {
    hide KernelOk, Layout, Wait, With;
    LowIs(k, k', q);
    WaitBlind(k, k'.vm.frames);
    var loc' := WaitOk(k, loc, c);
    Kept(k, Wait(k).0, k'.vm.frames, q);
  }

  lemma {:induction false} SleepLow(k: Kernel, k': Kernel, loc: PageTable.Locations, c: nat, n: nat, q: nat)
    requires Typed(k) && Typed(k') && Low(k, k', q)
    requires KernelOk(k, loc) && k.current == Some(c)
    ensures Low(SysSleep(k, n), SysSleep(k', n), q)
  {
    hide KernelOk, Layout, SysSleep, With;
    Opened(k, loc);
    LowIs(k, k', q);
    SleepBlind(k, n, k'.vm.frames);
    SleepBytes(k, c, n);
    Kept(k, SysSleep(k, n), k'.vm.frames, q);
  }

  lemma {:induction false} SameRegs(k: Kernel, k': Kernel, q: nat)
    requires Low(k, k', q)
    ensures k'.tfs == k.tfs && k'.current == k.current && k'.procs == k.procs && k'.satp == k.satp
  {
  }

  /** After an operation that leaves user memory alone. */
  lemma {:induction false} Kept(k: Kernel, r: Kernel, g: seq<seq<Byte>>, q: nat)
    requires Typed(k) && Typed(r) && FramesOk(g) && SameBut(k.vm.frames, g, q) && r.vm.frames == k.vm.frames
    ensures Low(r, With(r, g), q)
  {
  }

  lemma {:induction false} OwnSpace(k: Kernel, loc: PageTable.Locations, c: nat, root: nat)
    requires Typed(k) && KernelOk(k, loc) && k.current == Some(c) && k.procs[c].pagetable == Some(root)
    ensures c < NPROC && Space(k.vm, loc, c, root)
  {
    hide Layout, Space, Core, TablesOk;
    ActiveRoot(k, loc, c);
  }

  lemma {:induction false} ReadLow(k: Kernel, k': Kernel, root: nat, uva: nat, len: nat, env: Env, q: nat)
    requires Typed(k) && Typed(k') && Low(k, k', q) && root < PageTable.POOL_PAGES
    ensures var r, r' := SysRead(k, root, uva, len, env), SysRead(k', root, uva, len, env);
            r'.1 == r.1 && Low(r.0, r'.0, q)
  {
    hide ReadLoop, PageTable.Shape, SameBut;
    if 0 < len <= 256 { ReadLoopLow(k.vm, k'.vm.frames, root, uva, len, env, 0, q); }
  }

  lemma {:induction false} WriteLow(k: Kernel, k': Kernel, loc: PageTable.Locations, c: nat, root: nat, uva: nat,
                                    len: nat,
                                    q: nat)
    requires Typed(k) && Typed(k') && Low(k, k', q) && Space(k.vm, loc, c, root) && q != c
    ensures SysWrite(k', root, uva, len) == SysWrite(k, root, uva, len)
    ensures WriteSends(k', root, uva, len) == WriteSends(k, root, uva, len)
  {
    hide CopyIn, SameBut, PageTable.Shape, BeforeNul;
    CopyInLow(k.vm, loc, c, root, k'.vm.frames, uva, if len > 1024 then 1024 else len, q);
  }

  lemma {:induction false} CatLow(k: Kernel, k': Kernel, loc: PageTable.Locations, c: nat, root: nat, uva: nat,
                                  env: Env,
                                  q: nat)
    requires Typed(k) && Typed(k') && Low(k, k', q) && Space(k.vm, loc, c, root) && q != c
    ensures SysCat(k', root, uva, env) == SysCat(k, root, uva, env)
  {
    hide CopyInStrFrom, SameBut, PageTable.Shape;
    CopyInStrLow(k.vm, loc, c, root, k'.vm.frames, uva, 32, [], q);
  }

  // ------------------------------------------------------------------ events

  lemma {:induction false} SyscallLow(k: Kernel, k': Kernel, loc: PageTable.Locations, c: nat, root: nat, env: Env,
                                      q: nat)
    requires Typed(k) && Typed(k') && Low(k, k', q) && k.current == Some(c) && c < NPROC && root < PageTable.POOL_PAGES
    requires k.procs[c].pagetable == Some(root) && k.satp == root && q != c
    requires KernelOk(k, loc)
    ensures Low(Syscall(k, c, c, root, env), Syscall(k', c, c, root, env), q)
  {
    hide KernelOk, Layout, Call;
    CallsLow(k, k', loc, c, root, env, q);
  }

  lemma {:induction false} HandleLow(k: Kernel, k': Kernel, loc: PageTable.Locations, c: nat, scause: nat, env: Env,
                                     q: nat)
    requires Typed(k) && Typed(k') && Low(k, k', q) && k.current == Some(c) && k'.current == Some(c) && c < NPROC
    requires k.procs[c].pagetable == Some(k.satp) && q != c
    requires KernelOk(k, loc)
    ensures Low(Handle(k, c, scause, env), Handle(k', c, scause, env), q)
  {
    hide Core, TablesOk, Handle, Syscall, Preempt, Exit, Tick, Layout, Low, With;
    CoreLinks(k);
    SameRegs(k, k', q);
    HandleIs(k, c, scause, env);
    HandleIs(k', c, scause, env);
    if scause == ECALL_U {
      var k2, k2' := AdvancePc(k, c), AdvancePc(k', c);
      AdvanceLow(k, k', c, q);
      FramesFree(k, k2, loc);
      SyscallLow(k2, k2', loc, c, k.satp, env, q);
    } else if scause == TIMER {
      var g := k'.vm.frames;
      LowIs(k, k', q);
      TickBlind(k, g);
      PreemptBlind(Tick(k), g);
      PreemptVm(k, c);
      LowFrames(k, k', q);
      Kept(k, Preempt(Tick(k)), g, q);
    } else {
      ExitLow(k, k', loc, c, -1, q);
    }
  }

  lemma {:induction false} LowFrames(k: Kernel, k': Kernel, q: nat)
    requires Low(k, k', q)
    ensures SameBut(k.vm.frames, k'.vm.frames, q)
  {
  }

  lemma {:induction false} AdvanceLow(k: Kernel, k': Kernel, c: nat, q: nat)
    requires Typed(k) && Typed(k') && Low(k, k', q) && c < NPROC
    ensures Low(AdvancePc(k, c), AdvancePc(k', c), q)
  {
  }

  lemma {:induction false} FallbackLow(k: Kernel, k': Kernel, q: nat)
    requires Typed(k) && Typed(k') && Low(k, k', q) && k.current.Some? && k'.current.Some?
    ensures Low(Fallback(k), Fallback(k'), q)
  {
    hide Layout, Probe;
  }

  lemma {:induction false} RestoreLow(k: Kernel, k': Kernel, q: nat)
    requires Typed(k) && Typed(k') && Low(k, k', q) && k.current.Some? && k'.current.Some?
    ensures LowMachine(Restore(k), Restore(k'), q)
  {
    hide Layout;
  }

  lemma {:induction false} FinishLow(m: Machine, m': Machine, k: Kernel, k': Kernel, q: nat)
    requires WellFormed(m) && WellFormed(m') && LowMachine(m, m', q) && Typed(k) && Typed(k') && Low(k, k', q)
    ensures LowMachine(Finish(m, k), Finish(m', k'), q)
  {
    hide Layout, Fallback, Restore;
    SameRegs(k, k', q);
    if k.current.Some? {
      FallbackLow(k, k', q);
      RestoreLow(Fallback(k), Fallback(k'), q);
    }
  }

  lemma {:induction false} SaveLow(m: Machine, m': Machine, scause: nat, q: nat)
    requires WellFormed(m) && WellFormed(m') && LowMachine(m, m', q)
    ensures Low(Save(m, scause), Save(m', scause), q)
  {
  }

  lemma {:induction false} IdleLow(k: Kernel, k': Kernel, q: nat)
    requires Typed(k) && Typed(k') && Low(k, k', q)
    requires NoneRunning(k.procs) && k.lastSlot >= 0
    ensures Low(Dispatch(Tick(k)), Dispatch(Tick(k')), q)
  {
    hide Layout, Dispatch, Tick, With, Low;
    LowIs(k, k', q);
    LowFrames(k, k', q);
    var g := k'.vm.frames;
    TickBlind(k, g);
    DispatchBlind(Tick(k), g);
    IdleFrames(k);
    Kept(k, Dispatch(Tick(k)), g, q);
  }

  lemma {:induction false} IdleFrames(k: Kernel)
    requires Typed(k)
    ensures Dispatch(Tick(k)).vm == k.vm
  {
    hide Layout, Probe;
  }

  /** A store by the running process does the same to both memories. */
  lemma {:induction false} StoreLow(vm: Vm, vm': Vm, root: nat, va: nat, b: Byte, q: nat)
    requires Layout(vm) && Layout(vm') && vm' == vm.(frames := vm'.frames) && SameBut(vm.frames, vm'.frames, q)
    requires root < PageTable.POOL_PAGES
    ensures var r, r' := StoreByte(vm, root, va, b), StoreByte(vm', root, va, b);
            && (r.None? <==> r'.None?)
            && (r.Some? ==>
                  r'.value == r.value.(frames := r'.value.frames) && SameBut(r.value.frames, r'.value.frames, q))
  {
    hide PageTable.HardwareTranslate, PageTable.Shape;
  }

  lemma {:induction false} UserLow(m: Machine, m': Machine, regs: seq<nat>, pc: nat, store: Option<(nat, Byte)>, q: nat)
    requires WellFormed(m) && WellFormed(m') && LowMachine(m, m', q) && |regs| == 32 && regs[0] == 0
    ensures LowMachine(UserStep(m, regs, pc, store), UserStep(m', regs, pc, store), q)
  {
    hide Layout, StoreByte, SameBut;
    if store.Some? { StoreLow(m.k.vm, m'.k.vm, m.k.satp, store.value.0, store.value.1, q); }
  }

  /** The bytes an event puts on the console through write. */
  function Console(m: Machine, ev: Event): seq<Byte>
    requires WellFormed(m)
  {
    if ev.Trap? && ev.scause == ECALL_U && m.regs[17] == 1
    then WriteSends(m.k, m.k.satp, m.regs[A0], m.regs[A1]) else []
  }

  ghost predicate StepAlike(m: Machine, m': Machine, ev: Event, q: nat)
    requires WellFormed(m) && WellFormed(m')
  {
    && Enabled(m, ev) && Enabled(m', ev) && LowMachine(Step(m, ev), Step(m', ev), q)
    && Console(m', ev) == Console(m, ev)
  }

  lemma {:induction false} TrapLow(m: Machine, m': Machine, scause: nat, env: Env, q: nat, loc: PageTable.Locations)
    requires WellFormed(m) && WellFormed(m') && LowMachine(m, m', q) && m.k.current.Some? && !Ran(m.k, q)
    requires Inv(m, loc)
    ensures StepAlike(m, m', Trap(scause, env), q)
  {
    hide Core, TablesOk, Layout, Handle, Finish, Save, Low, WriteSends;
    SameRegs(m.k, m'.k, q);
    Opened(m.k, loc);
    var c := m.k.current.value;
    SaveOk(m, loc, scause);
    SaveShape(m, scause);
    SaveShape(m', scause);
    SaveLow(m, m', scause, q);
    HandleLow(Save(m, scause), Save(m', scause), loc, c, scause, env, q);
    FinishLow(m, m', Handle(Save(m, scause), c, scause, env), Handle(Save(m', scause), c, scause, env), q);
    OwnSpace(m.k, loc, c, m.k.satp);
    WriteLow(m.k, m'.k, loc, c, m.k.satp, m.regs[A0], m.regs[A1], q);
  }

  /** One event, while slot q is not the running one. */
  lemma {:induction false} StepLow(m: Machine, m': Machine, ev: Event, q: nat, loc: PageTable.Locations)
    requires WellFormed(m) && WellFormed(m') && LowMachine(m, m', q) && Enabled(m, ev) && !Ran(m.k, q)
    requires Inv(m, loc)
    ensures StepAlike(m, m', ev, q)
  {
    hide Core, TablesOk, Layout, Handle, Finish, Dispatch, Tick, Save, UserStep, Low, WriteSends;
    SameRegs(m.k, m'.k, q);
    Opened(m.k, loc);
    match ev
    case UserRun(regs, pc, store) => UserLow(m, m', regs, pc, store, q);
    case Trap(scause, env) => TrapLow(m, m', scause, env, q, loc);
    case IdleTick =>
      IdleLow(m.k, m'.k, q);
      FinishLow(m, m', Dispatch(Tick(m.k)), Dispatch(Tick(m'.k)), q);
  }

  /** The console over a whole run. */
  function ConsoleOf(m: Machine, evs: seq<Event>): seq<Byte>
    requires WellFormed(m) && CanRun(m, evs)
    decreases |evs|
  {
    if evs == [] then [] else Console(m, evs[0]) + ConsoleOf(Step(m, evs[0]), evs[1..])
  }

  ghost predicate RunAlike(m: Machine, m': Machine, evs: seq<Event>, q: nat)
    requires WellFormed(m) && WellFormed(m')
  {
    && CanRun(m, evs) && CanRun(m', evs) && LowMachine(Run(m, evs), Run(m', evs), q)
    && ConsoleOf(m', evs) == ConsoleOf(m, evs)
  }

  /** Confidentiality over two runs: from states that differ in the user bytes of slot q only, and for as long as q is
   *  not dispatched, the same events are possible and lead to states that differ in those bytes only: every register,
   *  trapframe, page table, every other process's memory, the process table and the order of dispatch agree, and so
   *  does what write puts on the console. */
  lemma {:induction false} Confidential(m: Machine, m': Machine, evs: seq<Event>, q: nat, loc: PageTable.Locations)
    requires WellFormed(m) && WellFormed(m') && LowMachine(m, m', q) && !Ran(m.k, q)
    requires CanRun(m, evs) && NeverRuns(m, evs, q)
    requires Inv(m, loc)
    ensures RunAlike(m, m', evs, q)
    decreases |evs|
  {
    hide KernelOk, Seated, Layout, Step, LowMachine, Console;
    if evs != [] {
      StepLow(m, m', evs[0], q, loc);
      var loc1 := StepKeeps(m, loc, evs[0]);
      Confidential(Step(m, evs[0]), Step(m', evs[0]), evs[1..], q, loc1);
    }
  }
}
