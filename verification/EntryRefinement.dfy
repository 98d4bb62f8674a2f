/** The instruction sequences of kernel/entry.S carry out the Save and Restore steps of the machine model on
 *  the trapframe array in memory. */
module EntryRefinement {
  import opened AddressSpace
  import opened Process
  import opened Machine
  import E = TrapEntry

  const FRAME_BYTES := 288    // sizeof(trapframe_t)

  /** Where trapframes[] and kernel_stacks[] lie. */
  datatype Places = Places(frames: nat, stacks: nat)

  function FrameAddr(at: Places, i: nat): nat { at.frames + FRAME_BYTES * i }
  function StackTop(at: Places, i: nat): nat { at.stacks + 4096 * (i + 1) }

  ghost predicate HoldsFrame(mem: map<nat, nat>, at: Places, i: nat, f: TrapFrame)
    requires |f.regs| == 32
  {
    && E.FrameHolds(mem, FrameAddr(at, i), f.regs, f.sepc, f.sstatus)
    && E.Word(mem, FrameAddr(at, i) + 272) == f.scause
    && E.Word(mem, FrameAddr(at, i) + 280) == StackTop(at, f.kernelStack)
  }

  ghost predicate HoldsFrames(mem: map<nat, nat>, at: Places, tfs: seq<TrapFrame>)
    requires |tfs| == NPROC && forall i :: 0 <= i < NPROC ==> |tfs[i].regs| == 32
  {
    forall i: nat :: i < NPROC ==> HoldsFrame(mem, at, i, tfs[i])
  }

  /** The hart at the moment of a trap out of machine m. */
  ghost predicate Trapped(h: E.Hart, at: Places, m: Machine, scause: nat)
    requires WellFormed(m)
  {
    && E.Ok(h) && h.regs == m.regs && h.sepc == m.pc && h.sstatus == m.sstatus && h.scause == scause
    && h.sscratch == FrameAddr(at, m.sscratch) && HoldsFrames(h.mem, at, m.k.tfs)
  }

  lemma {:induction false} OtherFrame(mem: map<nat, nat>, mem': map<nat, nat>, at: Places, t: nat, i: nat, f: TrapFrame)
    requires t < NPROC && i < NPROC && i != t && |f.regs| == 32 && HoldsFrame(mem, at, i, f)
    requires forall a: nat :: a < FrameAddr(at, t) || FrameAddr(at, t) + 280 <= a ==> E.Word(mem', a) == E.Word(mem, a)
    ensures HoldsFrame(mem', at, i, f)
  {
    var b := FrameAddr(at, i);
    forall x: nat | x < 36 ensures E.Word(mem', b + 8 * x) == E.Word(mem, b + 8 * x) {}
    forall x: nat | x < 32 ensures E.Word(mem', b + 8 * x) == f.regs[x] {}
    assert E.Word(mem', b + 8 * 32) == E.Word(mem, b + 8 * 32) && E.Word(mem', b + 8 * 33) == E.Word(mem, b + 8 * 33);
    assert E.Word(mem', b + 8 * 34) == E.Word(mem, b + 8 * 34) && E.Word(mem', b + 8 * 35) == E.Word(mem, b + 8 * 35);
  }

  /** user_trap_entry performs Save, hands the frame to trap_handler in a0 and runs on the process's own
   *  kernel stack. */
  lemma {:induction false} EntryRefinesSave(h: E.Hart, at: Places, m: Machine, scause: nat)
    requires WellFormed(m) && Trapped(h, at, m, scause)
    ensures var r := E.SaveAll(h);
            && HoldsFrames(r.mem, at, Save(m, scause).tfs)
            && r.regs[E.A0] == FrameAddr(at, m.sscratch)
            && r.regs[E.SP] == StackTop(at, m.k.tfs[m.sscratch].kernelStack)
  {
    hide E.SaveAll, Layout;
    var t := m.sscratch;
    E.SaveSaves(h);
    var r := E.SaveAll(h);
    assert HoldsFrame(h.mem, at, t, m.k.tfs[t]);
    var tfs := Save(m, scause).tfs;
    forall i: nat | i < NPROC ensures HoldsFrame(r.mem, at, i, tfs[i]) {
      assert HoldsFrame(h.mem, at, i, m.k.tfs[i]);
      if i != t { OtherFrame(h.mem, r.mem, at, t, i, m.k.tfs[i]); }
      else { assert E.Word(r.mem, FrameAddr(at, t) + 280) == E.Word(h.mem, FrameAddr(at, t) + 280); }
    }
  }

  /** restore_user_or_idle, given the frame of the selected process, performs Restore. */
  lemma {:induction false} ExitRefinesRestore(h: E.Hart, at: Places, k: Kernel)
    requires Typed(k) && k.current.Some? && E.Ok(h) && HoldsFrames(h.mem, at, k.tfs)
    requires h.regs[E.A0] == FrameAddr(at, k.procs[k.current.value].tf)
    ensures var r, m := E.RestoreAll(h), Restore(k);
            && r.regs == m.regs && r.sepc == m.pc && r.sstatus == m.sstatus
            && r.sscratch == FrameAddr(at, m.sscratch) && r.mem == h.mem
  {
    hide E.RestoreAll, Layout;
    var t := k.procs[k.current.value].tf;
    var f := k.tfs[t];
    assert HoldsFrame(h.mem, at, t, f);
    E.RestoreRestores(h, f.regs, f.sepc, f.sstatus);
  }
}
