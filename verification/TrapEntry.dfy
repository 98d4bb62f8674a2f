/** user_trap_entry and restore_user_or_idle of kernel/entry.S, instruction by instruction. */
module TrapEntry {
  const ZERO := 0
  const SP := 2
  const T0 := 5
  const A0 := 10
  const A1 := 11
  const T6 := 31

  datatype Csr = Sscratch | Sepc | Sstatus | Scause

  datatype Instr =
    | Sd(src: nat, off: nat, base: nat)       // sd src, off(base)
    | Ld(dst: nat, off: nat, base: nat)       // ld dst, off(base)
    | Mv(dst: nat, src: nat)                  // mv dst, src
    | SwapScratch(reg: nat)                   // csrrw reg, sscratch, reg
    | Csrr(dst: nat, csr: Csr)                // csrr dst, csr
    | Csrw(csr: Csr, src: nat)                // csrw csr, src

  /** mem is the word at each byte address; an address never written reads as 0. */
  datatype Hart = Hart(regs: seq<nat>, sscratch: nat, sepc: nat, sstatus: nat, scause: nat, mem: map<nat, nat>)

  predicate Ok(h: Hart) { |h.regs| == 32 && h.regs[ZERO] == 0 }

  predicate Legal(i: Instr) {
    match i
    case Sd(s, _, b) => s < 32 && b < 32
    case Ld(d, _, b) => d < 32 && b < 32
    case Mv(d, s) => d < 32 && s < 32
    case SwapScratch(r) => r < 32
    case Csrr(d, _) => d < 32
    case Csrw(_, s) => s < 32
  }

  function Word(mem: map<nat, nat>, a: nat): nat { if a in mem then mem[a] else 0 }

  /** Register x0 ignores writes. */
  function SetReg(h: Hart, d: nat, w: nat): (r: Hart)
    requires Ok(h) && d < 32
    ensures Ok(r)
  {
    if d == ZERO then h else h.(regs := h.regs[d := w])
  }

  function ReadCsr(h: Hart, c: Csr): nat {
    match c case Sscratch => h.sscratch case Sepc => h.sepc case Sstatus => h.sstatus case Scause => h.scause
  }

  function Exec(h: Hart, i: Instr): (r: Hart)
    requires Ok(h) && Legal(i)
    ensures Ok(r)
  {
    match i
    case Sd(s, off, b) => h.(mem := h.mem[h.regs[b] + off := h.regs[s]])
    case Ld(d, off, b) => SetReg(h, d, Word(h.mem, h.regs[b] + off))
    case Mv(d, s) => SetReg(h, d, h.regs[s])
    case SwapScratch(r) => SetReg(h, r, h.sscratch).(sscratch := h.regs[r])
    case Csrr(d, c) => SetReg(h, d, ReadCsr(h, c))
    case Csrw(c, s) =>
      match c
      case Sscratch => h.(sscratch := h.regs[s])
      case Sepc => h.(sepc := h.regs[s])
      case Sstatus => h.(sstatus := h.regs[s])
      case Scause => h.(scause := h.regs[s])
  }

  predicate AllLegal(prog: seq<Instr>) { forall i :: 0 <= i < |prog| ==> Legal(prog[i]) }

  function Execute(h: Hart, prog: seq<Instr>): (r: Hart)
    requires Ok(h) && AllLegal(prog)
    ensures Ok(r)
    decreases |prog|
  {
    if prog == [] then h else Execute(Exec(h, prog[0]), prog[1..])
  }

  // ------------------------------------------------------------ the programs

  /** The 31 stores of user_trap_entry, a0 holding the frame: register r at offset 8 * r, in order, a0 left out. */
  function StoreBlock(): seq<Instr> {
    seq(31, i requires 0 <= i < 31 => var r := if i < 10 then i else i + 1; Sd(r, 8 * r, A0))
  }

  /** csrr t0, csr; sd t0, off(a0) */
  function StoreCsr(h: Hart, c: Csr, off: nat): (r: Hart)
    requires Ok(h)
    ensures Ok(r)
  {
    Exec(Exec(h, Csrr(T0, c)), Sd(T0, off, A0))
  }

  /** After the stores: the kernel stack, a0 fetched back from sscratch, and the trap CSRs. */
  function SaveTail(h: Hart): (r: Hart)
    requires Ok(h)
    ensures Ok(r)
  {
    var h1 := Exec(Exec(h, Ld(A1, 280, A0)), Mv(SP, A1));
    StoreCsr(StoreCsr(StoreCsr(StoreCsr(h1, Sscratch, 80), Sepc, 256), Sstatus, 264), Scause, 272)
  }

  /** The start of restore_user_or_idle: t6 takes the frame, sepc and sstatus are reloaded, sscratch set. */
  function RestoreHead(h: Hart): (r: Hart)
    requires Ok(h)
    ensures Ok(r)
  {
    var h1 := Exec(h, Mv(T6, A0));
    var h2 := Exec(Exec(h1, Ld(T0, 256, T6)), Csrw(Sepc, T0));
    var h3 := Exec(Exec(h2, Ld(T0, 264, T6)), Csrw(Sstatus, T0));
    Exec(h3, Csrw(Sscratch, T6))
  }

  /** The 30 loads before the last, t6 holding the frame: registers 1 to 30 in order. */
  function LoadBlock(): seq<Instr> { seq(30, i requires 0 <= i < 30 => Ld(i + 1, 8 * (i + 1), T6)) }

  // -------------------------------------------------------------- block lemmas

  predicate IsStore(i: Instr) { i.Sd? && i.src < 32 && i.base == A0 && i.off == 8 * i.src }
  predicate IsLoad(i: Instr) { i.Ld? && 0 < i.dst < 31 && i.base == T6 && i.off == 8 * i.dst }

  predicate Stores(prog: seq<Instr>, r: nat) { exists i :: 0 <= i < |prog| && prog[i].Sd? && prog[i].src == r }
  predicate Loads(prog: seq<Instr>, r: nat) { exists i :: 0 <= i < |prog| && prog[i].Ld? && prog[i].dst == r }

  lemma {:induction false} StoreBlockEffect(h: Hart, prog: seq<Instr>)
    requires Ok(h) && AllLegal(prog) && forall i :: 0 <= i < |prog| ==> IsStore(prog[i])
    ensures var r := Execute(h, prog);
            && r == h.(mem := r.mem)
            && (forall x: nat :: x < 32 ==>
                  Word(r.mem, h.regs[A0] + 8 * x)
                    == if Stores(prog, x) then h.regs[x] else Word(h.mem, h.regs[A0] + 8 * x))
            && (forall a: nat :: a < h.regs[A0] || h.regs[A0] + 256 <= a ==> Word(r.mem, a) == Word(h.mem, a))
    decreases |prog|
  {
    hide Stores;
    if prog == [] {
      forall x: nat ensures !Stores(prog, x) { NothingStored(x); }
    } else {
      var first, rest := prog[0], prog[1..];
      StoreBlockEffect(Exec(h, first), rest);
      forall x: nat ensures Stores(prog, x) <==> x == first.src || Stores(rest, x) { StoresCons(prog, x); }
    }
  }

  lemma {:induction false} NothingStored(x: nat)
    ensures !Stores([], x)
  {
  }

  lemma {:induction false} StoresCons(prog: seq<Instr>, x: nat)
    requires prog != [] && prog[0].Sd?
    ensures Stores(prog, x) <==> x == prog[0].src || Stores(prog[1..], x)
  {
    var rest := prog[1..];
    if Stores(rest, x) {
      var i :| 0 <= i < |rest| && rest[i].Sd? && rest[i].src == x;
      assert prog[i + 1] == rest[i];
    }
    if Stores(prog, x) && x != prog[0].src {
      var i :| 0 <= i < |prog| && prog[i].Sd? && prog[i].src == x;
      assert rest[i - 1] == prog[i];
    }
  }

  lemma {:induction false} LoadBlockEffect(h: Hart, prog: seq<Instr>)
    requires Ok(h) && AllLegal(prog) && forall i :: 0 <= i < |prog| ==> IsLoad(prog[i])
    ensures var r := Execute(h, prog);
            && r == h.(regs := r.regs)
            && r.regs[T6] == h.regs[T6]
            && (forall x: nat :: x < 32 && Loads(prog, x) ==> r.regs[x] == Word(h.mem, h.regs[T6] + 8 * x))
            && (forall x: nat :: x < 32 && !Loads(prog, x) ==> r.regs[x] == h.regs[x])
    decreases |prog|
  {
    if prog != [] {
      var first, rest := prog[0], prog[1..];
      LoadBlockEffect(Exec(h, first), rest);
      forall x: nat | x < 32 ensures Loads(prog, x) <==> x == first.dst || Loads(rest, x) {
        if Loads(rest, x) {
          var i :| 0 <= i < |rest| && rest[i].Ld? && rest[i].dst == x;
          assert prog[i + 1] == rest[i];
        }
        if Loads(prog, x) && x != first.dst {
          var i :| 0 <= i < |prog| && prog[i].Ld? && prog[i].dst == x;
          assert rest[i - 1] == prog[i];
        }
        assert prog[0].Ld?;
      }
    }
  }

  lemma {:induction false} StoreBlockShape()
    ensures |StoreBlock()| == 31 && AllLegal(StoreBlock())
    ensures forall i :: 0 <= i < 31 ==> IsStore(StoreBlock()[i]) && StoreBlock()[i].src == (if i < 10 then i else i + 1)
  {
  }

  lemma {:induction false} LoadBlockShape()
    ensures |LoadBlock()| == 30 && AllLegal(LoadBlock())
    ensures forall i :: 0 <= i < 30 ==> IsLoad(LoadBlock()[i]) && LoadBlock()[i].dst == i + 1
  {
  }

  lemma {:induction false} StoreBlockCovers(x: nat)
    requires x < 32
    ensures Stores(StoreBlock(), x) <==> x != A0
  {
    hide StoreBlock;
    StoreBlockShape();
    if x != A0 {
      var i := if x < A0 then x else x - 1;
      assert StoreBlock()[i].src == x;
    }
  }

  lemma {:induction false} LoadBlockCovers(x: nat)
    requires x < 32
    ensures Loads(LoadBlock(), x) <==> 1 <= x <= 30
  {
    hide LoadBlock;
    LoadBlockShape();
    if 1 <= x <= 30 { assert LoadBlock()[x - 1].dst == x; }
  }

  // ------------------------------------------------------------- the theorems

  /** user_trap_entry as a whole. */
  function SaveAll(h: Hart): (r: Hart)
    requires Ok(h)
    ensures Ok(r)
  {
    StoreBlockShape();
    SaveTail(Execute(Exec(h, SwapScratch(A0)), StoreBlock()))
  }

  /** restore_user_or_idle as a whole, up to sret. */
  function RestoreAll(h: Hart): (r: Hart)
    requires Ok(h)
    ensures Ok(r)
  {
    LoadBlockShape();
    Exec(Execute(RestoreHead(h), LoadBlock()), Ld(T6, 248, T6))
  }

  /** The frame at address t holds these registers, pc and status. */
  ghost predicate FrameHolds(mem: map<nat, nat>, t: nat, regs: seq<nat>, sepc: nat, sstatus: nat)
    requires |regs| == 32
  {
    && (forall x: nat :: x < 32 ==> Word(mem, t + 8 * x) == regs[x])
    && Word(mem, t + 256) == sepc && Word(mem, t + 264) == sstatus
  }

  lemma {:induction false} StoreCsrEffect(h: Hart, c: Csr, off: nat)
    requires Ok(h)
    ensures StoreCsr(h, c, off)
         == h.(regs := h.regs[T0 := ReadCsr(h, c)], mem := h.mem[h.regs[A0] + off := ReadCsr(h, c)])
  {
  }

  lemma {:induction false} SaveTailEffect(h: Hart)
    requires Ok(h)
    ensures var r := SaveTail(h);
            var t := h.regs[A0];
            && r.regs[A0] == t && r.regs[SP] == Word(h.mem, t + 280)
            && r.mem == h.mem[t + 80 := h.sscratch][t + 256 := h.sepc][t + 264 := h.sstatus][t + 272 := h.scause]
  {
    hide StoreCsr;
    var h1 := Exec(Exec(h, Ld(A1, 280, A0)), Mv(SP, A1));
    StoreCsrEffect(h1, Sscratch, 80);
    var h2 := StoreCsr(h1, Sscratch, 80);
    StoreCsrEffect(h2, Sepc, 256);
    var h3 := StoreCsr(h2, Sepc, 256);
    StoreCsrEffect(h3, Sstatus, 264);
    StoreCsrEffect(StoreCsr(h3, Sstatus, 264), Scause, 272);
  }

  /** Entry saves every user register, a0 included, with pc, status and cause, in the frame sscratch names;
   *  it leaves that frame in a0, its kernel stack in sp, and all other memory alone. */
  lemma {:induction false} SaveSaves(h: Hart)
    requires Ok(h)
    ensures var r := SaveAll(h);
            var t := h.sscratch;
            && FrameHolds(r.mem, t, h.regs, h.sepc, h.sstatus) && Word(r.mem, t + 272) == h.scause
            && r.regs[A0] == t && r.regs[SP] == Word(h.mem, t + 280)
            && (forall a: nat :: a < t || t + 280 <= a ==> Word(r.mem, a) == Word(h.mem, a))
  {
    hide Exec, StoreBlock, SaveTail, Execute, Stores;
    StoreBlockShape();
    var h1 := Exec(h, SwapScratch(A0));
    SwapEffect(h);
    var h2 := Execute(h1, StoreBlock());
    StoreBlockEffect(h1, StoreBlock());
    forall x: nat | x < 32 ensures Stores(StoreBlock(), x) <==> x != A0 { StoreBlockCovers(x); }
    SaveTailEffect(h2);
    var r, t := SaveAll(h), h.sscratch;
    assert r == SaveTail(h2);
    forall x: nat | x < 32 ensures Word(r.mem, t + 8 * x) == h.regs[x] {
      if x != A0 {
        assert Stores(StoreBlock(), x);
        assert Word(h2.mem, h1.regs[A0] + 8 * x) == h1.regs[x];
        assert t + 8 * x != t + 80;
      }
    }
    assert Word(h2.mem, t + 280) == Word(h.mem, t + 280);
    forall a: nat | a < t || t + 280 <= a ensures Word(r.mem, a) == Word(h.mem, a) {
      assert Word(h2.mem, a) == Word(h.mem, a);
    }
  }

  lemma {:induction false} SwapEffect(h: Hart)
    requires Ok(h)
    ensures Exec(h, SwapScratch(A0)) == h.(regs := h.regs[A0 := h.sscratch], sscratch := h.regs[A0])
  {
  }

  lemma {:induction false} RestoreHeadEffect(h: Hart)
    requires Ok(h)
    ensures var r := RestoreHead(h);
            var t := h.regs[A0];
            r.regs[T6] == t && r.sscratch == t && r.sepc == Word(h.mem, t + 256) && r.sstatus == Word(h.mem, t + 264)
            && r.mem == h.mem
  {
  }

  /** The words the exit sequence reads from the frame at t: x0 has one too, but nothing loads it. */
  ghost predicate FrameGives(mem: map<nat, nat>, t: nat, regs: seq<nat>, sepc: nat, sstatus: nat)
    requires |regs| == 32
  {
    && (forall x: nat :: 0 < x < 32 ==> Word(mem, t + 8 * x) == regs[x])
    && Word(mem, t + 256) == sepc && Word(mem, t + 264) == sstatus
  }

  /** Exit loads the 31 registers, pc and status from the frame in a0, and leaves that frame in sscratch. */
  lemma {:induction false} RestoreRestores(h: Hart, regs: seq<nat>, sepc: nat, sstatus: nat)
    requires Ok(h) && |regs| == 32 && FrameGives(h.mem, h.regs[A0], regs, sepc, sstatus)
    ensures var r := RestoreAll(h);
            && r.regs == regs[ZERO := 0] && r.sepc == sepc && r.sstatus == sstatus
            && r.sscratch == h.regs[A0] && r.mem == h.mem
  {
    hide LoadBlock, RestoreHead, Execute, Loads;
    LoadBlockShape();
    RestoreHeadEffect(h);
    var h1 := RestoreHead(h);
    LoadBlockEffect(h1, LoadBlock());
    var h2 := Execute(h1, LoadBlock());
    var r := Exec(h2, Ld(T6, 248, T6));
    var want := regs[ZERO := 0];
    forall x: nat | x < 32 ensures r.regs[x] == want[x] { LoadBlockCovers(x); }
    assert r.regs == want;
  }

  /** Save then restore is the identity on the user's registers, pc and status, whatever the kernel does to
   *  the registers in between, as long as it returns the same frame unchanged. */
  lemma {:induction false} SaveThenRestore(h: Hart, k: Hart)
    requires Ok(h) && Ok(k)
    requires k.regs[A0] == h.sscratch
    requires forall x: nat :: x < 34 ==> Word(k.mem, h.sscratch + 8 * x) == Word(SaveAll(h).mem, h.sscratch + 8 * x)
    ensures var r := RestoreAll(k);
            r.regs == h.regs && r.sepc == h.sepc && r.sstatus == h.sstatus && r.sscratch == h.sscratch
  {
    hide SaveAll, RestoreAll;
    SaveSaves(h);
    var t := h.sscratch;
    assert Word(k.mem, t + 8 * 32) == h.sepc && Word(k.mem, t + 8 * 33) == h.sstatus;
    forall x: nat | x < 32 ensures Word(k.mem, t + 8 * x) == h.regs[x] {}
    RestoreRestores(k, h.regs, h.sepc, h.sstatus);
    assert h.regs[ZERO := 0] == h.regs;
  }
}
