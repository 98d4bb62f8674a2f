/** Sv39 words and the hardware translation algorithm.
 *
 *  A page-table entry is kept as a record of its fields.  The first half of
 *  this module shows that the record and the 64-bit word that vm.c shifts and
 *  masks carry the same information; the rest of the project then works on
 *  records.  The second half is the translation algorithm of section 4.3.2 of
 *  the RISC-V Privileged Architecture (version 20211203), instantiated for
 *  Sv39 (section 4.4) with SUM = MXR = 0, which is how the kernel runs.
 */
module Sv39 {

  const PGSIZE := 4096
  const ENTRIES := 512
  const VPN_LIMIT := 0x800_0000        // 2^27 virtual pages
  const VA_LIMIT := 0x80_0000_0000     // 2^39
  const TWO64 := 0x1_0000_0000_0000_0000

  datatype Pte = Pte(ppn: nat, v: bool, r: bool, w: bool, x: bool, u: bool, a: bool, d: bool)
  datatype Perm = Perm(r: bool, w: bool, x: bool, u: bool)

  const EMPTY := Pte(0, false, false, false, false, false, false, false)

  /** The pointer entry vm.c stores for a child table. */
  function TablePte(ppn: nat): Pte {
    Pte(ppn, true, false, false, false, false, false, false)
  }

  /** The leaf entry vm.c stores: V and A always, D exactly for writable pages. */
  function LeafPte(ppn: nat, perm: Perm): Pte {
    Pte(ppn, true, perm.r, perm.w, perm.x, perm.u, true, perm.w)
  }

  predicate IsLeaf(e: Pte) { e.v && (e.r || e.w || e.x) }

  // ---------------------------------------------------------------- words

  function Bit(b: bool): nat { if b then 1 else 0 }

  function Flags(e: Pte): (f: nat)
    ensures f < 256
  {
    Bit(e.v) + 2 * Bit(e.r) + 4 * Bit(e.w) + 8 * Bit(e.x) + 16 * Bit(e.u) + 64 * Bit(e.a) + 128 * Bit(e.d)
  }

  /** The 64-bit word of an entry: PPN from bit 10 up, flags below. */
  function Encode(e: Pte): nat { e.ppn * 1024 + Flags(e) }

  /** `word & (1 << k)` as a test. */
  predicate TestBit(word: nat, mask: nat)
    requires mask > 0
  {
    word / mask % 2 == 1
  }

  function Pa2Pte(pa: nat): nat { pa / 4096 * 1024 % TWO64 }
  function Pte2Pa(word: nat): nat { word / 1024 * 4096 % TWO64 }

  function Decode(word: nat): Pte {
    Pte(word / 1024, TestBit(word, 1), TestBit(word, 2), TestBit(word, 4), TestBit(word, 8),
        TestBit(word, 16), TestBit(word, 64), TestBit(word, 128))
  }

  /** Bitwise or on naturals. */
  function BitOr(x: nat, y: nat): nat
    decreases x + y
  {
    if x == 0 then y else if y == 0 then x
    else Bit(x % 2 == 1 || y % 2 == 1) + 2 * BitOr(x / 2, y / 2)
  }

  function PermBits(p: Perm): nat { 2 * Bit(p.r) + 4 * Bit(p.w) + 8 * Bit(p.x) + 16 * Bit(p.u) }

  /** The word mappages computes for a leaf, with C's own operators. */
  function LeafWord(pa: nat, perm: Perm): nat {
    var base := BitOr(BitOr(BitOr(Pa2Pte(pa), PermBits(perm)), 1), 64);
    if perm.w then BitOr(base, 128) else base
  }

  /** The word mappages computes for a child table. */
  function TableWord(pa: nat): nat { BitOr(Pa2Pte(pa), 1) }

  /** Decoding recovers every field of an entry whose address fits in a word. */
  lemma {:induction false} DecodeEncode(e: Pte)
    requires e.ppn < 0x10_0000_0000_0000
    ensures Decode(Encode(e)) == e
    ensures Pte2Pa(Encode(e)) == e.ppn * PGSIZE
  {
    var f := Flags(e);
    assert Encode(e) / 1024 == e.ppn;
    FlagBits(e);
  }

  /** Bit k of hi * 2k + b * k + lo is b. */
  lemma {:induction false} MidBit(k: nat, hi: nat, b: nat, lo: nat)
    requires k == 1 || k == 2 || k == 4 || k == 8 || k == 16 || k == 64 || k == 128
    requires lo < k && b < 2
    ensures (hi * (2 * k) + b * k + lo) / k % 2 == b
  {
    assert (hi * (2 * k) + b * k + lo) / k == 2 * hi + b;
  }

  /** The flag bits of an assembled word, over plain numbers. */
  lemma {:induction false} AssembledBits(p: nat, v: nat, r: nat, w: nat, x: nat, u: nat, a: nat, d: nat)
    requires v < 2 && r < 2 && w < 2 && x < 2 && u < 2 && a < 2 && d < 2
    ensures var e := p * 1024 + v + 2 * r + 4 * w + 8 * x + 16 * u + 64 * a + 128 * d;
            && e / 1 % 2 == v && e / 2 % 2 == r && e / 4 % 2 == w && e / 8 % 2 == x
            && e / 16 % 2 == u && e / 64 % 2 == a && e / 128 % 2 == d
  {
    MidBit(1, p * 512 + r + 2 * w + 4 * x + 8 * u + 32 * a + 64 * d, v, 0);
    MidBit(2, p * 256 + w + 2 * x + 4 * u + 16 * a + 32 * d, r, v);
    MidBit(4, p * 128 + x + 2 * u + 8 * a + 16 * d, w, v + 2 * r);
    MidBit(8, p * 64 + u + 4 * a + 8 * d, x, v + 2 * r + 4 * w);
    MidBit(16, p * 32 + 2 * a + 4 * d, u, v + 2 * r + 4 * w + 8 * x);
    MidBit(64, p * 8 + d, a, v + 2 * r + 4 * w + 8 * x + 16 * u);
    MidBit(128, p * 4, d, v + 2 * r + 4 * w + 8 * x + 16 * u + 64 * a);
  }

  lemma {:induction false} FlagBits(e: Pte)
    ensures var w := Encode(e);
            && TestBit(w, 1) == e.v && TestBit(w, 2) == e.r && TestBit(w, 4) == e.w && TestBit(w, 8) == e.x
            && TestBit(w, 16) == e.u && TestBit(w, 64) == e.a && TestBit(w, 128) == e.d
  {
    AssembledBits(e.ppn, Bit(e.v), Bit(e.r), Bit(e.w), Bit(e.x), Bit(e.u), Bit(e.a), Bit(e.d));
  }

  /** x shifted left by k bits */
  function Shl(x: nat, k: nat): nat { if k == 0 then x else 2 * Shl(x, k - 1) }

  lemma {:induction false} ShlIs(x: nat)
    ensures Shl(x, 0) == x && Shl(x, 6) == 64 * x && Shl(x, 7) == 128 * x && Shl(x, 10) == 1024 * x
  {
    assert Shl(x, 1) == 2 * x;
    assert Shl(x, 2) == 4 * x;
    assert Shl(x, 3) == 8 * x;
    assert Shl(x, 4) == 16 * x;
    assert Shl(x, 5) == 32 * x;
    assert Shl(x, 6) == 64 * x;
    assert Shl(x, 7) == 128 * x;
    assert Shl(x, 8) == 256 * x;
    assert Shl(x, 9) == 512 * x;
  }

  /** Or goes bit by bit. */
  lemma {:induction false} OrStep(x: nat, y: nat, b: nat, c: nat)
    requires b < 2 && c < 2
    ensures BitOr(2 * x + b, 2 * y + c) == 2 * BitOr(x, y) + (if b == 1 || c == 1 then 1 else 0)
  {
  }

  /** A value whose low k bits are clear is or-ed with a k-bit value by addition. */
  lemma {:induction false} OrIsSum(x: nat, f: nat, k: nat)
    requires f < Shl(1, k)
    ensures BitOr(Shl(x, k), f) == Shl(x, k) + f
    decreases k
  {
    hide BitOr;
    if k == 0 { OrZero(x); }
    else {
      OrStep(Shl(x, k - 1), f / 2, 0, f % 2);
      OrIsSum(x, f / 2, k - 1);
    }
  }

  lemma {:induction false} OrZero(x: nat)
    ensures BitOr(x, 0) == x && BitOr(2 * x, 1) == 2 * x + 1
  {
  }

  /** Or with a single clear bit k sets that bit: lo are the bits below it, hi those above. */
  lemma {:induction false} OrBit(hi: nat, lo: nat, k: nat)
    requires lo < Shl(1, k)
    ensures BitOr(lo + Shl(2 * hi, k), Shl(1, k)) == lo + Shl(2 * hi + 1, k)
    decreases k
  {
    hide BitOr;
    if k == 0 { OrZero(hi); }
    else {
      OrStep(lo / 2 + Shl(2 * hi, k - 1), Shl(1, k - 1), lo % 2, 0);
      OrBit(hi, lo / 2, k - 1);
    }
  }

  /** Or-ing one clear flag into an encoded entry sets that flag and nothing else. */
  lemma {:induction false} OrV(e: Pte)
    requires !e.v
    ensures BitOr(Encode(e), 1) == Encode(e.(v := true))
  {
    hide BitOr;
    var hi := Bit(e.r) + 2 * Bit(e.w) + 4 * Bit(e.x) + 8 * Bit(e.u) + 32 * Bit(e.a) + 64 * Bit(e.d) + 512 * e.ppn;
    assert Encode(e) == 2 * hi;
    assert Encode(e.(v := true)) == 2 * hi + 1;
    OrZero(hi);
  }

  lemma {:induction false} OrA(e: Pte)
    requires !e.a
    ensures BitOr(Encode(e), 64) == Encode(e.(a := true))
  {
    hide BitOr, Shl;
    var hi := Bit(e.d) + 8 * e.ppn;
    ShlIs(1);
    ShlIs(2 * hi);
    ShlIs(2 * hi + 1);
    OrBit(hi, Bit(e.v) + 2 * Bit(e.r) + 4 * Bit(e.w) + 8 * Bit(e.x) + 16 * Bit(e.u), 6);
  }

  lemma {:induction false} OrD(e: Pte)
    requires !e.d
    ensures BitOr(Encode(e), 128) == Encode(e.(d := true))
  {
    hide BitOr, Shl;
    var hi := 4 * e.ppn;
    ShlIs(1);
    ShlIs(2 * hi);
    ShlIs(2 * hi + 1);
    OrBit(hi, Bit(e.v) + 2 * Bit(e.r) + 4 * Bit(e.w) + 8 * Bit(e.x) + 16 * Bit(e.u) + 64 * Bit(e.a), 7);
  }

  lemma {:induction false} PaField(pa: nat, f: nat)
    requires pa % PGSIZE == 0 && pa < 0x100_0000_0000_0000 && f < 1024
    ensures BitOr(Pa2Pte(pa), f) == pa / PGSIZE * 1024 + f
  {
    hide BitOr, Shl;
    ShlIs(1);
    ShlIs(pa / PGSIZE);
    OrIsSum(pa / PGSIZE, f, 10);
  }

  lemma {:induction false} SetFlags(e: Pte)
    requires !e.v && !e.a && !e.d
    ensures var base := BitOr(BitOr(Encode(e), 1), 64);
            (if e.w then BitOr(base, 128) else base) == Encode(e.(v := true, a := true, d := e.w))
  {
    OrV(e);
    OrA(e.(v := true));
    if e.w { OrD(e.(v := true, a := true)); }
  }

  /** The words vm.c writes are exactly the encodings of LeafPte and TablePte, and
   *  pte2pa inverts pa2pte through them, for every page-aligned physical address of 56 bits. */
  lemma {:induction false} WordsAreEntries(pa: nat, perm: Perm)
    requires pa % PGSIZE == 0 && pa < 0x100_0000_0000_0000
    ensures LeafWord(pa, perm) == Encode(LeafPte(pa / PGSIZE, perm))
    ensures TableWord(pa) == Encode(TablePte(pa / PGSIZE))
    ensures Pte2Pa(LeafWord(pa, perm)) == pa && Pte2Pa(TableWord(pa)) == pa
  {
    LeafWordIsEntry(pa, perm);
    assert TableWord(pa) == Encode(TablePte(pa / PGSIZE)) by { PaField(pa, 1); }
    assert Pte2Pa(LeafWord(pa, perm)) == pa by { DecodeEncode(LeafPte(pa / PGSIZE, perm)); }
    assert Pte2Pa(TableWord(pa)) == pa by { DecodeEncode(TablePte(pa / PGSIZE)); }
  }

  /** What the hardware reads in the word of a leaf: valid and accessed, dirty exactly when writable, the permissions
   *  asked for, and the page's own address; in the word of a child table nothing but validity and its address. */
  lemma {:induction false} WordBits(pa: nat, perm: Perm)
    requires pa % PGSIZE == 0 && pa < 0x100_0000_0000_0000
    ensures var w := LeafWord(pa, perm);
            && TestBit(w, 1) && TestBit(w, 2) == perm.r && TestBit(w, 4) == perm.w && TestBit(w, 8) == perm.x
            && TestBit(w, 16) == perm.u && TestBit(w, 64) && TestBit(w, 128) == perm.w && w / 1024 == pa / 4096
    ensures var w := TableWord(pa);
            && TestBit(w, 1) && !TestBit(w, 2) && !TestBit(w, 4) && !TestBit(w, 8) && w / 1024 == pa / 4096
  {
    hide LeafWord, TableWord, TestBit, Encode;
    WordsAreEntries(pa, perm);
    FlagBits(LeafPte(pa / PGSIZE, perm));
    FlagBits(TablePte(pa / PGSIZE));
    EncodedPpn(LeafPte(pa / PGSIZE, perm));
    EncodedPpn(TablePte(pa / PGSIZE));
  }

  lemma {:induction false} EncodedPpn(e: Pte)
    ensures Encode(e) / 1024 == e.ppn
  {
  }

  lemma {:induction false} LeafWordIsEntry(pa: nat, perm: Perm)
    requires pa % PGSIZE == 0 && pa < 0x100_0000_0000_0000
    ensures LeafWord(pa, perm) == Encode(LeafPte(pa / PGSIZE, perm))
  {
    var e := Pte(pa / PGSIZE, false, perm.r, perm.w, perm.x, perm.u, false, false);
    assert BitOr(Pa2Pte(pa), PermBits(perm)) == Encode(e) by { PaField(pa, PermBits(perm)); }
    SetFlags(e);
  }

  // ------------------------------------------------------- virtual page numbers

  /** 512^level */
  function Span(level: nat): (s: nat)
    requires level <= 3
    ensures s > 0
  {
    if level == 0 then 1 else if level == 1 then 512 else if level == 2 then 0x4_0000 else 0x800_0000
  }

  /** `(va >> (12 + 9 * level)) & 0x1FF` */
  function Vpn(va: nat, level: nat): (i: nat)
    requires level <= 2
    ensures i < ENTRIES
  {
    va / (PGSIZE * Span(level)) % ENTRIES
  }

  /** The same index, from the virtual page number. */
  function Index(n: nat, level: nat): (i: nat)
    requires level <= 2
    ensures i < ENTRIES
  {
    n / Span(level) % ENTRIES
  }

  lemma {:induction false} VpnIsIndex(va: nat, level: nat)
    requires level <= 2
    ensures Vpn(va, level) == Index(va / PGSIZE, level)
  {
    assert va / PGSIZE / 512 == va / (PGSIZE * 512);
    assert va / PGSIZE / 0x4_0000 == va / (PGSIZE * 0x4_0000);
  }

  /** The three indices determine the page: distinct Sv39 pages use distinct index triples. */
  lemma {:induction false} VpnTripleInjective(n: nat, k: nat)
    requires n < VPN_LIMIT && k < VPN_LIMIT
    requires forall level: nat | level <= 2 :: Index(n, level) == Index(k, level)
    ensures n == k
  {
    VpnTripleRebuilds(n);
    VpnTripleRebuilds(k);
    assert Index(n, 2) == Index(k, 2) && Index(n, 1) == Index(k, 1) && Index(n, 0) == Index(k, 0);
  }

  lemma {:induction false} VpnTripleRebuilds(n: nat)
    requires n < VPN_LIMIT
    ensures n == Index(n, 2) * 0x4_0000 + Index(n, 1) * 512 + Index(n, 0)
  {
    assert n / 0x4_0000 == n / 512 / 512;
  }

  // ------------------------------------------------------------ the hardware

  datatype Access = Fetch | Load | Store
  datatype Mode = User | Supervisor

  /** Step 5: access rights, with SUM = MXR = 0. */
  predicate Allowed(e: Pte, access: Access, mode: Mode) {
    && (e.u <==> mode == User)
    && (match access case Fetch => e.x case Load => e.r case Store => e.w)
  }

  /** Step 7: a hart that does not update A and D itself faults instead. */
  predicate AccessedOk(e: Pte, access: Access) { e.a && (access == Store ==> e.d) }

  /** Bits 63..39 of a 64-bit address must all equal bit 38. */
  predicate Canonical(va: nat) { va < VA_LIMIT / 2 || TWO64 - VA_LIMIT / 2 <= va < TWO64 }
}
