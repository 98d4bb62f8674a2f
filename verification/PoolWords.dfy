/** Page tables as the hart and the C code see them: 64-bit words at physical addresses.  Both walks, run on the words
 *  of the pool, do what the record walks of PageTable do, and the words vm.c stores are those of the records. */
module PoolWords {
  import opened Wrappers
  import opened Sv39
  import opened PageTable
  import opened AddressSpace

  const PTE_V := 1
  const PTE_R := 2
  const PTE_W := 4
  const PTE_X := 8
  const PTE_U := 16
  const PTE_A := 64
  const PTE_D := 128

  function PageAddress(m: Pool, p: nat): nat { (m.base + p) * PGSIZE }

  /** The doubleword at a physical address; None outside the pool or when misaligned. */
  function WordAt(m: Pool, pa: nat): Option<nat>
    requires Shape(m)
  {
    if pa % 8 == 0 && InPool(m, pa / PGSIZE) then Some(Encode(m.pages[pa / PGSIZE - m.base][pa % PGSIZE / 8])) else None
  }

  // ------------------------------------------------------------------ the two walks

  predicate WordAllowed(word: nat, access: Access, mode: Mode) {
    && (TestBit(word, PTE_U) <==> mode == User)
    && TestBit(word, match access case Fetch => PTE_X case Load => PTE_R case Store => PTE_W)
  }

  /** Steps 2 to 8 of section 4.3.2 from the table at physical address a: the physical address of va. */
  function WordWalk(m: Pool, a: nat, va: nat, level: nat, access: Access, mode: Mode): Option<nat>
    requires Shape(m) && level <= 2
    decreases level
  {
    match WordAt(m, a + 8 * Vpn(va, level))
    case None => None
    case Some(word) =>
      if !TestBit(word, PTE_V) || (!TestBit(word, PTE_R) && TestBit(word, PTE_W)) then None
      else if TestBit(word, PTE_R) || TestBit(word, PTE_X) then
        if !WordAllowed(word, access, mode) then None
        else if word / 1024 % Span(level) != 0 then None
        else if !TestBit(word, PTE_A) || (access == Store && !TestBit(word, PTE_D)) then None
        else Some(Pte2Pa(word) + va % (PGSIZE * Span(level)))
      else if level == 0 then None
      else WordWalk(m, Pte2Pa(word), va, level - 1, access, mode)
  }

  function WordTranslate(m: Pool, root: nat, va: nat, access: Access, mode: Mode): Option<nat>
    requires Shape(m)
  {
    if !Canonical(va) then None else WordWalk(m, PageAddress(m, root), va, 2, access, mode)
  }

  /** The loop of walk_user_pte, then the level-0 test: the word found. */
  function WordWalkUser(m: Pool, a: nat, va: nat, level: nat): Option<nat>
    requires Shape(m) && level <= 2
    decreases level
  {
    match WordAt(m, a + 8 * Vpn(va, level))
    case None => None
    case Some(word) =>
      if !TestBit(word, PTE_V) then None
      else if level == 0 then Some(word)
      else WordWalkUser(m, Pte2Pa(word), va, level - 1)
  }

  /** translate_user */
  function WordTranslateUser(m: Pool, root: nat, va: nat): Option<nat>
    requires Shape(m)
  {
    if va >= VA_LIMIT then None else
    match WordWalkUser(m, PageAddress(m, root), va, 2)
    case None => None
    case Some(word) => if TestBit(word, PTE_U) then Some(Pte2Pa(word) + va % PGSIZE) else None
  }

  // ------------------------------------------------------------------ they agree with the records

  const PPN_LIMIT := 0x1000_0000_0000    // 2^44

  lemma {:induction false} EntryAddress(m: Pool, p: nat, i: nat)
    requires Shape(m) && p < POOL_PAGES && i < ENTRIES
    ensures WordAt(m, PageAddress(m, p) + 8 * i) == Some(Encode(m.pages[p][i]))
  {
    var pa := PageAddress(m, p) + 8 * i;
    assert pa == (m.base + p) * PGSIZE + 8 * i && 8 * i < PGSIZE;
    assert pa / PGSIZE == m.base + p && pa % PGSIZE == 8 * i;
  }

  /** Only the 27 bits above the offset choose entries. */
  lemma {:induction false} VpnOfPage(va: nat, level: nat)
    requires level <= 2
    ensures Vpn(va, level) == Index(va / PGSIZE % VPN_LIMIT, level)
  {
    VpnIsIndex(va, level);
    var n := va / PGSIZE;
    var q, r := n / VPN_LIMIT, n % VPN_LIMIT;
    assert n == q * 0x800_0000 + r;
    if level == 0 {
      WholeBlocks(q * 0x4_0000, r);
    } else if level == 1 {
      assert n / 512 == q * 0x4_0000 + r / 512;
      WholeBlocks(q * 512, r / 512);
    } else {
      assert n / 0x4_0000 == q * 512 + r / 0x4_0000;
      WholeBlocks(q, r / 0x4_0000);
    }
  }

  lemma {:induction false} WholeBlocks(k: nat, x: nat)
    ensures (k * 512 + x) % 512 == x % 512
  {
  }

  /** What a walk reads in one step. */
  lemma {:induction false} StepWord(m: Pool, p: nat, va: nat, level: nat)
    requires Shape(m) && p < POOL_PAGES && level <= 2
    ensures var e := m.pages[p][Index(va / PGSIZE % VPN_LIMIT, level)];
            WordAt(m, PageAddress(m, p) + 8 * Vpn(va, level)) == Some(Encode(e))
  {
    VpnOfPage(va, level);
    EntryAddress(m, p, Vpn(va, level));
  }

  /** The frame found for va, with the offset inside it. */
  function Located(ppn: Option<nat>, va: nat): Option<nat> {
    match ppn case None => None case Some(f) => Some(f * PGSIZE + va % PGSIZE)
  }

  lemma {:induction false} EncodedEntry(e: Pte)
    requires e.ppn < PPN_LIMIT
    ensures var w := Encode(e);
            && TestBit(w, PTE_V) == e.v && TestBit(w, PTE_R) == e.r && TestBit(w, PTE_W) == e.w
            && TestBit(w, PTE_X) == e.x && TestBit(w, PTE_U) == e.u && TestBit(w, PTE_A) == e.a
            && TestBit(w, PTE_D) == e.d && Pte2Pa(w) == e.ppn * PGSIZE
  {
    FlagBits(e);
    DecodeEncode(e);
  }

  /** The hardware walk on words. */
  lemma {:induction false} WordWalkRefines(m: Pool, loc: Locations, o: Owner, va: nat, level: nat, p: nat,
                                           access: Access, mode: Mode)
    requires Tree(m, loc) && level <= 2 && m.base + POOL_PAGES <= PPN_LIMIT
    requires var n := va / PGSIZE % VPN_LIMIT;
             && Table(o, n, level) in loc && p == loc[Table(o, n, level)] && p < POOL_PAGES
             && Leaf(m, loc, o, n).ppn < PPN_LIMIT
    ensures WordWalk(m, PageAddress(m, p), va, level, access, mode)
         == Located(HardwareWalk(m, p, va / PGSIZE % VPN_LIMIT, level, access, mode), va)
    decreases level
  {
    hide Placed, Connected, PointersOk, LeavesOk, Leaf, Index, Encode, TestBit, Pte2Pa, Vpn, WordAt, Canonical;
    var n := va / PGSIZE % VPN_LIMIT;
    StepWord(m, p, va, level);
    var e := m.pages[p][Index(n, level)];
    if level == 0 {
      LeafEntry(m, loc, o, n);
      EncodedEntry(e);
    } else {
      var q := PointerStep(m, loc, o, n, level, p);
      EncodedEntry(e);
      if q.Some? { WordWalkRefines(m, loc, o, va, level - 1, q.value, access, mode); }
    }
  }

  /** The software walk on words. */
  lemma {:induction false} WordWalkUserRefines(m: Pool, loc: Locations, o: Owner, va: nat, level: nat, p: nat)
    requires Tree(m, loc) && level <= 2 && m.base + POOL_PAGES <= PPN_LIMIT && va < VA_LIMIT
    requires var n := va / PGSIZE;
             && Table(o, n, level) in loc && p == loc[Table(o, n, level)] && p < POOL_PAGES
             && Leaf(m, loc, o, n).ppn < PPN_LIMIT
    ensures WordWalkUser(m, PageAddress(m, p), va, level)
         == match Walk(m, p, va / PGSIZE, level) case None => None case Some(e) => Some(Encode(e))
    decreases level
  {
    hide Placed, Connected, PointersOk, LeavesOk, Leaf, Index, Encode, TestBit, Pte2Pa, Vpn, WordAt, Canonical;
    var n := va / PGSIZE;
    assert n % VPN_LIMIT == n;
    StepWord(m, p, va, level);
    var e := m.pages[p][Index(n, level)];
    if level == 0 {
      LeafEntry(m, loc, o, n);
      EncodedEntry(e);
    } else {
      var q := PointerStep(m, loc, o, n, level, p);
      EncodedEntry(e);
      if q.Some? { WordWalkUserRefines(m, loc, o, va, level - 1, q.value); }
    }
  }

  lemma {:induction false} SmallLeaves(vm: Vm, o: Owner, n: nat)
    requires Layout(vm) && (o.SlotSpace? ==> o.slot < NPROC)
    ensures SpaceLeaf(vm, o, n).ppn < PPN_LIMIT
  {
  }

  /** In every space the kernel builds, the hardware translating on the pool's words reaches the byte the record walk
   *  names, for every owner, 64-bit address, access and mode, and so does translate_user. */
  lemma {:induction false} WordsTranslate(vm: Vm, loc: Locations, o: Owner, root: nat, va: nat, access: Access,
                                          mode: Mode)
    requires Layout(vm) && Tree(vm.pool, loc) && HasSpace(vm, loc, o, Some(root)) && root < POOL_PAGES
    requires o.SlotSpace? ==> o.slot < NPROC
    ensures WordTranslate(vm.pool, root, va, access, mode)
         == Located(HardwareTranslate(vm.pool, root, va, access, mode), va)
    ensures WordTranslateUser(vm.pool, root, va) == Located(TranslateUser(vm.pool, root, va), va)
  {
    hide Tree, Shape, Leaf, SpaceTags, HardwareWalk, WordWalk, WordWalkUser, Walk, Encode, TestBit, Pte2Pa, SpaceLeaf;
    LayoutFacts(vm);
    var n := va / PGSIZE % VPN_LIMIT;
    assert Table(o, n, 2) == Root(o);
    SmallLeaves(vm, o, n);
    assert Leaf(vm.pool, loc, o, n) == SpaceLeaf(vm, o, n);
    WordWalkRefines(vm.pool, loc, o, va, 2, root, access, mode);
    if va < VA_LIMIT {
      assert n == va / PGSIZE;
      WordWalkUserRefines(vm.pool, loc, o, va, 2, root);
      WalkRefines(vm.pool, loc, o, n, 2, root);
      EncodedEntry(Leaf(vm.pool, loc, o, n));
    }
  }

  // ------------------------------------------------------------------ stores

  /** One entry was stored: that word changed and no other. */
  ghost predicate OneWordStored(m: Pool, m': Pool, at: nat, word: nat)
    requires Shape(m) && Shape(m')
  {
    forall pa: nat :: WordAt(m', pa) == if pa == at then Some(word) else WordAt(m, pa)
  }

  /** The words mappages stores for a leaf and for a child table are the records the model stores. */
  lemma {:induction false} StoresAreWords(m: Pool, p: nat, i: nat, pa: nat, perm: Perm)
    requires Shape(m) && p < POOL_PAGES && i < ENTRIES && pa % PGSIZE == 0 && pa < 0x100_0000_0000_0000
    ensures var at := PageAddress(m, p) + 8 * i;
            && OneWordStored(m, SetEntry(m, p, i, LeafPte(pa / PGSIZE, perm)), at, LeafWord(pa, perm))
            && OneWordStored(m, SetEntry(m, p, i, TablePte(pa / PGSIZE)), at, TableWord(pa))
  {
    hide Encode, LeafWord, TableWord;
    WordsAreEntries(pa, perm);
    StoreOne(m, p, i, LeafPte(pa / PGSIZE, perm));
    StoreOne(m, p, i, TablePte(pa / PGSIZE));
  }

  lemma {:induction false} StoreOne(m: Pool, p: nat, i: nat, e: Pte)
    requires Shape(m) && p < POOL_PAGES && i < ENTRIES
    ensures OneWordStored(m, SetEntry(m, p, i, e), PageAddress(m, p) + 8 * i, Encode(e))
  {
    hide Encode;
    var m' := SetEntry(m, p, i, e);
    var at := PageAddress(m, p) + 8 * i;
    EntryAddress(m', p, i);
    forall pa: nat | pa != at ensures WordAt(m', pa) == WordAt(m, pa) {
      if pa % 8 == 0 && InPool(m, pa / PGSIZE) && pa / PGSIZE - m.base == p {
        assert pa % PGSIZE / 8 != i;
      }
    }
  }
}
