/** The page-table pool and the three-level trees built in it (kernel/vm.c).
 *
 *  Operations are functions on a Pool value; each loop of the source is a
 *  function that recurses the way the loop iterates.  `loc` records, for every
 *  table of every address space, which pool page holds it; Tree(m, loc) says
 *  that the pool is exactly the union of those trees.
 */
module PageTable {
  import opened Wrappers
  import opened Sv39

  const POOL_PAGES := 1024

  /** `base` is the physical page number of pt_pool[0]. */
  datatype Pool = Pool(base: nat, used: seq<bool>, pages: seq<seq<Pte>>)

  function EmptyPage(): (s: seq<Pte>)
    ensures |s| == ENTRIES && forall i :: 0 <= i < ENTRIES ==> s[i] == EMPTY
  {
    seq(ENTRIES, i => EMPTY)
  }

  predicate Shape(m: Pool) {
    && |m.used| == POOL_PAGES && |m.pages| == POOL_PAGES
    && (forall p :: 0 <= p < POOL_PAGES ==> |m.pages[p]| == ENTRIES)
  }

  predicate InPool(m: Pool, ppn: nat) { m.base <= ppn < m.base + POOL_PAGES }

  // ------------------------------------------------------------- operations

  function FirstFree(used: seq<bool>, from: nat): (i: nat)
    requires from <= |used|
    ensures from <= i <= |used|
    ensures forall j :: from <= j < i ==> used[j]
    ensures i < |used| ==> !used[i]
    decreases |used| - from
  {
    if from == |used| || !used[from] then from else FirstFree(used, from + 1)
  }

  /** Taking pool page c: mark it used and zero it. */
  function Place(m: Pool, c: nat): (r: Pool)
    requires Shape(m) && c < POOL_PAGES
    ensures Shape(r)
  {
    m.(used := m.used[c := true], pages := m.pages[c := EmptyPage()])
  }

  /** The pool has no free page left. */
  predicate Full(m: Pool) {
    forall p :: 0 <= p < |m.used| ==> m.used[p]
  }

  /** pt_alloc */
  function Alloc(m: Pool): (r: (Pool, Option<nat>))
    requires Shape(m)
    ensures Shape(r.0) && r.0.base == m.base
    ensures r.1.None? ==> r.0 == m && Full(m)
    ensures r.1.Some? ==> r.1.value < POOL_PAGES && !m.used[r.1.value]
  {
    var i := FirstFree(m.used, 0);
    if i == POOL_PAGES then (m, None)
    else (Place(m, i), Some(i))
  }

  function SetEntry(m: Pool, p: nat, i: nat, e: Pte): (r: Pool)
    requires Shape(m) && p < POOL_PAGES && i < ENTRIES
    ensures Shape(r)
  {
    m.(pages := m.pages[p := m.pages[p][i := e]])
  }

  /** pt_release, for a page of the pool */
  function Release(m: Pool, p: nat): (r: Pool)
    requires Shape(m) && p < POOL_PAGES
    ensures Shape(r)
  {
    m.(used := m.used[p := false])
  }

  /** pt_destroy_level */
  function DestroyLevel(m: Pool, p: nat, level: nat): (r: Pool)
    requires Shape(m) && p < POOL_PAGES
    ensures Shape(r) && r.pages == m.pages && r.base == m.base
    decreases level, ENTRIES + 1
  {
    Release(if level > 0 then DestroyEntries(m, p, level, 0) else m, p)
  }

  /** The loop of pt_destroy_level from entry i on. */
  function DestroyEntries(m: Pool, p: nat, level: nat, i: nat): (r: Pool)
    requires Shape(m) && p < POOL_PAGES && level > 0 && i <= ENTRIES
    ensures Shape(r) && r.pages == m.pages && r.base == m.base
    decreases level, ENTRIES - i
  {
    if i == ENTRIES then m else
    var e := m.pages[p][i];
    var m1 := if e.v && !IsLeaf(e) && InPool(m, e.ppn) then DestroyLevel(m, e.ppn - m.base, level - 1) else m;
    DestroyEntries(m1, p, level, i + 1)
  }

  /** The level loop of mappages: find or create the level-0 table for page n. */
  function Descend(m: Pool, p: nat, n: nat, level: nat): (r: (Pool, Option<nat>))
    requires Shape(m) && p < POOL_PAGES && level <= 2
    ensures Shape(r.0) && r.0.base == m.base
    ensures r.1.Some? ==> r.1.value < POOL_PAGES
    decreases level
  {
    if level == 0 then (m, Some(p)) else
    var i := Index(n, level);
    var e := m.pages[p][i];
    if !e.v then
      var (m1, c) := Alloc(m);
      if c.None? then (m1, None)
      else Descend(SetEntry(m1, p, i, TablePte(m.base + c.value)), c.value, n, level - 1)
    else if InPool(m, e.ppn) then Descend(m, e.ppn - m.base, n, level - 1)
    else (m, None)
  }

  /** One iteration of mappages. */
  function MapOne(m: Pool, root: nat, n: nat, ppn: nat, perm: Perm): (r: (Pool, bool))
    requires Shape(m) && root < POOL_PAGES
    ensures Shape(r.0) && r.0.base == m.base
  {
    var (m1, q) := Descend(m, root, n, 2);
    if q.None? then (m1, false)
    else if m1.pages[q.value][Index(n, 0)].v then (m1, false)
    else (SetEntry(m1, q.value, Index(n, 0), LeafPte(ppn, perm)), true)
  }

  /** mappages over `count` pages starting at page n, onto frames from ppn. */
  function MapPages(m: Pool, root: nat, n: nat, count: nat, ppn: nat, perm: Perm): (r: (Pool, bool))
    requires Shape(m) && root < POOL_PAGES
    ensures Shape(r.0) && r.0.base == m.base
    decreases count
  {
    if count == 0 then (m, true) else
    var (m1, ok) := MapOne(m, root, n, ppn, perm);
    if !ok then (m1, false) else MapPages(m1, root, n + 1, count - 1, ppn + 1, perm)
  }

  /** walk_user_pte below the VA check: the level-0 entry for page n, if it is valid. */
  function Walk(m: Pool, p: nat, n: nat, level: nat): (r: Option<Pte>)
    requires Shape(m) && p < POOL_PAGES && level <= 2
    decreases level
  {
    var e := m.pages[p][Index(n, level)];
    if !e.v then None
    else if level == 0 then Some(e)
    else if InPool(m, e.ppn) then Walk(m, e.ppn - m.base, n, level - 1)
    else None
  }

  /** walk_user_pte and translate_user: the frame behind a user virtual address. */
  function TranslateUser(m: Pool, root: nat, va: nat): (r: Option<nat>)
    requires Shape(m) && root < POOL_PAGES
  {
    if va >= VA_LIMIT then None else
    match Walk(m, root, va / PGSIZE, 2)
    case None => None
    case Some(e) => if e.u then Some(e.ppn) else None
  }

  /** Steps 2 to 8 of section 4.3.2 from the table in pool page p.  The result is the physical
   *  page number; superpage leaves take their low PPN bits from the virtual address. */
  function HardwareWalk(m: Pool, p: nat, n: nat, level: nat, access: Access, mode: Mode): (r: Option<nat>)
    requires Shape(m) && p < POOL_PAGES && level <= 2
    decreases level
  {
    var e := m.pages[p][Index(n, level)];
    if !e.v || (!e.r && e.w) then None
    else if e.r || e.x then
      if !Allowed(e, access, mode) then None
      else if e.ppn % Span(level) != 0 then None
      else if !AccessedOk(e, access) then None
      else Some(e.ppn + n % Span(level))
    else if level == 0 || !InPool(m, e.ppn) then None
    else HardwareWalk(m, e.ppn - m.base, n, level - 1, access, mode)
  }

  /** Translation of a 64-bit virtual address with satp naming `root`. */
  function HardwareTranslate(m: Pool, root: nat, va: nat, access: Access, mode: Mode): (r: Option<nat>)
    requires Shape(m) && root < POOL_PAGES
  {
    if !Canonical(va) then None else HardwareWalk(m, root, va / PGSIZE % VPN_LIMIT, 2, access, mode)
  }

  // -------------------------------------------------------- ownership of pages

  datatype Owner = KernelSpace | SlotSpace(slot: nat)

  /** The table of `owner` at `level` for the virtual pages n with n / Span(level + 1) == prefix. */
  datatype Tag = Tag(owner: Owner, level: nat, prefix: nat)

  predicate ValidTag(t: Tag) { t.level <= 2 && t.prefix < Span(2 - t.level) }

  function Root(o: Owner): Tag { Tag(o, 2, 0) }

  function Table(o: Owner, n: nat, level: nat): Tag
    requires level <= 2
  {
    Tag(o, level, n / Span(level + 1))
  }

  function Child(t: Tag, i: nat): Tag
    requires t.level > 0
  {
    Tag(t.owner, t.level - 1, t.prefix * ENTRIES + i)
  }

  function Parent(t: Tag): Tag { Tag(t.owner, t.level + 1, t.prefix / ENTRIES) }

  type Locations = map<Tag, nat>

  ghost predicate Placed(m: Pool, loc: Locations)
    requires Shape(m)
  {
    && (forall t :: t in loc ==> ValidTag(t) && loc[t] < POOL_PAGES && m.used[loc[t]])
    && (forall t, s :: t in loc && s in loc && loc[t] == loc[s] ==> t == s)
    && (forall p :: 0 <= p < POOL_PAGES && m.used[p] ==> p in loc.Values)
  }

  ghost predicate Connected(loc: Locations) {
    forall t :: t in loc && t.level < 2 ==> Parent(t) in loc
  }

  function PointerEntry(base: nat, loc: Locations, t: Tag): Pte {
    if t in loc then TablePte(base + loc[t]) else EMPTY
  }

  ghost predicate PointersOk(m: Pool, loc: Locations)
    requires Shape(m) && Placed(m, loc)
  {
    forall t, i :: t in loc && t.level > 0 && 0 <= i < ENTRIES ==>
      m.pages[loc[t]][i] == PointerEntry(m.base, loc, Child(t, i))
  }

  ghost predicate LeavesOk(m: Pool, loc: Locations)
    requires Shape(m) && Placed(m, loc)
  {
    forall t, i :: t in loc && t.level == 0 && 0 <= i < ENTRIES ==>
      m.pages[loc[t]][i] == EMPTY || IsLeaf(m.pages[loc[t]][i])
  }

  /** Level-typed, acyclic, pairwise disjoint trees whose union is the set of used pages. */
  ghost predicate Tree(m: Pool, loc: Locations) {
    Shape(m) && Placed(m, loc) && Connected(loc) && PointersOk(m, loc) && LeavesOk(m, loc)
  }

  /** The abstract map of an address space: the entry for virtual page n, EMPTY when unmapped. */
  function Leaf(m: Pool, loc: Locations, o: Owner, n: nat): Pte {
    var t := Table(o, n, 0);
    if t in loc && Shape(m) && loc[t] < POOL_PAGES then m.pages[loc[t]][n % ENTRIES] else EMPTY
  }

  ghost predicate SameLeaves(m: Pool, loc: Locations, m': Pool, loc': Locations) {
    forall o, n :: 0 <= n < VPN_LIMIT ==> Leaf(m', loc', o, n) == Leaf(m, loc, o, n)
  }

  lemma {:induction false} ChildFacts(t: Tag, i: nat)
    requires ValidTag(t) && t.level > 0 && i < ENTRIES
    ensures ValidTag(Child(t, i)) && Parent(Child(t, i)) == t
    ensures forall s: Tag, j: nat :: j < ENTRIES && s.level > 0 && Child(s, j) == Child(t, i) ==> s == t && i == j
  {
  }

  lemma {:induction false} ParentFacts(t: Tag)
    requires ValidTag(t) && t.level < 2
    ensures ValidTag(Parent(t)) && Child(Parent(t), t.prefix % ENTRIES) == t
  {
  }

  lemma {:induction false} PathFacts(o: Owner, n: nat, level: nat)
    requires n < VPN_LIMIT && 0 < level <= 2
    ensures Child(Table(o, n, level), Index(n, level)) == Table(o, n, level - 1)
    ensures ValidTag(Table(o, n, level)) && ValidTag(Table(o, n, level - 1))
  {
    assert n / 512 / 512 == n / 0x4_0000;
    assert n / 0x4_0000 / 512 == n / 0x800_0000;
  }

  // ------------------------------------------------------ allocating a table

  lemma {:induction false} PlacedAfter(m: Pool, loc: Locations, t: Tag, c: nat)
    requires Shape(m) && Placed(m, loc) && ValidTag(t) && t !in loc && c < POOL_PAGES && !m.used[c]
    ensures Placed(Place(m, c), loc[t := c])
  {
    var m', loc' := Place(m, c), loc[t := c];
    forall p | 0 <= p < POOL_PAGES && m'.used[p] ensures p in loc'.Values {
      if p == c { assert loc'[t] == c; }
      else {
        var s :| s in loc && loc[s] == p;
        assert loc'[s] == p;
      }
    }
  }

  /** A new child table: allocate, zero, and link it from its parent. */
  lemma {:induction false} GrowChild(m: Pool, loc: Locations, t: Tag, i: nat, c: nat)
    requires Tree(m, loc) && t in loc && t.level > 0 && i < ENTRIES
    requires Child(t, i) !in loc && c < POOL_PAGES && !m.used[c]
    ensures var m' := SetEntry(Place(m, c), loc[t], i, TablePte(m.base + c));
            var loc' := loc[Child(t, i) := c];
            Tree(m', loc') && SameLeaves(m, loc, m', loc')
  {
    hide PointersOk, LeavesOk, Leaf;
    var k := Child(t, i);
    ChildFacts(t, i);
    var m1 := Place(m, c);
    var m', loc' := SetEntry(m1, loc[t], i, TablePte(m.base + c)), loc[k := c];
    PlacedAfter(m, loc, k, c);
    assert Placed(m', loc');
    assert Connected(loc');
    GrowPointers(m, loc, t, i, c);
    GrowLeaves(m, loc, t, i, c);
  }

  lemma {:induction false} GrowLeaves(m: Pool, loc: Locations, t: Tag, i: nat, c: nat)
    requires Tree(m, loc) && t in loc && t.level > 0 && i < ENTRIES
    requires Child(t, i) !in loc && c < POOL_PAGES && !m.used[c]
    requires Placed(SetEntry(Place(m, c), loc[t], i, TablePte(m.base + c)), loc[Child(t, i) := c])
    ensures var m' := SetEntry(Place(m, c), loc[t], i, TablePte(m.base + c));
            var loc' := loc[Child(t, i) := c];
            LeavesOk(m', loc') && SameLeaves(m, loc, m', loc')
  {
    hide PointersOk, Connected, ValidTag;
    var k := Child(t, i);
    var m', loc' := SetEntry(Place(m, c), loc[t], i, TablePte(m.base + c)), loc[k := c];
    forall s | s in loc' && s.level == 0 && s != k ensures m'.pages[loc'[s]] == m.pages[loc[s]] {
      assert s in loc && loc[s] != c && loc[s] != loc[t];
    }
    if k.level == 0 { assert m'.pages[loc'[k]] == EmptyPage(); }
    forall s, j | s in loc' && s.level == 0 && 0 <= j < ENTRIES
      ensures m'.pages[loc'[s]][j] == EMPTY || IsLeaf(m'.pages[loc'[s]][j])
    {
      if s != k { assert m'.pages[loc'[s]][j] == m.pages[loc[s]][j]; }
    }
    forall o, n | 0 <= n < VPN_LIMIT ensures Leaf(m', loc', o, n) == Leaf(m, loc, o, n) {
      var s := Table(o, n, 0);
      if s in loc && s != k { assert m'.pages[loc'[s]] == m.pages[loc[s]]; }
    }
  }

  lemma {:induction false} GrowPointers(m: Pool, loc: Locations, t: Tag, i: nat, c: nat)
    requires Tree(m, loc) && t in loc && t.level > 0 && i < ENTRIES
    requires Child(t, i) !in loc && c < POOL_PAGES && !m.used[c]
    requires Placed(SetEntry(Place(m, c), loc[t], i, TablePte(m.base + c)), loc[Child(t, i) := c])
    ensures PointersOk(SetEntry(Place(m, c), loc[t], i, TablePte(m.base + c)), loc[Child(t, i) := c])
  {
    var k := Child(t, i);
    ChildFacts(t, i);
    var m', loc' := SetEntry(Place(m, c), loc[t], i, TablePte(m.base + c)), loc[k := c];
    forall s, j | s in loc' && s.level > 0 && 0 <= j < ENTRIES
      ensures m'.pages[loc'[s]][j] == PointerEntry(m.base, loc', Child(s, j))
    {
      if s == k {
        // the new table is empty, and none of its children is placed yet
        assert m'.pages[c][j] == EMPTY;
        assert ValidTag(k);
        ChildFacts(k, j);
        assert Parent(Child(k, j)) == k;
        assert Child(k, j) !in loc;
      } else {
        ChildFacts(s, j);
        assert loc[s] != c;
        assert m.pages[loc[s]][j] == PointerEntry(m.base, loc, Child(s, j));
        if s == t && j == i {
        } else {
          assert Child(s, j) != k;
        }
      }
    }
  }

  /** A new root for an owner without tables. */
  lemma {:induction false} GrowRoot(m: Pool, loc: Locations, o: Owner, c: nat)
    requires Tree(m, loc) && c < POOL_PAGES && !m.used[c]
    requires forall t :: t in loc ==> t.owner != o
    ensures Tree(Place(m, c), loc[Root(o) := c])
    ensures SameLeaves(m, loc, Place(m, c), loc[Root(o) := c])
  {
    var m', loc' := Place(m, c), loc[Root(o) := c];
    PlacedAfter(m, loc, Root(o), c);
    GrowRootEntries(m, loc, o, c);
    forall b, n | 0 <= n < VPN_LIMIT ensures Leaf(m', loc', b, n) == Leaf(m, loc, b, n) {
      var t := Table(b, n, 0);
      assert t in loc' <==> t in loc;
    }
  }

  lemma {:induction false} GrowRootEntries(m: Pool, loc: Locations, o: Owner, c: nat)
    requires Tree(m, loc) && c < POOL_PAGES && !m.used[c]
    requires forall t :: t in loc ==> t.owner != o
    requires Placed(Place(m, c), loc[Root(o) := c])
    ensures PointersOk(Place(m, c), loc[Root(o) := c]) && LeavesOk(Place(m, c), loc[Root(o) := c])
  {
    var m', loc' := Place(m, c), loc[Root(o) := c];
    forall s, j | s in loc' && s.level > 0 && 0 <= j < ENTRIES
      ensures m'.pages[loc'[s]][j] == PointerEntry(m.base, loc', Child(s, j))
    {
      if s == Root(o) {
        assert m'.pages[c][j] == EMPTY;
        assert Child(s, j) !in loc;
      } else {
        assert m'.pages[loc'[s]] == m.pages[loc[s]];
        assert m.pages[loc[s]][j] == PointerEntry(m.base, loc, Child(s, j));
        assert Child(s, j) != Root(o);
      }
    }
    forall s, j | s in loc' && s.level == 0 && 0 <= j < ENTRIES
      ensures m'.pages[loc'[s]][j] == EMPTY || IsLeaf(m'.pages[loc'[s]][j])
    {
      assert m'.pages[loc'[s]] == m.pages[loc[s]];
    }
  }

  // ---------------------------------------------------------- walking a tree

  lemma {:induction false} TreeShape(m: Pool, loc: Locations)
    requires Tree(m, loc)
    ensures Shape(m)
  {
  }

  lemma {:induction false} TableInPool(m: Pool, loc: Locations, o: Owner, n: nat, level: nat)
    requires Tree(m, loc) && level <= 2 && Table(o, n, level) in loc
    ensures loc[Table(o, n, level)] < POOL_PAGES
  {
  }

  /** Following a pointer entry leads to the child's page, if there is a child. */
  lemma {:induction false} PointerStep(m: Pool, loc: Locations, o: Owner, n: nat, level: nat, p: nat)
    returns (q: Option<nat>)
    requires Tree(m, loc) && n < VPN_LIMIT && 0 < level <= 2 && Table(o, n, level) in loc
    requires p == loc[Table(o, n, level)]
    ensures q.Some? <==> Table(o, n, level - 1) in loc
    ensures q.Some? ==> q.value == loc[Table(o, n, level - 1)] < POOL_PAGES
    ensures m.pages[p][Index(n, level)] == if q.Some? then TablePte(m.base + q.value) else EMPTY
  {
    PathFacts(o, n, level);
    var t, k := Table(o, n, level), Table(o, n, level - 1);
    assert m.pages[loc[t]][Index(n, level)] == PointerEntry(m.base, loc, Child(t, Index(n, level)));
    q := if k in loc then Some(loc[k]) else None;
  }

  lemma {:induction false} LeafEntry(m: Pool, loc: Locations, o: Owner, n: nat)
    requires Tree(m, loc) && n < VPN_LIMIT && Table(o, n, 0) in loc
    ensures var e := m.pages[loc[Table(o, n, 0)]][Index(n, 0)];
            e == Leaf(m, loc, o, n) && (e == EMPTY || IsLeaf(e))
  {
    assert Index(n, 0) == n % ENTRIES;
  }

  /** The software walk reads the abstract map. */
  lemma {:induction false} WalkRefines(m: Pool, loc: Locations, o: Owner, n: nat, level: nat, p: nat)
    requires Tree(m, loc) && n < VPN_LIMIT && level <= 2 && Table(o, n, level) in loc && p == loc[Table(o, n, level)]
    ensures var e := Leaf(m, loc, o, n);
            Walk(m, p, n, level) == if e.v then Some(e) else None
    decreases level
  {
    hide Placed, Connected, PointersOk, LeavesOk, Leaf, Index;
    TableInPool(m, loc, o, n, level);
    if level == 0 {
      LeafEntry(m, loc, o, n);
    } else {
      var q := PointerStep(m, loc, o, n, level, p);
      if q.Some? { WalkRefines(m, loc, o, n, level - 1, q.value); }
      else { NoLeafBelow(m, loc, o, n, level - 1); }
    }
  }

  /** A missing table on the path leaves the page unmapped. */
  lemma {:induction false} NoLeafBelow(m: Pool, loc: Locations, o: Owner, n: nat, level: nat)
    requires Tree(m, loc) && n < VPN_LIMIT && level <= 1 && Table(o, n, level) !in loc
    ensures Leaf(m, loc, o, n) == EMPTY
  {
    if level == 1 {
      PathFacts(o, n, 1);
      ChildFacts(Table(o, n, 1), Index(n, 1));
      assert Parent(Table(o, n, 0)) == Table(o, n, 1);
    }
  }

  /** What section 4.3.2 grants for a 4 KiB leaf. */
  function HardwareView(e: Pte, access: Access, mode: Mode): Option<nat> {
    if IsLeaf(e) && (e.r || !e.w) && Allowed(e, access, mode) && AccessedOk(e, access) then Some(e.ppn) else None
  }

  /** The hardware algorithm, run on the pool, also reads the abstract map. */
  lemma {:induction false} HardwareRefines(m: Pool, loc: Locations, o: Owner, n: nat, level: nat, p: nat,
                                           access: Access, mode: Mode)
    requires Tree(m, loc) && n < VPN_LIMIT && level <= 2 && Table(o, n, level) in loc && p == loc[Table(o, n, level)]
    ensures HardwareWalk(m, p, n, level, access, mode) == HardwareView(Leaf(m, loc, o, n), access, mode)
    decreases level
  {
    hide Placed, Connected, PointersOk, LeavesOk, Leaf, Index;
    TableInPool(m, loc, o, n, level);
    if level == 0 {
      LeafEntry(m, loc, o, n);
      assert n % Span(0) == 0;
    } else {
      var q := PointerStep(m, loc, o, n, level, p);
      if q.Some? { HardwareRefines(m, loc, o, n, level - 1, q.value, access, mode); }
      else { NoLeafBelow(m, loc, o, n, level - 1); }
    }
  }
}
