/** mappages refines an update of the abstract map, and pt_destroy_level frees exactly one tree. */
module Mapping {
  import opened Sv39
  import opened PageTable

  // ------------------------------------------------------------- mappages

  /** The tables page n needs below the root. */
  function PathTags(o: Owner, n: nat): set<Tag> { {Table(o, n, 1), Table(o, n, 0)} }

  function RangeTags(o: Owner, n: nat, count: nat): set<Tag>
    decreases count
  {
    if count == 0 then {} else PathTags(o, n) + RangeTags(o, n + 1, count - 1)
  }

  /** loc' places everything loc places, in the same pages. */
  ghost predicate Extends(loc: Locations, loc': Locations) {
    forall t :: t in loc ==> t in loc' && loc'[t] == loc[t]
  }

  lemma {:induction false} InRange(m: Pool, loc: Locations, t: Tag)
    requires Tree(m, loc) && t in loc
    ensures loc[t] < POOL_PAGES && m.used[loc[t]] && ValidTag(t)
  {
  }

  /** What the level loop of mappages does, from a table on the path of page n:
   *  it adds the missing tables of that path, in order, and changes no translation. */
  lemma {:induction false} DescendRefines(m: Pool, loc: Locations, o: Owner, n: nat, level: nat, p: nat)
    returns (loc': Locations)
    requires Tree(m, loc) && n < VPN_LIMIT && level <= 2 && Table(o, n, level) in loc && p == loc[Table(o, n, level)]
    ensures Tree(Descend(m, p, n, level).0, loc') && Extends(loc, loc')
    ensures SameLeaves(m, loc, Descend(m, p, n, level).0, loc')
    ensures loc.Keys <= loc'.Keys <= loc.Keys + PathTags(o, n)
    ensures Descend(m, p, n, level).1.Some? ==>
              Table(o, n, 0) in loc' && Descend(m, p, n, level).1.value == loc'[Table(o, n, 0)]
    ensures Descend(m, p, n, level).1.Some? && level == 2 ==> Table(o, n, 1) in loc'
    ensures Descend(m, p, n, level).1.None? ==>
              Full(Descend(m, p, n, level).0) && Table(o, n, 0) !in loc'
    decreases level
  {
    hide Placed, Connected, PointersOk, LeavesOk, ValidTag, Leaf, Index;
    InRange(m, loc, Table(o, n, level));
    if level == 0 {
      loc' := loc;
    } else {
      PathFacts(o, n, level);
      var k := Table(o, n, level - 1);
      var q := PointerStep(m, loc, o, n, level, p);
      if q.Some? {
        loc' := DescendRefines(m, loc, o, n, level - 1, q.value);
      } else {
        var (m1, c) := Alloc(m);
        if c.None? {
          loc' := loc;
          NotPlacedBelow(m, loc, o, n, level - 1);
        } else {
          GrowChild(m, loc, Table(o, n, level), Index(n, level), c.value);
          var m2 := SetEntry(m1, p, Index(n, level), TablePte(m.base + c.value));
          var loc2 := loc[k := c.value];
          loc' := DescendRefines(m2, loc2, o, n, level - 1, c.value);
        }
      }
    }
  }

  /** Without a table on the path there is no level-0 table either. */
  lemma {:induction false} NotPlacedBelow(m: Pool, loc: Locations, o: Owner, n: nat, level: nat)
    requires Tree(m, loc) && n < VPN_LIMIT && level <= 1 && Table(o, n, level) !in loc
    ensures Table(o, n, 0) !in loc
  {
    if level == 1 {
      PathFacts(o, n, 1);
      ChildFacts(Table(o, n, 1), Index(n, 1));
    }
  }

  /** The abstract effect of mapping `count` pages. */
  ghost predicate LeavesMapped(m: Pool, loc: Locations, m': Pool, loc': Locations,
                               o: Owner, n: nat, count: nat, ppn: nat, perm: Perm) {
    forall b, k :: 0 <= k < VPN_LIMIT ==>
      Leaf(m', loc', b, k) == if b == o && n <= k < n + count then LeafPte(ppn + (k - n), perm) else Leaf(m, loc, b, k)
  }

  ghost predicate OtherLeavesSame(m: Pool, loc: Locations, m': Pool, loc': Locations, o: Owner) {
    forall b, k :: b != o && 0 <= k < VPN_LIMIT ==> Leaf(m', loc', b, k) == Leaf(m, loc, b, k)
  }

  ghost predicate Unmapped(m: Pool, loc: Locations, o: Owner, n: nat, count: nat) {
    forall k :: n <= k < n + count ==> Leaf(m, loc, o, k) == EMPTY
  }

  /** Writing one level-0 entry changes one translation. */
  lemma {:induction false} SetLeaf(m: Pool, loc: Locations, o: Owner, n: nat, e: Pte)
    requires Tree(m, loc) && n < VPN_LIMIT && Table(o, n, 0) in loc && IsLeaf(e)
    ensures var m' := SetEntry(m, loc[Table(o, n, 0)], Index(n, 0), e);
            && Tree(m', loc)
            && Leaf(m', loc, o, n) == e
            && forall b, k :: 0 <= k < VPN_LIMIT && (b != o || k != n) ==> Leaf(m', loc, b, k) == Leaf(m, loc, b, k)
  {
    var t := Table(o, n, 0);
    var m' := SetEntry(m, loc[t], Index(n, 0), e);
    assert Index(n, 0) == n % ENTRIES;
    assert Placed(m', loc);
    forall s, j | s in loc && s.level > 0 && 0 <= j < ENTRIES
      ensures m'.pages[loc[s]][j] == PointerEntry(m.base, loc, Child(s, j))
    {
      assert loc[s] != loc[t];
      assert m'.pages[loc[s]] == m.pages[loc[s]];
    }
    assert LeavesOk(m', loc);
    forall b, k | 0 <= k < VPN_LIMIT && (b != o || k != n)
      ensures Leaf(m', loc, b, k) == Leaf(m, loc, b, k)
    {
      var s := Table(b, k, 0);
      if s == t { assert k % ENTRIES != n % ENTRIES; }
    }
  }

  lemma {:induction false} MapOneRefines(m: Pool, loc: Locations, o: Owner, n: nat, ppn: nat, perm: Perm)
    returns (loc': Locations)
    requires Tree(m, loc) && n < VPN_LIMIT && Root(o) in loc && (perm.r || perm.w || perm.x)
    ensures var r := MapOne(m, loc[Root(o)], n, ppn, perm);
            && Tree(r.0, loc') && Extends(loc, loc')
            && loc.Keys <= loc'.Keys <= loc.Keys + PathTags(o, n)
            && (r.1 ==> loc'.Keys == loc.Keys + PathTags(o, n) && Unmapped(m, loc, o, n, 1)
                        && LeavesMapped(m, loc, r.0, loc', o, n, 1, ppn, perm))
            && (!r.1 ==> SameLeaves(m, loc, r.0, loc')
                         && (Unmapped(m, loc, o, n, 1) ==> Full(r.0) && loc'.Keys != loc.Keys + PathTags(o, n)))
  {
    hide Placed, Connected, PointersOk, LeavesOk, ValidTag, Leaf, Index, Descend;
    var root := loc[Root(o)];
    assert Table(o, n, 2) == Root(o);
    InRange(m, loc, Root(o));
    loc' := DescendRefines(m, loc, o, n, 2, root);
    var (m1, q) := Descend(m, root, n, 2);
    if q.Some? {
      LeafEntry(m1, loc', o, n);
      if !m1.pages[q.value][Index(n, 0)].v { SetLeaf(m1, loc', o, n, LeafPte(ppn, perm)); }
    }
  }

  /** Page-table refinement.  For every range, mappages either maps exactly that range in exactly
   *  one address space, adding exactly the missing tables of that range, or fails; and it
   *  succeeds exactly when no page of the range was mapped and the tables fit in the pool. */
  lemma {:induction false} MapPagesRefines(m: Pool, loc: Locations, o: Owner, n: nat, count: nat, ppn: nat, perm: Perm)
    returns (loc': Locations)
    requires Tree(m, loc) && n + count <= VPN_LIMIT && Root(o) in loc && (perm.r || perm.w || perm.x)
    ensures var r := MapPages(m, loc[Root(o)], n, count, ppn, perm);
            && Tree(r.0, loc') && Extends(loc, loc')
            && loc.Keys <= loc'.Keys <= loc.Keys + RangeTags(o, n, count)
            && OtherLeavesSame(m, loc, r.0, loc', o)
            && (r.1 ==> loc'.Keys == loc.Keys + RangeTags(o, n, count)
                        && LeavesMapped(m, loc, r.0, loc', o, n, count, ppn, perm))
            && (r.1 <==> Unmapped(m, loc, o, n, count) && |loc.Keys + RangeTags(o, n, count)| <= POOL_PAGES)
    decreases count
  {
    hide Tree, Shape, Leaf, MapOne, PathTags;
    TreeShape(m, loc);
    InRange(m, loc, Root(o));
    if count == 0 {
      loc' := loc;
      assert loc.Keys + RangeTags(o, n, 0) == loc.Keys;
      KeysFit(m, loc);
    } else {
      var root := loc[Root(o)];
      var (m1, ok) := MapOne(m, root, n, ppn, perm);
      var loc1 := MapOneRefines(m, loc, o, n, ppn, perm);
      assert (loc.Keys + PathTags(o, n)) + RangeTags(o, n + 1, count - 1) == loc.Keys + RangeTags(o, n, count);
      if ok {
        loc' := MapPagesRefines(m1, loc1, o, n + 1, count - 1, ppn + 1, perm);
        UnmappedStep(m, loc, m1, loc1, o, n, count, ppn, perm);
      } else {
        loc' := loc1;
        if Unmapped(m, loc, o, n, count) {
          assert Leaf(m, loc, o, n) == EMPTY;
          FullKeys(m1, loc1);
          ProperSubsetSize(loc1.Keys, loc.Keys + RangeTags(o, n, count));
        }
      }
    }
  }

  lemma {:induction false} UnmappedStep(m: Pool, loc: Locations, m1: Pool, loc1: Locations, o: Owner, n: nat,
                                        count: nat, ppn: nat, perm: Perm)
    requires Tree(m, loc) && Tree(m1, loc1) && count > 0 && n + count <= VPN_LIMIT
    requires Unmapped(m, loc, o, n, 1) && LeavesMapped(m, loc, m1, loc1, o, n, 1, ppn, perm)
    ensures Unmapped(m, loc, o, n, count) <==> Unmapped(m1, loc1, o, n + 1, count - 1)
  {
    hide Leaf, Placed, Connected, PointersOk, LeavesOk;
    assert Leaf(m, loc, o, n) == EMPTY;
    forall k | n + 1 <= k < n + count ensures Leaf(m, loc, o, k) == Leaf(m1, loc1, o, k) {}
  }

  // ---------------------------------------------------------- counting pages

  lemma {:induction false} BoundedSetSize(s: set<nat>, n: nat)
    requires forall x :: x in s ==> x < n
    ensures |s| <= n
    decreases n
  {
    if n > 0 {
      BoundedSetSize(s - {n - 1}, n - 1);
    } else {
      assert s == {};
    }
  }

  lemma {:induction false} FullSetSize(s: set<nat>, n: nat)
    requires forall x :: 0 <= x < n ==> x in s
    ensures |s| >= n
    decreases n
  {
    if n > 0 { FullSetSize(s - {n - 1}, n - 1); }
  }

  lemma {:induction false} ValuesSize(keys: set<Tag>, loc: Locations)
    requires keys <= loc.Keys
    requires forall t, s :: t in loc && s in loc && loc[t] == loc[s] ==> t == s
    ensures |set t | t in keys :: loc[t]| == |keys|
    decreases keys
  {
    if keys != {} {
      var t :| t in keys;
      var rest := keys - {t};
      ValuesSize(rest, loc);
      assert (set u | u in keys :: loc[u]) == (set u | u in rest :: loc[u]) + {loc[t]};
      assert loc[t] !in (set u | u in rest :: loc[u]);
    } else {
      assert (set u | u in keys :: loc[u]) == {};
    }
  }

  /** The placed tables never outnumber the pool. */
  lemma {:induction false} KeysFit(m: Pool, loc: Locations)
    requires Tree(m, loc)
    ensures |loc.Keys| <= POOL_PAGES
  {
    ValuesSize(loc.Keys, loc);
    BoundedSetSize(set t | t in loc.Keys :: loc[t], POOL_PAGES);
  }

  lemma {:induction false} FullKeys(m: Pool, loc: Locations)
    requires Tree(m, loc) && Full(m)
    ensures |loc.Keys| == POOL_PAGES
  {
    var vals := set t | t in loc.Keys :: loc[t];
    ValuesSize(loc.Keys, loc);
    forall x | 0 <= x < POOL_PAGES ensures x in vals { assert m.used[x] && x in loc.Values; }
    FullSetSize(vals, POOL_PAGES);
    KeysFit(m, loc);
  }

  lemma {:induction false} ProperSubsetSize(a: set<Tag>, b: set<Tag>)
    requires a < b
    ensures |a| < |b|
  {
    var x :| x in b && x !in a;
    SubsetSize(a, b - {x});
  }

  lemma {:induction false} SubsetSize(a: set<Tag>, b: set<Tag>)
    requires a <= b
    ensures |a| <= |b|
    decreases a
  {
    if a != {} {
      var x :| x in a;
      SubsetSize(a - {x}, b - {x});
    }
  }

  // -------------------------------------------------------- pt_destroy_level

  /** t lies in the subtree below (and including) s. */
  predicate Under(t: Tag, s: Tag)
    decreases if t.level < s.level then s.level - t.level else 0
  {
    t == s || (t.level < s.level && Under(Parent(t), s))
  }

  ghost predicate HeldUnder(loc: Locations, s: Tag, p: nat) { exists t :: t in loc && Under(t, s) && loc[t] == p }

  ghost predicate HeldBelow(loc: Locations, s: Tag, from: nat, p: nat)
    requires s.level > 0
  {
    exists i :: from <= i < ENTRIES && HeldUnder(loc, Child(s, i), p)
  }

  lemma {:induction false} UnderChild(loc: Locations, t: Tag, s: Tag)
    requires Connected(loc) && t in loc && ValidTag(t) && ValidTag(s) && Under(t, s) && t != s
    requires forall u :: u in loc ==> ValidTag(u)
    ensures exists i :: 0 <= i < ENTRIES && Under(t, Child(s, i))
    decreases s.level - t.level
  {
    if Parent(t) == s {
      ParentFacts(t);
      assert Under(t, Child(s, t.prefix % ENTRIES));
    } else {
      UnderChild(loc, Parent(t), s);
      var i :| 0 <= i < ENTRIES && Under(Parent(t), Child(s, i));
      assert Under(t, Child(s, i));
    }
  }

  lemma {:induction false} ChildUnder(t: Tag, s: Tag, i: nat)
    requires ValidTag(t) && ValidTag(s) && s.level > 0 && i < ENTRIES && Under(t, Child(s, i))
    ensures Under(t, s)
    decreases s.level - t.level
  {
    ChildFacts(s, i);
    if t != Child(s, i) { ParentFacts(t); ChildUnder(Parent(t), s, i); }
  }

  /** Destroying a table frees exactly the pages of its subtree. */
  lemma {:induction false} DestroyLevelFrees(m: Pool, w: Pool, loc: Locations, s: Tag)
    requires Tree(m, loc) && s in loc && Shape(w) && w.pages == m.pages && w.base == m.base
    ensures var r := DestroyLevel(w, loc[s], s.level);
            forall p :: 0 <= p < POOL_PAGES ==> (r.used[p] <==> w.used[p] && !HeldUnder(loc, s, p))
    decreases s.level, ENTRIES + 1
  {
    var r := DestroyLevel(w, loc[s], s.level);
    if s.level > 0 { DestroyEntriesFrees(m, w, loc, s, 0); }
    forall p | 0 <= p < POOL_PAGES ensures r.used[p] <==> w.used[p] && !HeldUnder(loc, s, p) {
      HeldSplit(m, loc, s, p);
    }
  }

  lemma {:induction false} HeldSplit(m: Pool, loc: Locations, s: Tag, p: nat)
    requires Tree(m, loc) && s in loc
    ensures HeldUnder(loc, s, p) <==> p == loc[s] || (s.level > 0 && HeldBelow(loc, s, 0, p))
  {
    if HeldUnder(loc, s, p) {
      var t :| t in loc && Under(t, s) && loc[t] == p;
      if t != s {
        UnderChild(loc, t, s);
        var i :| 0 <= i < ENTRIES && Under(t, Child(s, i));
        assert HeldUnder(loc, Child(s, i), p);
      }
    }
    if s.level > 0 && HeldBelow(loc, s, 0, p) {
      var i :| 0 <= i < ENTRIES && HeldUnder(loc, Child(s, i), p);
      var t :| t in loc && Under(t, Child(s, i)) && loc[t] == p;
      ChildUnder(t, s, i);
    }
    if p == loc[s] { assert Under(s, s); }
  }

  lemma {:induction false} PointerEntryAt(m: Pool, loc: Locations, s: Tag, i: nat)
    requires Tree(m, loc) && s in loc && s.level > 0 && i < ENTRIES
    ensures loc[s] < POOL_PAGES && m.pages[loc[s]][i] == PointerEntry(m.base, loc, Child(s, i))
    ensures Child(s, i) in loc ==> loc[Child(s, i)] < POOL_PAGES
  {
  }

  lemma {:induction false} DestroyEntriesFrees(m: Pool, w: Pool, loc: Locations, s: Tag, i: nat)
    requires Tree(m, loc) && s in loc && s.level > 0 && i <= ENTRIES
    requires Shape(w) && w.pages == m.pages && w.base == m.base
    ensures var r := DestroyEntries(w, loc[s], s.level, i);
            forall p :: 0 <= p < POOL_PAGES ==> (r.used[p] <==> w.used[p] && !HeldBelow(loc, s, i, p))
    decreases s.level, ENTRIES - i
  {
    hide Placed, Connected, PointersOk, LeavesOk, ValidTag, Under, HeldUnder;
    InRange(m, loc, s);
    if i < ENTRIES {
      var k := Child(s, i);
      var e := w.pages[loc[s]][i];
      PointerEntryAt(m, loc, s, i);
      var w1 := w;
      if k in loc {
        w1 := DestroyLevel(w, loc[k], s.level - 1);
        DestroyLevelFrees(m, w, loc, k);
      } else {
        NothingUnder(m, loc, k);
      }
      DestroyEntriesFrees(m, w1, loc, s, i + 1);
      assert DestroyEntries(w, loc[s], s.level, i) == DestroyEntries(w1, loc[s], s.level, i + 1);
      forall p | 0 <= p < POOL_PAGES
        ensures HeldBelow(loc, s, i, p) <==> HeldUnder(loc, k, p) || HeldBelow(loc, s, i + 1, p) {}
    }
  }

  lemma {:induction false} NothingUnder(m: Pool, loc: Locations, k: Tag)
    requires Tree(m, loc) && k !in loc && k.level <= 2
    ensures forall p :: !HeldUnder(loc, k, p)
  {
    forall t | t in loc ensures !Under(t, k) { if Under(t, k) { AncestorsPlaced(m, loc, t, k); } }
  }

  lemma {:induction false} AncestorsPlaced(m: Pool, loc: Locations, t: Tag, k: Tag)
    requires Tree(m, loc) && t in loc && Under(t, k) && k.level <= 2
    ensures k in loc
    decreases k.level - t.level
  {
    if t != k {
      AncestorsPlaced(m, loc, Parent(t), k);
    }
  }
}
