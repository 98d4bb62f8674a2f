/** A concrete run of vm.c calls after which kernel_pagetable fails and loses pages.  The kernel itself never gets
 *  there: the run creates more spaces than it has slots. */
module KernelTableLeak {
  import opened Wrappers
  import opened Sv39
  import opened PageTable
  import opened Mapping
  import opened AddressSpace

  /** vm_init on the largest kernel image. */
  function FreshVm(): (vm: Vm)
    ensures Layout(vm) && vm.kernelPt.None? && vm.kernelEnd == RAM_END
    ensures forall p :: 0 <= p < POOL_PAGES ==> !vm.pool.used[p]
  {
    Vm(Pool(0x80200, seq(POOL_PAGES, _ => false), seq(POOL_PAGES, _ => EmptyPage())), None, RAM_END,
       0x80200 + POOL_PAGES, seq(NPROC * TOTAL_PAGES, _ => seq(PGSIZE, _ => 0)))
  }

  /** n calls of vm_create_user for slot 0, none of the spaces destroyed. */
  function CreateRepeatedly(vm: Vm, n: nat): (r: Vm)
    requires Layout(vm)
    ensures Layout(r)
  {
    if n == 0 then vm else CreateUser(CreateRepeatedly(vm, n - 1), [], 0).0
  }

  /** vm_create_user, its tables filed under any owner that has none yet. */
  lemma {:induction false} CreateAs(vm: Vm, loc: Locations, o: Owner, slot: nat) returns (loc': Locations)
    requires Layout(vm) && Tree(vm.pool, loc) && NoSpace(loc, o) && o.SlotSpace? && slot < NPROC
    requires |loc.Keys + SpaceTags(o, vm.kernelEnd)| <= POOL_PAGES
    ensures var r := CreateUser(vm, [], slot);
            && r.1.Some? && r.0 == vm.(pool := r.0.pool, frames := r.0.frames)
            && Tree(r.0.pool, loc') && loc'.Keys == loc.Keys + SpaceTags(o, vm.kernelEnd)
  {
    hide Tree, Shape, Leaf, RangeTags, StartUser, UserMap, KernelTags, UserTags, OthersSame, NoSpace, TagsOf, Layout,
         CreateUser, KernelLeaf, Extends, OtherLeavesSame, TwoMapped, LoadImage;
    LayoutFacts(vm);
    var kt := {Root(o)} + KernelTags(o, vm.kernelEnd);
    assert (loc.Keys + kt) + UserTags(o) == loc.Keys + SpaceTags(o, vm.kernelEnd);
    SubsetSize(loc.Keys + kt, loc.Keys + SpaceTags(o, vm.kernelEnd));
    var loc1 := StartUserRefines(vm, loc, o);
    var vm1 := StartUser(vm).0;
    TreeShape(vm1.pool, loc1);
    loc' := UserMapRefines(vm1.pool, loc1, o, vm.kernelEnd, SlotBase(vm, slot));
    CreateSteps(vm, slot);
  }

  lemma {:induction false} CreateSteps(vm: Vm, slot: nat)
    requires Layout(vm) && slot < NPROC && StartUser(vm).1.Some?
    requires StartUser(vm).0 == vm.(pool := StartUser(vm).0.pool)
    ensures Shape(StartUser(vm).0.pool)
    ensures var u := UserMap(StartUser(vm).0.pool, StartUser(vm).1.value, SlotBase(vm, slot));
            var r := CreateUser(vm, [], slot);
            u.1 ==> r.1.Some? && r.0 == vm.(pool := r.0.pool, frames := r.0.frames) && r.0.pool == u.0
  {
    hide StartUser, UserMap, LoadImage;
  }

  lemma {:induction false} NoTables(m: Pool)
    requires Shape(m) && forall p :: 0 <= p < POOL_PAGES ==> !m.used[p]
    ensures Tree(m, map[])
  {
  }

  lemma {:induction false} SpaceCount(o: Owner)
    ensures |SpaceTags(o, RAM_END)| == if o.SlotSpace? then 71 else 68
    ensures forall t :: t in SpaceTags(o, RAM_END) ==> t.owner == o
  {
    SpaceSize(o, RAM_END);
    TagsOwner(o, RAM_END);
  }

  lemma {:induction false} DisjointSize(a: set<Tag>, b: set<Tag>)
    requires a !! b
    ensures |a + b| == |a| + |b|
  {
  }

  /** Up to fourteen spaces of 71 pages fit. */
  lemma {:induction false} RepeatedTables(n: nat) returns (loc: Locations)
    requires n <= 14
    ensures var vm := CreateRepeatedly(FreshVm(), n);
            && vm.kernelPt.None? && vm.kernelEnd == RAM_END && Tree(vm.pool, loc) && |loc.Keys| == 71 * n
            && forall t :: t in loc ==> t.owner.SlotSpace? && t.owner.slot < n
  {
    hide Tree, CreateUser, SpaceTags, FreshVm;
    if n == 0 {
      loc := map[];
      NoTables(FreshVm().pool);
    } else {
      var vm := CreateRepeatedly(FreshVm(), n - 1);
      var loc1 := RepeatedTables(n - 1);
      var o := SlotSpace(n - 1);
      SpaceCount(o);
      DisjointSize(loc1.Keys, SpaceTags(o, RAM_END));
      loc := CreateAs(vm, loc1, o, 0);
      assert forall t :: t in loc ==> t in loc1 || t in SpaceTags(o, RAM_END);
    }
  }

  lemma {:induction false} TwoFree(m: Pool, loc: Locations)
    requires Tree(m, loc) && |loc.Keys| <= POOL_PAGES - 2
    ensures Shape(m) && !AtMostOneFree(m)
  {
    if AtMostOneFree(m) {
      var free: nat := 0;
      if p :| 0 <= p < POOL_PAGES && !m.used[p] { free := p; }
      var pages := set t | t in loc.Keys :: loc[t];
      ValuesSize(loc.Keys, loc);
      var all := pages + {free};
      forall p | 0 <= p < POOL_PAGES ensures p in all {
        if p != free { assert m.used[p] && p in loc.Values; }
      }
      FullSetSize(all, POOL_PAGES);
    }
  }

  /** After fourteen vm_create_user calls 30 pages are free; kernel_pagetable needs 68, fails, and keeps some. */
  lemma {:induction false} LeakExample()
    ensures var vm := CreateRepeatedly(FreshVm(), 14);
            KernelPagetable(vm).1.None? && KernelPagetable(vm).0.pool.used != vm.pool.used
  {
    hide Tree, CreateRepeatedly, SpaceTags, FreshVm, KernelPagetable;
    var vm := CreateRepeatedly(FreshVm(), 14);
    var loc := RepeatedTables(14);
    SpaceCount(KernelSpace);
    DisjointSize(loc.Keys, SpaceTags(KernelSpace, RAM_END));
    TwoFree(vm.pool, loc);
    KernelPagetableLeaks(vm, loc);
  }
}
