/** Page tables under the process operations: every live slot owns exactly its declared space, the pool
 *  holds nothing else, and the active root is never a released one. */
module KernelTables {
  import opened Wrappers
  import opened Sv39
  import opened PageTable
  import opened AddressSpace
  import opened Process

  ghost predicate SlotTables(vm: Vm, loc: Locations, i: nat, p: Proc)
    requires KERNEL_VPN <= vm.kernelEnd
  {
    if p.state == Unused then NoSpace(loc, SlotSpace(i)) else HasSpace(vm, loc, SlotSpace(i), p.pagetable)
  }

  ghost predicate KernelOwnTables(vm: Vm, loc: Locations)
    requires KERNEL_VPN <= vm.kernelEnd
  {
    if vm.kernelPt.None? then NoSpace(loc, KernelSpace) else HasSpace(vm, loc, KernelSpace, vm.kernelPt)
  }

  ghost predicate Owners(loc: Locations) { forall t :: t in loc ==> t.owner == KernelSpace || t.owner.slot < NPROC }

  /** satp names the root of some existing space. */
  ghost predicate Active(loc: Locations, satp: nat) { exists o :: Root(o) in loc && loc[Root(o)] == satp }

  ghost predicate TablesOk(k: Kernel, loc: Locations)
    requires Typed(k)
  {
    && Tree(k.vm.pool, loc) && Owners(loc) && Active(loc, k.satp) && KernelOwnTables(k.vm, loc)
    && (forall i: nat :: i < NPROC ==> SlotTables(k.vm, loc, i, k.procs[i]))
  }

  // ------------------------------------------------------------ what stays

  /** k' differs from k in nothing the tables depend on. */
  ghost predicate SameTables(k: Kernel, k': Kernel)
    requires Typed(k) && Typed(k')
  {
    && k'.vm == k.vm.(frames := k'.vm.frames) && k'.satp == k.satp
    && (forall i: nat :: i < NPROC ==> k'.procs[i].pagetable == k.procs[i].pagetable
                                       && (k'.procs[i].state == Unused <==> k.procs[i].state == Unused))
  }

  lemma {:induction false} SameTablesOk(k: Kernel, k': Kernel, loc: Locations)
    requires Typed(k) && Typed(k') && TablesOk(k, loc) && SameTables(k, k')
    ensures TablesOk(k', loc)
  {
    hide Tree, Owners, Active, HasSpace, NoSpace, Layout;
    LayoutFacts(k.vm);
    LayoutFacts(k'.vm);
    forall i: nat | i < NPROC ensures SlotTables(k'.vm, loc, i, k'.procs[i]) {
      assert SlotTables(k.vm, loc, i, k.procs[i]);
      if k.procs[i].state != Unused { FramesIrrelevant(k.vm, loc, SlotSpace(i), k.procs[i].pagetable, k'.vm.frames); }
    }
    if k.vm.kernelPt.Some? { FramesIrrelevant(k.vm, loc, KernelSpace, k.vm.kernelPt, k'.vm.frames); }
  }

  /** A space survives changes to other spaces. */
  lemma {:induction false} SpaceSurvives(vm: Vm, loc: Locations, vm': Vm, loc': Locations, o: Owner, root: Option<nat>,
                                         changed: Owner)
    requires KERNEL_VPN <= vm.kernelEnd == vm'.kernelEnd && vm.userBase == vm'.userBase && o != changed
    requires HasSpace(vm, loc, o, root) && OthersSame(vm.pool, loc, vm'.pool, loc', changed)
    ensures HasSpace(vm', loc', o, root)
  {
    hide Leaf, SpaceTags;
    assert TagsOf(loc', o) == TagsOf(loc, o);
    forall n | 0 <= n < VPN_LIMIT ensures Leaf(vm'.pool, loc', o, n) == SpaceLeaf(vm', o, n) {
      assert Leaf(vm.pool, loc, o, n) == SpaceLeaf(vm, o, n);
    }
  }

  lemma {:induction false} AbsenceSurvives(m: Pool, loc: Locations, m': Pool, loc': Locations, o: Owner, changed: Owner)
    requires o != changed && NoSpace(loc, o) && OthersSame(m, loc, m', loc', changed)
    ensures NoSpace(loc', o)
  {
    hide Leaf;
  }

  lemma {:induction false} OwnersSurvive(m: Pool, loc: Locations, m': Pool, loc': Locations, changed: Owner)
    requires Owners(loc) && OthersSame(m, loc, m', loc', changed)
    requires changed == KernelSpace || changed.slot < NPROC
    ensures Owners(loc')
  {
    hide Leaf;
  }

  /** After a change to one slot's space only, the other slots and the kernel keep theirs. */
  lemma {:induction false} OtherSlotsSurvive(k: Kernel, loc: Locations, vm': Vm, loc': Locations, changed: Owner)
    requires Typed(k) && TablesOk(k, loc) && OthersSame(k.vm.pool, loc, vm'.pool, loc', changed)
    requires vm'.kernelEnd == k.vm.kernelEnd && vm'.userBase == k.vm.userBase && vm'.kernelPt == k.vm.kernelPt
    ensures forall i: nat :: i < NPROC && SlotSpace(i) != changed ==> SlotTables(vm', loc', i, k.procs[i])
    ensures changed != KernelSpace ==> KernelOwnTables(vm', loc')
  {
    hide Tree, Owners, Active, HasSpace, NoSpace, OthersSame, Layout;
    LayoutFacts(k.vm);
    forall i: nat | i < NPROC && SlotSpace(i) != changed ensures SlotTables(vm', loc', i, k.procs[i]) {
      assert SlotTables(k.vm, loc, i, k.procs[i]);
      if k.procs[i].state == Unused { AbsenceSurvives(k.vm.pool, loc, vm'.pool, loc', SlotSpace(i), changed); }
      else { SpaceSurvives(k.vm, loc, vm', loc', SlotSpace(i), k.procs[i].pagetable, changed); }
    }
    if changed != KernelSpace {
      if k.vm.kernelPt.None? { AbsenceSurvives(k.vm.pool, loc, vm'.pool, loc', KernelSpace, changed); }
      else { SpaceSurvives(k.vm, loc, vm', loc', KernelSpace, k.vm.kernelPt, changed); }
    }
  }

  // -------------------------------------------------------------- capacity

  /** All tables in the pool are among those of the NPROC user spaces and the kernel. */
  lemma {:induction false} KeysInAll(k: Kernel, loc: Locations)
    requires Typed(k) && TablesOk(k, loc)
    ensures k.vm.kernelEnd <= RAM_END && KERNEL_VPN < k.vm.kernelEnd
    ensures loc.Keys <= AllTags(NPROC, k.vm.kernelEnd)
  {
    hide Tree, SpaceTags, AllTags, Leaf;
    forall t | t in loc ensures t in AllTags(NPROC, k.vm.kernelEnd) {
      if t.owner == KernelSpace {
        InAllTagsKernel(NPROC, k.vm.kernelEnd);
        assert t in TagsOf(loc, KernelSpace);
      } else {
        InAllTags(NPROC, k.vm.kernelEnd, t.owner.slot);
        assert SlotTables(k.vm, loc, t.owner.slot, k.procs[t.owner.slot]);
        assert t in TagsOf(loc, SlotSpace(t.owner.slot));
      }
    }
  }

  lemma {:induction false} SlotFits(k: Kernel, loc: Locations, slot: nat)
    requires Typed(k) && TablesOk(k, loc) && slot < NPROC
    ensures KERNEL_VPN <= k.vm.kernelEnd
    ensures |loc.Keys + SpaceTags(SlotSpace(slot), k.vm.kernelEnd)| <= POOL_PAGES
    ensures |loc.Keys + SpaceTags(KernelSpace, k.vm.kernelEnd)| <= POOL_PAGES
  {
    hide Tree, SpaceTags, AllTags, TablesOk;
    KeysInAll(k, loc);
    InAllTags(NPROC, k.vm.kernelEnd, slot);
    EverythingFits(k.vm.kernelEnd, loc.Keys + SpaceTags(SlotSpace(slot), k.vm.kernelEnd));
    EverythingFits(k.vm.kernelEnd, loc.Keys + SpaceTags(KernelSpace, k.vm.kernelEnd));
  }

  // ------------------------------------------------------- destroying a space

  lemma {:induction false} DistinctRoots(m: Pool, loc: Locations, a: Owner, b: Owner)
    requires Tree(m, loc) && Root(a) in loc && Root(b) in loc && loc[Root(a)] == loc[Root(b)]
    ensures a == b
  {
    hide PointersOk, LeavesOk, Connected;
  }

  /** vm_destroy of a live slot whose root is not the active one, and clearing the slot. */
  lemma {:induction false} FreeSlotTables(k: Kernel, loc: Locations, i: nat) returns (loc': Locations)
    requires Typed(k) && TablesOk(k, loc) && i < NPROC && k.procs[i].state != Unused
    requires k.procs[i].pagetable != Some(k.satp)
    ensures TablesOk(FreeSlot(k, i), loc')
    ensures FreeSlot(k, i).vm.frames == k.vm.frames
  {
    hide Tree, Shape, Leaf, SpaceTags, DestroyLevel, NoSpace, OthersSame, TagsOf;
    var o := SlotSpace(i);
    assert SlotTables(k.vm, loc, i, k.procs[i]);
    var root := k.procs[i].pagetable.value;
    loc' := Without(loc, o);
    DestroySpace(k.vm.pool, loc, o);
    if k.vm.kernelPt == Some(root) { DistinctRoots(k.vm.pool, loc, o, KernelSpace); }
    var k' := FreeSlot(k, i);
    assert k'.vm == k.vm.(pool := DestroyLevel(k.vm.pool, root, 2));
    OtherSlotsSurvive(k, loc, k'.vm, loc', o);
    OwnersSurvive(k.vm.pool, loc, k'.vm.pool, loc', o);
    NoSpaceWithout(loc, o);
    ActiveSurvives(loc, o, k.satp);
    forall j: nat | j < NPROC ensures SlotTables(k'.vm, loc', j, k'.procs[j]) {
      assert j != i ==> SlotTables(k'.vm, loc', j, k.procs[j]);
    }
  }

  lemma {:induction false} ActiveSurvives(loc: Locations, o: Owner, satp: nat)
    requires Active(loc, satp) && Root(o) in loc && loc[Root(o)] != satp
    ensures Active(Without(loc, o), satp)
  {
    var b :| Root(b) in loc && loc[Root(b)] == satp;
    assert Root(b) in Without(loc, o) && Without(loc, o)[Root(b)] == satp;
  }

  // ------------------------------------------------------ the kernel's own table

  /** vm_switch(kernel_pagetable()) always succeeds, and satp then names the kernel's root. */
  lemma {:induction false} SwitchToKernelTables(k: Kernel, loc: Locations) returns (loc': Locations)
    requires Typed(k) && TablesOk(k, loc)
    ensures TablesOk(SwitchToKernel(k), loc')
    ensures Root(KernelSpace) in loc' && SwitchToKernel(k).satp == loc'[Root(KernelSpace)]
    ensures SwitchToKernel(k).vm.kernelPt == Some(SwitchToKernel(k).satp)
    ensures SwitchToKernel(k) == k.(vm := SwitchToKernel(k).vm, satp := SwitchToKernel(k).satp)
    ensures SwitchToKernel(k).vm.frames == k.vm.frames
  {
    hide Tree, Shape, Leaf, SpaceTags, KernelPagetable, NoSpace, OthersSame, Layout, Owners, TagsOf;
    LayoutFacts(k.vm);
    SlotFits(k, loc, 0);
    loc' := KernelPagetableRefines(k.vm, loc);
    var k' := SwitchToKernel(k);
    OwnersSurvive(k.vm.pool, loc, k'.vm.pool, loc', KernelSpace);
    KernelBuiltSlots(k, loc, k'.vm, loc');
    assert Active(loc', k'.satp);
    forall i: nat | i < NPROC ensures SlotTables(k'.vm, loc', i, k'.procs[i]) {
      assert SlotTables(k'.vm, loc', i, k.procs[i]);
    }
  }

  lemma {:induction false} KernelBuiltSlots(k: Kernel, loc: Locations, vm': Vm, loc': Locations)
    requires Typed(k) && TablesOk(k, loc) && OthersSame(k.vm.pool, loc, vm'.pool, loc', KernelSpace)
    requires vm'.kernelEnd == k.vm.kernelEnd && vm'.userBase == k.vm.userBase
    ensures forall i: nat :: i < NPROC ==> SlotTables(vm', loc', i, k.procs[i])
  {
    hide Tree, Owners, Active, HasSpace, NoSpace, OthersSame, Layout;
    LayoutFacts(k.vm);
    forall i: nat | i < NPROC ensures SlotTables(vm', loc', i, k.procs[i]) {
      assert SlotTables(k.vm, loc, i, k.procs[i]);
      if k.procs[i].state == Unused { AbsenceSurvives(k.vm.pool, loc, vm'.pool, loc', SlotSpace(i), KernelSpace); }
      else { SpaceSurvives(k.vm, loc, vm', loc', SlotSpace(i), k.procs[i].pagetable, KernelSpace); }
    }
  }

  // --------------------------------------------------------------------- fork

  /** vm_clone_user into an unused slot always succeeds. */
  lemma {:induction false} ForkTables(k: Kernel, loc: Locations, tf: nat, p: nat, i: nat) returns (loc': Locations)
    requires Typed(k) && TablesOk(k, loc) && tf < NPROC && p < NPROC && i < NPROC && k.procs[i].state == Unused
    ensures TablesOk(ForkInto(k, tf, p, i).0, loc') && ForkInto(k, tf, p, i).1 == k.nextPid
    ensures ForkInto(k, tf, p, i).0.vm.frames == CopySlot(k.vm.frames, i, p)
    ensures ForkInto(k, tf, p, i).0.procs[i].state == Runnable && ForkInto(k, tf, p, i).0.satp == k.satp
  {
    hide Tree, Shape, Leaf, SpaceTags, CloneUser, NoSpace, OthersSame, Owners, CopySlot, TagsOf;
    var o := SlotSpace(i);
    assert SlotTables(k.vm, loc, i, k.procs[i]);
    SlotFits(k, loc, i);
    loc' := CloneUserRefines(k.vm, loc, i, p);
    var (vm, root) := CloneUser(k.vm, i, p);
    assert root.Some?;
    var k' := ForkInto(k, tf, p, i).0;
    assert k'.vm == vm;
    OtherSlotsSurvive(k, loc, vm, loc', o);
    OwnersSurvive(k.vm.pool, loc, vm.pool, loc', o);
    ActiveKept(k.vm.pool, loc, vm.pool, loc', o, k.satp);
    forall j: nat | j < NPROC ensures SlotTables(k'.vm, loc', j, k'.procs[j]) {
      assert j != i ==> SlotTables(k'.vm, loc', j, k.procs[j]);
    }
  }

  lemma {:induction false} ActiveKept(m: Pool, loc: Locations, m': Pool, loc': Locations, o: Owner, satp: nat)
    requires Active(loc, satp) && NoSpace(loc, o) && OthersSame(m, loc, m', loc', o)
    ensures Active(loc', satp)
  {
    hide Leaf;
    var b :| Root(b) in loc && loc[Root(b)] == satp;
    assert Root(b) in loc' && loc'[Root(b)] == satp;
  }
}
