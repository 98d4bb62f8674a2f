/** The first process: main never panics, and the machine it starts satisfies the invariant. */
module BootInvariant {
  import opened Wrappers
  import PageTable
  import opened AddressSpace
  import opened Process
  import opened ProcessInvariants
  import opened KernelTables
  import opened Machine
  import opened KernelInvariant

  lemma {:induction false} EmptyTree(vm: Vm)
    requires PoweredOn(vm)
    ensures PageTable.Tree(vm.pool, map[])
  {
  }

  lemma {:induction false} InitFits(kernelEnd: nat)
    requires KERNEL_VPN < kernelEnd <= RAM_END
    ensures var none: PageTable.Locations := map[];
            |none.Keys + SpaceTags(PageTable.SlotSpace(0), kernelEnd)| <= PageTable.POOL_PAGES
  {
    hide SpaceTags, AllTags;
    var none: PageTable.Locations := map[];
    InAllTags(NPROC, kernelEnd, 0);
    assert none.Keys + SpaceTags(PageTable.SlotSpace(0), kernelEnd) == SpaceTags(PageTable.SlotSpace(0), kernelEnd);
    EverythingFits(kernelEnd, SpaceTags(PageTable.SlotSpace(0), kernelEnd));
  }

  /** Boot succeeds on every layout and image. */
  lemma {:induction false} BootOk(vm: Vm, image: seq<Byte>) returns (loc: PageTable.Locations)
    requires PoweredOn(vm)
    ensures Boot(vm, image).Some? && Inv(Boot(vm, image).value, loc)
  {
    hide PageTable.Tree, PageTable.Leaf, SpaceTags, CreateUser, Layout, Core, TablesOk, Dispatch, Restore, HasSpace,
         NoSpace, OthersSame;
    EmptyTree(vm);
    LayoutFacts(vm);
    InitFits(vm.kernelEnd);
    var none: PageTable.Locations := map[];
    NoSpaceInNone(PageTable.SlotSpace(0));
    loc := CreateUserRefines(vm, none, image, 0);
    var (vm1, root) := CreateUser(vm, image, 0);
    assert root.Some?;
    var k := InitKernel(vm1, root.value);
    BootCore(k);
    BootTables(k, vm, loc);
    BootDispatch(k, loc);
    RestoreOk(Dispatch(k), loc);
  }

  lemma {:induction false} NoSpaceInNone(o: PageTable.Owner)
    ensures NoSpace(map[], o)
  {
  }

  ghost predicate Fresh(k: Kernel) {
    && Typed(k) && k.current == None && k.lastSlot == -1 && k.nextPid == 2 && k.hist == History(map[], [])
    && k.procs[0].state == Runnable && k.procs[0].pid == 1 && k.procs[0].parent == None
    && (forall i :: 0 <= i < NPROC ==> k.procs[i].tf == i && k.procs[i].wakeTick == 0 && k.tfs[i].kernelStack == i)
    && (forall i :: 1 <= i < NPROC ==> k.procs[i].state == Unused)
  }

  lemma {:induction false} BootCore(k: Kernel)
    requires Fresh(k)
    ensures Core(k) && NoneRunning(k.procs)
  {
  }

  lemma {:induction false} BootTables(k: Kernel, vm: Vm, loc: PageTable.Locations)
    requires Fresh(k) && PoweredOn(vm) && k.procs[0].pagetable == Some(k.satp)
    requires PageTable.Tree(k.vm.pool, loc) && PageTable.Tree(vm.pool, map[])
    requires OthersSame(vm.pool, map[], k.vm.pool, loc, PageTable.SlotSpace(0))
    requires HasSpace(k.vm, loc, PageTable.SlotSpace(0), Some(k.satp)) && k.vm.kernelPt.None?
    ensures TablesOk(k, loc)
  {
    hide PageTable.Tree, PageTable.Leaf, SpaceTags, TagsOf;
    assert forall t :: t in loc ==> t.owner == PageTable.SlotSpace(0);
    assert PageTable.Root(PageTable.SlotSpace(0)) in loc;
    assert Active(loc, k.satp);
    forall i: nat | i < NPROC ensures SlotTables(k.vm, loc, i, k.procs[i]) {}
  }

  lemma {:induction false} BootDispatch(k: Kernel, loc: PageTable.Locations)
    requires Fresh(k) && Core(k) && NoneRunning(k.procs) && TablesOk(k, loc)
    ensures KernelOk(Dispatch(k), loc) && Dispatch(k).current == Some(0)
  {
    hide Core, TablesOk, Probe, Layout;
    assert Probe(k.procs, -1, 1) == Some(0) by { FirstProbe(k.procs); }
    var r := Dispatch(k);
    assert Reshuffled(k.procs, r.procs);
    ReshuffledCore(k, r);
    SameTablesOk(k, r, loc);
  }

  lemma {:induction false} FirstProbe(procs: seq<Proc>)
    requires |procs| == NPROC && procs[0].state == Runnable
    ensures Probe(procs, -1, 1) == Some(0)
  {
  }
}
