/** Address spaces: kernel_map, vm_create_user, vm_clone_user, kernel_pagetable and vm_destroy. */
module AddressSpace {
  import opened Wrappers
  import opened Sv39
  import opened PageTable
  import opened Mapping

  const NPROC := 8
  const IMAGE_PAGES := 4
  const TOTAL_PAGES := 5
  const KERNEL_VPN := 0x80000     // 0x80000000
  const UART_VPN := 0x10000       // UART0
  const USER_VPN := 0x40000       // USER_BASE
  const STACK_VPN := 0x7FFFF      // USER_STACK_TOP - PGSIZE
  const RAM_END := 0x88000        // 128 MiB of RAM from 0x80000000

  const RWX := Perm(true, true, true, false)
  const RW := Perm(true, true, false, false)
  const RWXU := Perm(true, true, true, true)
  const RWU := Perm(true, true, false, true)

  newtype Byte = x: int | 0 <= x < 256

  /** `kernelEnd` is the page after the kernel image, `userBase` the page number of user_mem_base;
   *  frames[slot * TOTAL_PAGES + page] holds the bytes of user_mem_base[slot][page]. */
  datatype Vm = Vm(pool: Pool, kernelPt: Option<nat>, kernelEnd: nat, userBase: nat, frames: seq<seq<Byte>>)

  predicate FramesOk(frames: seq<seq<Byte>>) {
    |frames| == NPROC * TOTAL_PAGES && forall f :: 0 <= f < |frames| ==> |frames[f]| == PGSIZE
  }

  /** Where the linker puts the pool and the user frames: inside the kernel image, apart from each
   *  other, and below the end of RAM. */
  predicate Layout(vm: Vm) {
    && Shape(vm.pool) && FramesOk(vm.frames)
    && 0x80200 <= vm.pool.base && vm.pool.base + POOL_PAGES <= vm.kernelEnd
    && 0x80200 <= vm.userBase && vm.userBase + NPROC * TOTAL_PAGES <= vm.kernelEnd
    && (vm.userBase + NPROC * TOTAL_PAGES <= vm.pool.base || vm.pool.base + POOL_PAGES <= vm.userBase)
    && vm.kernelEnd <= RAM_END
    && (vm.kernelPt.Some? ==> vm.kernelPt.value < POOL_PAGES)
  }

  function SlotBase(vm: Vm, slot: nat): nat { vm.userBase + slot * TOTAL_PAGES }

  // ------------------------------------------------------------- operations

  /** kernel_map */
  function KernelMap(m: Pool, root: nat, kernelEnd: nat): (r: (Pool, bool))
    requires Shape(m) && root < POOL_PAGES && KERNEL_VPN <= kernelEnd
    ensures Shape(r.0) && r.0.base == m.base
  {
    var (m1, ok) := MapPages(m, root, KERNEL_VPN, kernelEnd - KERNEL_VPN, KERNEL_VPN, RWX);
    if !ok then (m1, false) else MapPages(m1, root, UART_VPN, 1, UART_VPN, RW)
  }

  /** The two user mappings of vm_create_user and vm_clone_user. */
  function UserMap(m: Pool, root: nat, ppn: nat): (r: (Pool, bool))
    requires Shape(m) && root < POOL_PAGES
    ensures Shape(r.0) && r.0.base == m.base
  {
    var (m1, ok) := MapPages(m, root, USER_VPN, IMAGE_PAGES, ppn, RWXU);
    if !ok then (m1, false) else MapPages(m1, root, STACK_VPN, 1, ppn + IMAGE_PAGES, RWU)
  }

  /** vm_destroy */
  function VmDestroy(vm: Vm, root: Option<nat>): (r: Vm)
    requires Layout(vm) && (root.Some? ==> root.value < POOL_PAGES)
    ensures Layout(r)
  {
    if root.None? || root == vm.kernelPt then vm else vm.(pool := DestroyLevel(vm.pool, root.value, 2))
  }

  /** Map the user pages of a slot, or tear the half-built table down. */
  function MapUser(vm: Vm, root: nat, slot: nat): (r: (Vm, Option<nat>))
    requires Layout(vm) && root < POOL_PAGES && slot < NPROC
    ensures Layout(r.0) && (r.1.Some? ==> r.1.value < POOL_PAGES)
  {
    var (m, ok) := UserMap(vm.pool, root, SlotBase(vm, slot));
    var vm1 := vm.(pool := m);
    if ok then (vm1, Some(root)) else (VmDestroy(vm1, Some(root)), None)
  }

  /** The bytes of page `page` of a zero-padded image, cut at USER_IMAGE_PAGES pages. */
  function ImagePage(image: seq<Byte>, page: nat): (s: seq<Byte>)
    ensures |s| == PGSIZE
  {
    seq(PGSIZE, b requires 0 <= b < PGSIZE =>
      if page < IMAGE_PAGES && page * PGSIZE + b < |image| then image[page * PGSIZE + b] else 0)
  }

  /** memset and memcpy of the slot's frames in vm_create_user. */
  function LoadImage(frames: seq<seq<Byte>>, slot: nat, image: seq<Byte>): (r: seq<seq<Byte>>)
    requires FramesOk(frames) && slot < NPROC
    ensures FramesOk(r)
  {
    seq(|frames|, f requires 0 <= f < |frames| =>
      if f / TOTAL_PAGES == slot then ImagePage(image, f % TOTAL_PAGES) else frames[f])
  }

  /** memcpy(dst, src, USER_TOTAL_PAGES * PGSIZE) in vm_clone_user. */
  function CopySlot(frames: seq<seq<Byte>>, dst: nat, src: nat): (r: seq<seq<Byte>>)
    requires FramesOk(frames) && dst < NPROC && src < NPROC
    ensures FramesOk(r)
  {
    seq(|frames|, f requires 0 <= f < |frames| =>
      if f / TOTAL_PAGES == dst then frames[src * TOTAL_PAGES + f % TOTAL_PAGES] else frames[f])
  }

  /** Allocate a root and map the kernel; a failure tears the table down. */
  function StartUser(vm: Vm): (r: (Vm, Option<nat>))
    requires Layout(vm)
    ensures Layout(r.0) && (r.1.Some? ==> r.1.value < POOL_PAGES)
  {
    var (m0, root) := Alloc(vm.pool);
    if root.None? then (vm, None) else
    var (m1, ok) := KernelMap(m0, root.value, vm.kernelEnd);
    if ok then (vm.(pool := m1), root) else (vm.(pool := DestroyLevel(m1, root.value, 2)), None)
  }

  /** vm_create_user */
  function CreateUser(vm: Vm, image: seq<Byte>, slot: int): (r: (Vm, Option<nat>))
    requires Layout(vm)
    ensures Layout(r.0) && (r.1.Some? ==> r.1.value < POOL_PAGES)
  {
    if slot < 0 || slot >= NPROC then (vm, None) else
    var (vm1, root) := StartUser(vm);
    if root.None? then (vm1, None)
    else MapUser(vm1.(frames := LoadImage(vm1.frames, slot, image)), root.value, slot)
  }

  /** vm_clone_user */
  function CloneUser(vm: Vm, dst: int, src: int): (r: (Vm, Option<nat>))
    requires Layout(vm)
    ensures Layout(r.0) && (r.1.Some? ==> r.1.value < POOL_PAGES)
  {
    if dst < 0 || dst >= NPROC || src < 0 || src >= NPROC then (vm, None) else
    var (vm1, root) := StartUser(vm);
    if root.None? then (vm1, None)
    else MapUser(vm1.(frames := CopySlot(vm1.frames, dst, src)), root.value, dst)
  }

  /** kernel_pagetable: built on first use; a failed kernel_map releases the root only. */
  function KernelPagetable(vm: Vm): (r: (Vm, Option<nat>))
    requires Layout(vm)
    ensures Layout(r.0) && r.1 == r.0.kernelPt
  {
    if vm.kernelPt.Some? then (vm, vm.kernelPt) else
    var (m0, root) := Alloc(vm.pool);
    if root.None? then (vm, None) else
    var (m1, ok) := KernelMap(m0, root.value, vm.kernelEnd);
    if ok then (vm.(pool := m1, kernelPt := root), root)
    else (vm.(pool := Release(m1, root.value)), None)
  }

  // ----------------------------------------------- what an address space holds

  /** The declared contents of an address space, page by page. */
  function SpaceLeaf(vm: Vm, o: Owner, n: nat): Pte {
    if KERNEL_VPN <= n < vm.kernelEnd then LeafPte(n, RWX)
    else if n == UART_VPN then LeafPte(n, RW)
    else if o.SlotSpace? && USER_VPN <= n < USER_VPN + IMAGE_PAGES 
    then LeafPte(SlotBase(vm, o.slot) + (n - USER_VPN), RWXU)
    else if o.SlotSpace? && n == STACK_VPN then LeafPte(SlotBase(vm, o.slot) + IMAGE_PAGES, RWU)
    else EMPTY
  }

  function KernelTags(o: Owner, kernelEnd: nat): set<Tag>
    requires KERNEL_VPN <= kernelEnd
  {
    RangeTags(o, KERNEL_VPN, kernelEnd - KERNEL_VPN) + RangeTags(o, UART_VPN, 1)
  }

  function UserTags(o: Owner): set<Tag> {
    RangeTags(o, USER_VPN, IMAGE_PAGES) + RangeTags(o, STACK_VPN, 1)
  }

  /** The tables of an address space. */
  function SpaceTags(o: Owner, kernelEnd: nat): set<Tag>
    requires KERNEL_VPN <= kernelEnd
  {
    {Root(o)} + KernelTags(o, kernelEnd) + (if o.SlotSpace? then UserTags(o) else {})
  }

  function TagsOf(loc: Locations, o: Owner): set<Tag> { set t | t in loc && t.owner == o }

  /** The tables and contents of space o are exactly the declared ones, and its root is `root`. */
  ghost predicate HasSpace(vm: Vm, loc: Locations, o: Owner, root: Option<nat>)
    requires KERNEL_VPN <= vm.kernelEnd
  {
    && Root(o) in loc && root == Some(loc[Root(o)])
    && TagsOf(loc, o) == SpaceTags(o, vm.kernelEnd)
    && (forall n :: 0 <= n < VPN_LIMIT ==> Leaf(vm.pool, loc, o, n) == SpaceLeaf(vm, o, n))
  }

  /** The tables and translations of every space but o are untouched. */
  ghost predicate OthersSame(m: Pool, loc: Locations, m': Pool, loc': Locations, o: Owner) {
    && (forall t: Tag :: t.owner != o ==> (t in loc <==> t in loc'))
    && (forall t :: t in loc && t.owner != o ==> t in loc' && loc'[t] == loc[t])
    && (forall b, n :: b != o && 0 <= n < VPN_LIMIT ==> Leaf(m', loc', b, n) == Leaf(m, loc, b, n))
  }

  /** Owner o has no table. */
  ghost predicate NoSpace(loc: Locations, o: Owner) { forall t :: t in loc ==> t.owner != o }

  // ------------------------------------------------------- tearing a space down

  function Without(loc: Locations, o: Owner): Locations { map t | t in loc && t.owner != o :: loc[t] }

  lemma {:induction false} AllUnderRoot(m: Pool, loc: Locations, t: Tag)
    requires Tree(m, loc) && t in loc
    ensures Under(t, Root(t.owner)) && Root(t.owner) in loc
    decreases 2 - t.level
  {
    if t.level < 2 { AllUnderRoot(m, loc, Parent(t)); }
  }

  lemma {:induction false} UnderSameOwner(t: Tag, s: Tag)
    requires Under(t, s)
    ensures t.owner == s.owner
    decreases s.level - t.level
  {
    if t != s { UnderSameOwner(Parent(t), s); }
  }

  /** Destroying a root frees exactly the pages of its owner and leaves every other space alone. */
  lemma {:induction false} DestroySpace(m: Pool, loc: Locations, o: Owner)
    requires Tree(m, loc) && Root(o) in loc
    ensures var m' := DestroyLevel(m, loc[Root(o)], 2);
            Tree(m', Without(loc, o)) && OthersSame(m, loc, m', Without(loc, o), o)
  {
    var m' := DestroyLevel(m, loc[Root(o)], 2);
    var loc' := Without(loc, o);
    DestroyLevelFrees(m, m, loc, Root(o));
    forall p | 0 <= p < POOL_PAGES
      ensures HeldUnder(loc, Root(o), p) <==> exists t :: t in loc && t.owner == o && loc[t] == p
    {
      if t :| t in loc && t.owner == o && loc[t] == p { AllUnderRoot(m, loc, t); }
      if HeldUnder(loc, Root(o), p) {
        var t :| t in loc && Under(t, Root(o)) && loc[t] == p;
        UnderSameOwner(t, Root(o));
      }
    }
    WithoutPlaced(m, m', loc, o);
    WithoutTree(m, m', loc, o);
  }

  lemma {:induction false} WithoutPlaced(m: Pool, m': Pool, loc: Locations, o: Owner)
    requires Tree(m, loc) && Shape(m') && m'.pages == m.pages && m'.base == m.base
    requires forall p :: 0 <= p < POOL_PAGES ==>
               (m'.used[p] <==> m.used[p] && !exists t :: t in loc && t.owner == o && loc[t] == p)
    ensures Placed(m', Without(loc, o))
  {
    var loc' := Without(loc, o);
    forall p | 0 <= p < POOL_PAGES && m'.used[p] ensures p in loc'.Values {
      assert p in loc.Values;
      var t :| t in loc && loc[t] == p;
      assert t.owner != o;
      assert loc'[t] == p;
    }
    forall t | t in loc' ensures m'.used[loc'[t]] {
      assert m.used[loc[t]];
    }
  }

  lemma {:induction false} WithoutTree(m: Pool, m': Pool, loc: Locations, o: Owner)
    requires Tree(m, loc) && Shape(m') && m'.pages == m.pages && m'.base == m.base
    requires Placed(m', Without(loc, o))
    ensures Tree(m', Without(loc, o)) && OthersSame(m, loc, m', Without(loc, o), o)
  {
    hide PointersOk, LeavesOk, Leaf, Placed, Connected;
    WithoutPointers(m, m', loc, o);
    WithoutLeaves(m, m', loc, o);
  }

  lemma {:induction false} WithoutPointers(m: Pool, m': Pool, loc: Locations, o: Owner)
    requires Tree(m, loc) && Shape(m') && m'.pages == m.pages && m'.base == m.base
    requires Placed(m', Without(loc, o))
    ensures PointersOk(m', Without(loc, o)) && Connected(Without(loc, o))
  {
    hide LeavesOk, ValidTag;
    var loc' := Without(loc, o);
    forall t, i | t in loc' && t.level > 0 && 0 <= i < ENTRIES
      ensures m'.pages[loc'[t]][i] == PointerEntry(m'.base, loc', Child(t, i))
    {
      assert m.pages[loc[t]][i] == PointerEntry(m.base, loc, Child(t, i));
      assert Child(t, i) in loc' <==> Child(t, i) in loc;
    }
  }

  lemma {:induction false} WithoutLeaves(m: Pool, m': Pool, loc: Locations, o: Owner)
    requires Tree(m, loc) && Shape(m') && m'.pages == m.pages && m'.base == m.base
    requires Placed(m', Without(loc, o))
    ensures LeavesOk(m', Without(loc, o))
    ensures forall b, n :: b != o && 0 <= n < VPN_LIMIT ==> Leaf(m', Without(loc, o), b, n) == Leaf(m, loc, b, n)
  {
    hide PointersOk, Connected, ValidTag;
    var loc' := Without(loc, o);
    forall t, i | t in loc' && t.level == 0 && 0 <= i < ENTRIES
      ensures m'.pages[loc'[t]][i] == EMPTY || IsLeaf(m'.pages[loc'[t]][i])
    {
      assert t in loc && loc'[t] == loc[t];
    }
  }

  /** The used flags are determined by the placement. */
  lemma {:induction false} SamePlacementUse(m: Pool, m': Pool, loc: Locations)
    requires Tree(m, loc) && Tree(m', loc)
    ensures m.used == m'.used
  {
    forall p | 0 <= p < POOL_PAGES ensures m.used[p] == m'.used[p] {
      if m.used[p] { assert p in loc.Values; }
      if m'.used[p] { assert p in loc.Values; }
    }
  }

  // -------------------------------------------------------- building a space

  lemma {:induction false} RangeOwner(o: Owner, n: nat, count: nat)
    ensures forall t :: t in RangeTags(o, n, count) ==> t.owner == o
    decreases count
  {
    if count > 0 { RangeOwner(o, n + 1, count - 1); }
  }

  /** Two consecutive mappages calls into one space, the second skipped when the first fails. */
  function MapTwo(m: Pool, root: nat, n1: nat, c1: nat, p1: nat, q1: Perm, n2: nat, c2: nat, p2: nat,
                  q2: Perm): (r: (Pool, bool))
    requires Shape(m) && root < POOL_PAGES
    ensures Shape(r.0) && r.0.base == m.base
  {
    var (m1, ok) := MapPages(m, root, n1, c1, p1, q1);
    if !ok then (m1, false) else MapPages(m1, root, n2, c2, p2, q2)
  }

  /** The tables and leaves after a successful MapTwo. */
  ghost predicate TwoMapped(m: Pool, loc: Locations, m': Pool, loc': Locations, o: Owner,
                            n1: nat, c1: nat, p1: nat, q1: Perm, n2: nat, c2: nat, p2: nat, q2: Perm) {
    forall k :: 0 <= k < VPN_LIMIT ==>
      Leaf(m', loc', o, k) ==
        if n2 <= k < n2 + c2 then LeafPte(p2 + (k - n2), q2)
        else if n1 <= k < n1 + c1 then LeafPte(p1 + (k - n1), q1)
        else Leaf(m, loc, o, k)
  }

  lemma {:induction false} MapTwoRefines(m: Pool, loc: Locations, o: Owner,
                      n1: nat, c1: nat, p1: nat, q1: Perm, n2: nat, c2: nat, p2: nat, q2: Perm)
    returns (loc': Locations)
    requires Tree(m, loc) && Root(o) in loc && loc[Root(o)] < POOL_PAGES && q1.r && q2.r
    requires n1 + c1 <= VPN_LIMIT && n2 + c2 <= VPN_LIMIT && (n1 + c1 <= n2 || n2 + c2 <= n1)
    requires Unmapped(m, loc, o, n1, c1) && Unmapped(m, loc, o, n2, c2)
    ensures var r := MapTwo(m, loc[Root(o)], n1, c1, p1, q1, n2, c2, p2, q2);
            var tags := RangeTags(o, n1, c1) + RangeTags(o, n2, c2);
            && Tree(r.0, loc') && Extends(loc, loc') && OtherLeavesSame(m, loc, r.0, loc', o)
            && loc.Keys <= loc'.Keys <= loc.Keys + tags
            && (r.1 ==> loc'.Keys == loc.Keys + tags)
            && (r.1 ==> TwoMapped(m, loc, r.0, loc', o, n1, c1, p1, q1, n2, c2, p2, q2))
            && (r.1 <==> |loc.Keys + tags| <= POOL_PAGES)
  {
    hide Tree, Shape, Leaf, MapPages, RangeTags;
    TreeShape(m, loc);
    var root := loc[Root(o)];
    var tags1, tags2 := RangeTags(o, n1, c1), RangeTags(o, n2, c2);
    var (m1, ok) := MapPages(m, root, n1, c1, p1, q1);
    loc' := MapPagesRefines(m, loc, o, n1, c1, p1, q1);
    SubsetSize(loc.Keys + tags1, loc.Keys + (tags1 + tags2));
    if ok {
      var loc1 := loc';
      forall k | n2 <= k < n2 + c2 ensures Leaf(m1, loc1, o, k) == EMPTY {
        assert Leaf(m, loc, o, k) == EMPTY;
      }
      loc' := MapPagesRefines(m1, loc1, o, n2, c2, p2, q2);
      assert (loc.Keys + tags1) + tags2 == loc.Keys + (tags1 + tags2);
    }
  }

  lemma {:induction false} KernelMapRefines(m: Pool, loc: Locations, o: Owner, kernelEnd: nat) returns (loc': Locations)
    requires Tree(m, loc) && Root(o) in loc && loc[Root(o)] < POOL_PAGES && KERNEL_VPN <= kernelEnd <= RAM_END
    requires Unmapped(m, loc, o, 0, VPN_LIMIT)
    ensures var r := KernelMap(m, loc[Root(o)], kernelEnd);
            && Tree(r.0, loc') && Extends(loc, loc') && OtherLeavesSame(m, loc, r.0, loc', o)
            && loc.Keys <= loc'.Keys <= loc.Keys + KernelTags(o, kernelEnd)
            && (r.1 ==> loc'.Keys == loc.Keys + KernelTags(o, kernelEnd))
            && (r.1 ==> forall k :: 0 <= k < VPN_LIMIT ==> Leaf(r.0, loc', o, k) == KernelLeaf(kernelEnd, k))
            && (r.1 <==> |loc.Keys + KernelTags(o, kernelEnd)| <= POOL_PAGES)
  {
    hide Tree, Shape, Leaf, MapPages, RangeTags;
    TreeShape(m, loc);
    var root := loc[Root(o)];
    assert KernelMap(m, root, kernelEnd)
        == MapTwo(m, root, KERNEL_VPN, kernelEnd - KERNEL_VPN, KERNEL_VPN, RWX, UART_VPN, 1, UART_VPN, RW);
    assert Unmapped(m, loc, o, KERNEL_VPN, kernelEnd - KERNEL_VPN) && Unmapped(m, loc, o, UART_VPN, 1);
    loc' := MapTwoRefines(m, loc, o, KERNEL_VPN, kernelEnd - KERNEL_VPN, KERNEL_VPN, RWX, UART_VPN, 1, UART_VPN, RW);
  }

  /** The kernel part of every space. */
  function KernelLeaf(kernelEnd: nat, n: nat): Pte {
    if KERNEL_VPN <= n < kernelEnd then LeafPte(n, RWX) else if n == UART_VPN then LeafPte(n, RW) else EMPTY
  }

  lemma {:induction false} UserMapRefines(m: Pool, loc: Locations, o: Owner, kernelEnd: nat, ppn: nat)
    returns (loc': Locations)
    requires Tree(m, loc) && Root(o) in loc && loc[Root(o)] < POOL_PAGES && KERNEL_VPN <= kernelEnd <= RAM_END
    requires forall k :: 0 <= k < VPN_LIMIT ==> Leaf(m, loc, o, k) == KernelLeaf(kernelEnd, k)
    ensures var r := UserMap(m, loc[Root(o)], ppn);
            && Tree(r.0, loc') && Extends(loc, loc') && OtherLeavesSame(m, loc, r.0, loc', o)
            && loc.Keys <= loc'.Keys <= loc.Keys + UserTags(o)
            && (r.1 ==> loc'.Keys == loc.Keys + UserTags(o))
            && (r.1 ==>
                  TwoMapped(m, loc, r.0, loc', o, USER_VPN, IMAGE_PAGES, ppn, RWXU,
                            STACK_VPN, 1, ppn + IMAGE_PAGES, RWU))
            && (r.1 <==> |loc.Keys + UserTags(o)| <= POOL_PAGES)
  {
    hide Tree, Shape, Leaf, MapPages, RangeTags;
    TreeShape(m, loc);
    var root := loc[Root(o)];
    assert UserMap(m, root, ppn)
        == MapTwo(m, root, USER_VPN, IMAGE_PAGES, ppn, RWXU, STACK_VPN, 1, ppn + IMAGE_PAGES, RWU);
    loc' := MapTwoRefines(m, loc, o, USER_VPN, IMAGE_PAGES, ppn, RWXU, STACK_VPN, 1, ppn + IMAGE_PAGES, RWU);
  }

  /** A fresh root for o: no page is mapped yet. */
  lemma {:induction false} FreshRoot(m: Pool, loc: Locations, o: Owner, c: nat)
    requires Tree(m, loc) && NoSpace(loc, o) && Alloc(m).1 == Some(c)
    ensures Tree(Alloc(m).0, loc[Root(o) := c]) && Unmapped(Alloc(m).0, loc[Root(o) := c], o, 0, VPN_LIMIT)
    ensures OtherLeavesSame(m, loc, Alloc(m).0, loc[Root(o) := c], o)
  {
    GrowRoot(m, loc, o, c);
    var m', loc' := Alloc(m).0, loc[Root(o) := c];
    forall n | 0 <= n < VPN_LIMIT ensures Leaf(m', loc', o, n) == EMPTY {
      assert Table(o, n, 0) !in loc;
    }
  }

  lemma {:induction false} TagsOwner(o: Owner, kernelEnd: nat)
    requires KERNEL_VPN <= kernelEnd
    ensures forall t :: t in SpaceTags(o, kernelEnd) ==> t.owner == o
    ensures forall t :: t in UserTags(o) ==> t.owner == o
  {
    RangeOwner(o, KERNEL_VPN, kernelEnd - KERNEL_VPN);
    RangeOwner(o, UART_VPN, 1);
    RangeOwner(o, USER_VPN, IMAGE_PAGES);
    RangeOwner(o, STACK_VPN, 1);
  }

  lemma {:induction false} OwnedExtension(m: Pool, loc: Locations, m': Pool, loc': Locations, o: Owner, tags: set<Tag>)
    requires Tree(m, loc) && Tree(m', loc') && Extends(loc, loc') && OtherLeavesSame(m, loc, m', loc', o)
    requires loc.Keys <= loc'.Keys <= loc.Keys + tags && (forall t :: t in tags ==> t.owner == o)
    ensures OthersSame(m, loc, m', loc', o)
  {
    hide Tree, Shape, Leaf;
  }

  /** StartUser: on success the kernel part of space o is there; on failure nothing has changed. */
  lemma {:induction false} StartUserRefines(vm: Vm, loc: Locations, o: Owner) returns (loc': Locations)
    requires Layout(vm) && Tree(vm.pool, loc) && NoSpace(loc, o)
    ensures var r := StartUser(vm);
            var tags := {Root(o)} + KernelTags(o, vm.kernelEnd);
            && r.0 == vm.(pool := r.0.pool) && r.0.pool.base == vm.pool.base
            && Tree(r.0.pool, loc') && OthersSame(vm.pool, loc, r.0.pool, loc', o)
            && (r.1.Some? <==> |loc.Keys + tags| <= POOL_PAGES)
            && (r.1.Some? ==> && Root(o) in loc' && loc'[Root(o)] == r.1.value && loc'.Keys == loc.Keys + tags
                              && forall k :: 0 <= k < VPN_LIMIT ==>
                                Leaf(r.0.pool, loc', o, k) == KernelLeaf(vm.kernelEnd, k))
            && (r.1.None? ==> loc' == loc)
  {
    hide Tree, Shape, Leaf, MapPages, RangeTags, KernelMap, DestroyLevel, KernelTags, OthersSame, NoSpace;
    var (m0, root) := Alloc(vm.pool);
    var tags := {Root(o)} + KernelTags(o, vm.kernelEnd);
    if root.None? {
      loc' := loc;
      FullKeys(vm.pool, loc);
      NoRoot(loc, o);
      assert Root(o) in loc.Keys + tags;
      ProperSubsetSize(loc.Keys, loc.Keys + tags);
      OthersReflexive(vm.pool, loc, o);
    } else {
      loc' := StartTables(vm, loc, o, root.value);
      var (m1, ok) := KernelMap(m0, root.value, vm.kernelEnd);
      if !ok {
        DestroySpace(m1, loc', o);
        var m2 := DestroyLevel(m1, root.value, 2);
        OthersTransitive(vm.pool, loc, m1, loc', m2, Without(loc', o), o);
        NoSpaceWithout(loc', o);
        NoSpaceSame(vm.pool, loc, m2, Without(loc', o), o);
        loc' := loc;
      }
    }
  }

  lemma {:induction false} NoRoot(loc: Locations, o: Owner)
    requires NoSpace(loc, o)
    ensures Root(o) !in loc
  {
  }

  lemma {:induction false} OthersReflexive(m: Pool, loc: Locations, o: Owner)
    ensures OthersSame(m, loc, m, loc, o)
  {
  }

  lemma {:induction false} NoSpaceWithout(loc: Locations, o: Owner)
    ensures NoSpace(Without(loc, o), o)
  {
  }

  /** The tables after a root was allocated and kernel_map ran, whether or not it got to the end. */
  lemma {:induction false} StartTables(vm: Vm, loc: Locations, o: Owner, root: nat) returns (loc': Locations)
    requires Layout(vm) && Tree(vm.pool, loc) && NoSpace(loc, o) && Alloc(vm.pool).1 == Some(root)
    ensures var r := KernelMap(Alloc(vm.pool).0, root, vm.kernelEnd);
            var tags := {Root(o)} + KernelTags(o, vm.kernelEnd);
            && Tree(r.0, loc') && OthersSame(vm.pool, loc, r.0, loc', o) && r.0.base == vm.pool.base
            && (r.1 <==> |loc.Keys + tags| <= POOL_PAGES)
            && Root(o) in loc' && loc'[Root(o)] == root
            && (r.1 ==> && loc'.Keys == loc.Keys + tags
                        && forall k :: 0 <= k < VPN_LIMIT ==> Leaf(r.0, loc', o, k) == KernelLeaf(vm.kernelEnd, k))
  {
    hide Tree, Shape, Leaf, MapPages, RangeTags, KernelMap, DestroyLevel, KernelTags;
    var m0 := Alloc(vm.pool).0;
    var tags := {Root(o)} + KernelTags(o, vm.kernelEnd);
    TagsOwner(o, vm.kernelEnd);
    FreshRoot(vm.pool, loc, o, root);
    var loc0 := loc[Root(o) := root];
    loc' := KernelMapRefines(m0, loc0, o, vm.kernelEnd);
    assert loc0.Keys + KernelTags(o, vm.kernelEnd) == loc.Keys + tags;
    assert Extends(loc, loc') && loc.Keys <= loc'.Keys;
    OwnedExtension(vm.pool, loc, KernelMap(m0, root, vm.kernelEnd).0, loc', o, tags);
  }

  /** MapUser: on success space o is complete; on failure it is gone. */
  lemma {:induction false} MapUserRefines(vm: Vm, loc: Locations, slot: nat, root: nat) returns (loc': Locations)
    requires Layout(vm) && Tree(vm.pool, loc) && slot < NPROC && root < POOL_PAGES && vm.kernelPt != Some(root)
    requires Root(SlotSpace(slot)) in loc && loc[Root(SlotSpace(slot))] == root
    requires TagsOf(loc, SlotSpace(slot)) == {Root(SlotSpace(slot))} + KernelTags(SlotSpace(slot), vm.kernelEnd)
    requires forall k :: 0 <= k < VPN_LIMIT ==> Leaf(vm.pool, loc, SlotSpace(slot), k) == KernelLeaf(vm.kernelEnd, k)
    ensures var o := SlotSpace(slot);
            var r := MapUser(vm, root, slot);
            && r.0 == vm.(pool := r.0.pool) && r.0.pool.base == vm.pool.base
            && Tree(r.0.pool, loc') && OthersSame(vm.pool, loc, r.0.pool, loc', o)
            && (r.1.Some? <==> |loc.Keys + UserTags(o)| <= POOL_PAGES)
            && (r.1.Some? ==> HasSpace(r.0, loc', o, r.1) && loc'.Keys == loc.Keys + UserTags(o))
            && (r.1.None? ==> NoSpace(loc', o))
  {
    hide Tree, Shape, Leaf, MapPages, RangeTags, UserMap, DestroyLevel, KernelTags, UserTags;
    var o := SlotSpace(slot);
    loc' := UserMapRefines(vm.pool, loc, o, vm.kernelEnd, SlotBase(vm, slot));
    var (m, ok) := UserMap(vm.pool, root, SlotBase(vm, slot));
    TagsOwner(o, vm.kernelEnd);
    OwnedExtension(vm.pool, loc, m, loc', o, UserTags(o));
    if ok {
      assert TagsOf(loc', o) == TagsOf(loc, o) + UserTags(o);
      assert TagsOf(loc', o) == SpaceTags(o, vm.kernelEnd);
    } else {
      DestroySpace(m, loc', o);
      loc' := Without(loc', o);
    }
  }

  /** The frames of a build step do not matter to its tables. */
  lemma {:induction false} FramesIrrelevant(vm: Vm, loc: Locations, o: Owner, root: Option<nat>, frames: seq<seq<Byte>>)
    requires Layout(vm) && Tree(vm.pool, loc) && FramesOk(frames) && HasSpace(vm, loc, o, root)
    ensures HasSpace(vm.(frames := frames), loc, o, root)
  {
    hide Tree, Shape, Leaf, RangeTags;
    var vm' := vm.(frames := frames);
    forall n | 0 <= n < VPN_LIMIT ensures Leaf(vm'.pool, loc, o, n) == SpaceLeaf(vm', o, n) {
      assert Leaf(vm.pool, loc, o, n) == SpaceLeaf(vm, o, n);
    }
  }

  /** What vm_create_user and vm_clone_user share: both succeed exactly when the tables of a complete
   *  space fit in the pool; success adds exactly that space, failure leaves the pool as it was. */
  ghost predicate Built(vm: Vm, loc: Locations, r: (Vm, Option<nat>), loc': Locations, slot: nat)
    requires KERNEL_VPN <= vm.kernelEnd
  {
    var o := SlotSpace(slot);
    && Layout(r.0) && r.0 == vm.(pool := r.0.pool, frames := r.0.frames) && r.0.pool.base == vm.pool.base
    && Tree(r.0.pool, loc') && OthersSame(vm.pool, loc, r.0.pool, loc', o)
    && (r.1.Some? <==> |loc.Keys + SpaceTags(o, vm.kernelEnd)| <= POOL_PAGES)
    && (r.1.Some? ==> HasSpace(r.0, loc', o, r.1) && loc'.Keys == loc.Keys + SpaceTags(o, vm.kernelEnd))
    && (r.1.None? ==> loc' == loc && r.0.pool.used == vm.pool.used)
  }

  lemma {:induction false} BuildRefines(vm: Vm, loc: Locations, slot: nat, frames: seq<seq<Byte>>)
    returns (loc': Locations)
    requires Layout(vm) && Tree(vm.pool, loc) && slot < NPROC && NoSpace(loc, SlotSpace(slot)) && FramesOk(frames)
    requires vm.kernelPt.Some? ==> Root(KernelSpace) in loc && loc[Root(KernelSpace)] == vm.kernelPt.value
    ensures var (vm1, root) := StartUser(vm);
            var r := if root.None? then (vm1, None) else MapUser(vm1.(frames := frames), root.value, slot);
            Built(vm, loc, r, loc', slot)
  {
    hide Tree, Shape, Leaf, RangeTags, StartUser, MapUser, KernelTags, UserTags, Layout, OthersSame, NoSpace, HasSpace,
         TagsOf;
    LayoutFacts(vm);
    var o := SlotSpace(slot);
    var (vm1, root) := StartUser(vm);
    loc' := StartUserRefines(vm, loc, o);
    var kt := {Root(o)} + KernelTags(o, vm.kernelEnd);
    assert (loc.Keys + kt) + UserTags(o) == loc.Keys + SpaceTags(o, vm.kernelEnd);
    SubsetSize(loc.Keys + kt, loc.Keys + SpaceTags(o, vm.kernelEnd));
    if root.None? {
      BuiltNothing(vm, vm1, loc, slot);
    } else {
      var loc1 := loc';
      var vm2 := vm1.(frames := frames);
      RootsApart(vm, loc, vm1, loc1, o, root.value);
      TagsAfter(loc, loc1, o, vm.kernelEnd);
      TreeShape(vm1.pool, loc1);
      LayoutKept(vm, vm2);
      loc' := MapUserRefines(vm2, loc1, slot, root.value);
      var r := MapUser(vm2, root.value, slot);
      OthersTransitive(vm.pool, loc, vm1.pool, loc1, r.0.pool, loc', o);
      if r.1.None? {
        NoSpaceSame(vm.pool, loc, r.0.pool, loc', o);
        SamePlacementUse(vm.pool, r.0.pool, loc);
      }
    }
  }

  lemma {:induction false} TagsAfter(loc: Locations, loc1: Locations, o: Owner, kernelEnd: nat)
    requires KERNEL_VPN <= kernelEnd && NoSpace(loc, o)
    requires loc1.Keys == loc.Keys + ({Root(o)} + KernelTags(o, kernelEnd))
    ensures TagsOf(loc1, o) == {Root(o)} + KernelTags(o, kernelEnd)
  {
    hide KernelTags;
    TagsOwner(o, kernelEnd);
  }

  lemma {:induction false} LayoutFacts(vm: Vm)
    requires Layout(vm)
    ensures Shape(vm.pool) && FramesOk(vm.frames) && KERNEL_VPN < vm.kernelEnd <= RAM_END
  {
  }

  lemma {:induction false} BuiltNothing(vm: Vm, vm1: Vm, loc: Locations, slot: nat)
    requires Layout(vm) && Tree(vm.pool, loc) && vm1 == vm.(pool := vm1.pool) && vm1.pool.base == vm.pool.base
    requires Tree(vm1.pool, loc)
    ensures Layout(vm1) && vm1.pool.used == vm.pool.used
  {
    SamePlacementUse(vm.pool, vm1.pool, loc);
  }

  lemma {:induction false} LayoutKept(vm: Vm, vm': Vm)
    requires Layout(vm) && vm' == vm.(pool := vm'.pool, frames := vm'.frames)
    requires Shape(vm'.pool) && vm'.pool.base == vm.pool.base && FramesOk(vm'.frames)
    ensures Layout(vm')
  {
  }

  lemma {:induction false} RootsApart(vm: Vm, loc: Locations, vm1: Vm, loc1: Locations, o: Owner, root: nat)
    requires Tree(vm.pool, loc) && Tree(vm1.pool, loc1) && OthersSame(vm.pool, loc, vm1.pool, loc1, o)
    requires vm.kernelPt.Some? ==> Root(KernelSpace) in loc && loc[Root(KernelSpace)] == vm.kernelPt.value
    requires o != KernelSpace && Root(o) in loc1 && loc1[Root(o)] == root
    ensures vm.kernelPt != Some(root) && root < POOL_PAGES
  {
    hide PointersOk, LeavesOk, Leaf;
    if vm.kernelPt.Some? { assert loc1[Root(KernelSpace)] == vm.kernelPt.value; }
  }

  lemma {:induction false} OthersTransitive(m: Pool, loc: Locations, m1: Pool, loc1: Locations, m2: Pool,
                                            loc2: Locations, o: Owner)
    requires Tree(m, loc) && Tree(m1, loc1) && Tree(m2, loc2)
    requires OthersSame(m, loc, m1, loc1, o) && OthersSame(m1, loc1, m2, loc2, o)
    ensures OthersSame(m, loc, m2, loc2, o)
  {
    hide Tree, Shape, Leaf;
  }

  lemma {:induction false} NoSpaceSame(m: Pool, loc: Locations, m': Pool, loc': Locations, o: Owner)
    requires Tree(m, loc) && Tree(m', loc') && OthersSame(m, loc, m', loc', o) && NoSpace(loc, o) && NoSpace(loc', o)
    ensures loc == loc'
  {
    hide Tree, Shape, Leaf;
    assert loc.Keys == loc'.Keys;
  }

  /** vm_create_user builds exactly the declared space of its slot, or nothing. */
  lemma {:induction false} CreateUserRefines(vm: Vm, loc: Locations, image: seq<Byte>, slot: nat)
    returns (loc': Locations)
    requires Layout(vm) && Tree(vm.pool, loc) && slot < NPROC && NoSpace(loc, SlotSpace(slot))
    requires vm.kernelPt.Some? ==> Root(KernelSpace) in loc && loc[Root(KernelSpace)] == vm.kernelPt.value
    ensures Built(vm, loc, CreateUser(vm, image, slot), loc', slot)
    ensures CreateUser(vm, image, slot).1.Some? ==>
              CreateUser(vm, image, slot).0.frames == LoadImage(vm.frames, slot, image)
  {
    hide Tree, Shape, Leaf, Built, StartUser, UserMap;
    loc' := BuildRefines(vm, loc, slot, LoadImage(vm.frames, slot, image));
    StartKeeps(vm, loc, SlotSpace(slot));
  }

  /** vm_clone_user builds exactly the declared space of the destination slot, or nothing. */
  lemma {:induction false} CloneUserRefines(vm: Vm, loc: Locations, dst: nat, src: nat) returns (loc': Locations)
    requires Layout(vm) && Tree(vm.pool, loc) && dst < NPROC && src < NPROC && NoSpace(loc, SlotSpace(dst))
    requires vm.kernelPt.Some? ==> Root(KernelSpace) in loc && loc[Root(KernelSpace)] == vm.kernelPt.value
    ensures Built(vm, loc, CloneUser(vm, dst, src), loc', dst)
    ensures CloneUser(vm, dst, src).1.Some? ==> CloneUser(vm, dst, src).0.frames == CopySlot(vm.frames, dst, src)
    ensures forall f :: 0 <= f < |vm.frames| && f / TOTAL_PAGES != dst ==>
         CloneUser(vm, dst, src).0.frames[f] == vm.frames[f]
  {
    hide Tree, Shape, Leaf, Built, StartUser, UserMap;
    loc' := BuildRefines(vm, loc, dst, CopySlot(vm.frames, dst, src));
    StartKeeps(vm, loc, SlotSpace(dst));
  }

  lemma {:induction false} StartKeeps(vm: Vm, loc: Locations, o: Owner)
    requires Layout(vm) && Tree(vm.pool, loc) && NoSpace(loc, o)
    ensures StartUser(vm).0 == vm.(pool := StartUser(vm).0.pool)
  {
    var loc' := StartUserRefines(vm, loc, o);
  }

  /** Create or clone, then destroy: the pool's used flags are back where they were. */
  lemma {:induction false} BuildThenDestroy(vm: Vm, loc: Locations, r: (Vm, Option<nat>), loc': Locations, slot: nat)
    requires Layout(vm) && Tree(vm.pool, loc) && slot < NPROC && NoSpace(loc, SlotSpace(slot))
    requires vm.kernelPt.Some? ==> Root(KernelSpace) in loc && loc[Root(KernelSpace)] == vm.kernelPt.value
    requires Built(vm, loc, r, loc', slot)
    ensures r.1.Some? ==> r.1.value < POOL_PAGES
    ensures VmDestroy(r.0, r.1).pool.used == vm.pool.used
  {
    hide Tree, Shape, Leaf, SpaceTags, DestroyLevel, Layout, OthersSame, NoSpace, TagsOf, Without;
    LayoutFacts(vm);
    if r.1.Some? {
      var o := SlotSpace(slot);
      RootsApart(vm, loc, r.0, loc', o, r.1.value);
      DestroySpace(r.0.pool, loc', o);
      var loc2 := Without(loc', o);
      TreeShape(r.0.pool, loc');
      var m2 := DestroyLevel(r.0.pool, r.1.value, 2);
      OthersTransitive(vm.pool, loc, r.0.pool, loc', m2, loc2, o);
      NoSpaceWithout(loc', o);
      NoSpaceSame(vm.pool, loc, m2, loc2, o);
      SamePlacementUse(vm.pool, m2, loc);
    }
  }

  /** kernel_pagetable, when the kernel's own tables fit. */
  lemma {:induction false} KernelPagetableRefines(vm: Vm, loc: Locations) returns (loc': Locations)
    requires Layout(vm) && Tree(vm.pool, loc)
    requires vm.kernelPt.None? ==> NoSpace(loc, KernelSpace)
    requires vm.kernelPt.Some? ==> HasSpace(vm, loc, KernelSpace, vm.kernelPt)
    requires |loc.Keys + SpaceTags(KernelSpace, vm.kernelEnd)| <= POOL_PAGES
    ensures var r := KernelPagetable(vm);
            && r.1.Some? && r.0 == vm.(pool := r.0.pool, kernelPt := r.1) && r.0.pool.base == vm.pool.base
            && Tree(r.0.pool, loc') && OthersSame(vm.pool, loc, r.0.pool, loc', KernelSpace)
            && HasSpace(r.0, loc', KernelSpace, r.1)
            && loc'.Keys <= loc.Keys + SpaceTags(KernelSpace, vm.kernelEnd)
  {
    hide Tree, Shape, Leaf, RangeTags, DestroyLevel, KernelTags, KernelMap, OthersSame, NoSpace, TagsOf;
    LayoutFacts(vm);
    if vm.kernelPt.Some? {
      loc' := loc;
      OthersReflexive(vm.pool, loc, KernelSpace);
    } else {
      loc' := StartUserRefines(vm, loc, KernelSpace);
      TagsAfter(loc, loc', KernelSpace, vm.kernelEnd);
      var r := KernelPagetable(vm);
      assert r.0.pool == StartUser(vm).0.pool;
      assert TagsOf(loc', KernelSpace) == SpaceTags(KernelSpace, vm.kernelEnd);
      forall n | 0 <= n < VPN_LIMIT
        ensures Leaf(r.0.pool, loc', KernelSpace, n) == SpaceLeaf(r.0, KernelSpace, n) {}
    }
  }

  // ------------------------------------------------ when kernel_map runs out of pages

  /** mappages on unmapped pages fails only for want of pool pages. */
  lemma {:induction false} MapPagesFull(m: Pool, loc: Locations, o: Owner, n: nat, count: nat, ppn: nat, perm: Perm)
    requires Tree(m, loc) && n + count <= VPN_LIMIT && Root(o) in loc && loc[Root(o)] < POOL_PAGES && perm.r
    requires Unmapped(m, loc, o, n, count)
    ensures var r := MapPages(m, loc[Root(o)], n, count, ppn, perm); !r.1 ==> Full(r.0)
    decreases count
  {
    hide Tree, Shape, Leaf, MapOne, PathTags, Full;
    TreeShape(m, loc);
    if count > 0 {
      var (m1, ok) := MapOne(m, loc[Root(o)], n, ppn, perm);
      var loc1 := MapOneRefines(m, loc, o, n, ppn, perm);
      assert Unmapped(m, loc, o, n, 1);
      if ok {
        UnmappedStep(m, loc, m1, loc1, o, n, count, ppn, perm);
        InRange(m1, loc1, Root(o));
        MapPagesFull(m1, loc1, o, n + 1, count - 1, ppn + 1, perm);
      }
    }
  }

  lemma {:induction false} KernelMapFull(m: Pool, loc: Locations, o: Owner, kernelEnd: nat)
    requires Tree(m, loc) && Root(o) in loc && loc[Root(o)] < POOL_PAGES && KERNEL_VPN <= kernelEnd <= RAM_END
    requires Unmapped(m, loc, o, 0, VPN_LIMIT)
    ensures var r := KernelMap(m, loc[Root(o)], kernelEnd); !r.1 ==> Full(r.0)
  {
    hide Tree, Shape, Leaf, MapPages, RangeTags, Full;
    TreeShape(m, loc);
    var root, count := loc[Root(o)], kernelEnd - KERNEL_VPN;
    assert Unmapped(m, loc, o, KERNEL_VPN, count) && Unmapped(m, loc, o, UART_VPN, 1);
    MapPagesFull(m, loc, o, KERNEL_VPN, count, KERNEL_VPN, RWX);
    var (m1, ok) := MapPages(m, root, KERNEL_VPN, count, KERNEL_VPN, RWX);
    var loc1 := MapPagesRefines(m, loc, o, KERNEL_VPN, count, KERNEL_VPN, RWX);
    if ok {
      assert Leaf(m1, loc1, o, UART_VPN) == Leaf(m, loc, o, UART_VPN) == EMPTY;
      InRange(m1, loc1, Root(o));
      MapPagesFull(m1, loc1, o, UART_VPN, 1, UART_VPN, RW);
    }
  }

  predicate AtMostOneFree(m: Pool)
    requires Shape(m)
  {
    forall p, q :: 0 <= p < q < POOL_PAGES ==> m.used[p] || m.used[q]
  }

  /** A kernel_pagetable that does not fit fails, but unlike vm_create_user it does not give its pages back: the pool
   *  is left as it was if and only if it had at most one free page to begin with. */
  lemma {:induction false} KernelPagetableLeaks(vm: Vm, loc: Locations)
    requires Layout(vm) && Tree(vm.pool, loc) && vm.kernelPt.None? && NoSpace(loc, KernelSpace)
    requires |loc.Keys + SpaceTags(KernelSpace, vm.kernelEnd)| > POOL_PAGES
    ensures var r := KernelPagetable(vm);
            r.1.None? && (r.0.pool.used == vm.pool.used <==> AtMostOneFree(vm.pool))
  {
    hide Tree, Leaf, MapPages, RangeTags, KernelMap, KernelTags, OthersSame, NoSpace;
    LayoutFacts(vm);
    var (m0, root) := Alloc(vm.pool);
    if root.Some? {
      var loc' := StartTables(vm, loc, KernelSpace, root.value);
      assert SpaceTags(KernelSpace, vm.kernelEnd) == {Root(KernelSpace)} + KernelTags(KernelSpace, vm.kernelEnd);
      FreshRoot(vm.pool, loc, KernelSpace, root.value);
      KernelMapFull(m0, loc[Root(KernelSpace) := root.value], KernelSpace, vm.kernelEnd);
      var after := KernelPagetable(vm).0.pool.used;
      assert forall p :: 0 <= p < POOL_PAGES ==> (after[p] <==> p != root.value);
      if AtMostOneFree(vm.pool) {
        assert after == vm.pool.used;
      } else {
        var p, q :| 0 <= p < q < POOL_PAGES && !vm.pool.used[p] && !vm.pool.used[q];
        assert after[p] || after[q];
      }
    }
  }

  // ------------------------------------------------------------ pool sufficiency

  /** Level-0 tables covering `pages` pages. */
  function Blocks(pages: nat): nat { (pages + 511) / 512 }

  lemma {:induction false} RangeSnoc(o: Owner, n: nat, count: nat)
    ensures RangeTags(o, n, count + 1) == RangeTags(o, n, count) + PathTags(o, n + count)
    decreases count
  {
    if count > 0 { RangeSnoc(o, n + 1, count - 1); }
  }

  function LowTags(o: Owner, first: nat, count: nat): set<Tag>
    decreases count
  {
    if count == 0 then {} else LowTags(o, first, count - 1) + {Tag(o, 0, first + count - 1)}
  }

  lemma {:induction false} LowTagsSize(o: Owner, first: nat, count: nat)
    ensures |LowTags(o, first, count)| == count
    ensures forall t :: t in LowTags(o, first, count) <==>
              t.owner == o && t.level == 0 && first <= t.prefix < first + count
    decreases count
  {
    if count > 0 { LowTagsSize(o, first, count - 1); }
  }

  /** The tables of the kernel mapping: one level-1 table and one level-0 table per 2 MiB. */
  lemma {:induction false} KernelRange(o: Owner, count: nat)
    requires count <= RAM_END - KERNEL_VPN
    ensures RangeTags(o, KERNEL_VPN, count)
         == (if count == 0 then {} else {Tag(o, 1, 2)}) + LowTags(o, 0x400, Blocks(count))
    decreases count
  {
    hide RangeTags, LowTags;
    if count > 0 {
      KernelRange(o, count - 1);
      RangeSnoc(o, KERNEL_VPN, count - 1);
      var n, b := KERNEL_VPN + (count - 1), Blocks(count - 1);
      KernelPath(o, n);
      LowTagsStep(o, 0x400, b);
      if (count - 1) % 512 == 0 {
        assert b == (count - 1) / 512 && Blocks(count) == b + 1;
      } else {
        assert b == (count - 1) / 512 + 1 && Blocks(count) == b;
      }
    } else {
      EmptyRanges(o);
    }
  }

  lemma {:induction false} EmptyRanges(o: Owner)
    ensures RangeTags(o, KERNEL_VPN, 0) == {} && LowTags(o, 0x400, 0) == {}
  {
  }

  lemma {:induction false} KernelPath(o: Owner, n: nat)
    requires KERNEL_VPN <= n < RAM_END
    ensures PathTags(o, n) == {Tag(o, 1, 2), Tag(o, 0, 0x400 + (n - KERNEL_VPN) / 512)}
  {
    assert n / 512 == 0x400 + (n - KERNEL_VPN) / 512;
  }

  lemma {:induction false} LowTagsStep(o: Owner, first: nat, count: nat)
    ensures LowTags(o, first, count + 1) == LowTags(o, first, count) + {Tag(o, 0, first + count)}
    ensures count > 0 ==> Tag(o, 0, first + count - 1) in LowTags(o, first, count)
  {
  }

  lemma {:induction false} UserRange(o: Owner)
    ensures RangeTags(o, USER_VPN, IMAGE_PAGES) == {Tag(o, 1, 1), Tag(o, 0, 0x200)}
    ensures RangeTags(o, STACK_VPN, 1) == {Tag(o, 1, 1), Tag(o, 0, 0x3FF)}
    ensures RangeTags(o, UART_VPN, 1) == {Tag(o, 1, 0), Tag(o, 0, 0x80)}
  {
    assert RangeTags(o, USER_VPN, 4) == PathTags(o, USER_VPN) + RangeTags(o, USER_VPN + 1, 3);
    assert RangeTags(o, USER_VPN + 1, 3) == PathTags(o, USER_VPN + 1) + RangeTags(o, USER_VPN + 2, 2);
    assert RangeTags(o, USER_VPN + 2, 2) == PathTags(o, USER_VPN + 2) + RangeTags(o, USER_VPN + 3, 1);
    assert RangeTags(o, USER_VPN + 3, 1) == PathTags(o, USER_VPN + 3) + RangeTags(o, USER_VPN + 4, 0);
    assert RangeTags(o, STACK_VPN, 1) == PathTags(o, STACK_VPN) + RangeTags(o, STACK_VPN + 1, 0);
    assert RangeTags(o, UART_VPN, 1) == PathTags(o, UART_VPN) + RangeTags(o, UART_VPN + 1, 0);
  }

  function FixedKernelTags(o: Owner): set<Tag> { {Root(o), Tag(o, 1, 2), Tag(o, 1, 0), Tag(o, 0, 0x80)} }
  function FixedUserTags(o: Owner): set<Tag> { {Tag(o, 1, 1), Tag(o, 0, 0x200), Tag(o, 0, 0x3FF)} }

  /** Each user space uses exactly 7 + ceil(kernel span / 2 MiB) pool pages, the kernel's own three fewer. */
  lemma {:induction false} SpaceSize(o: Owner, kernelEnd: nat)
    requires KERNEL_VPN < kernelEnd <= RAM_END
    ensures |SpaceTags(o, kernelEnd)| == (if o.SlotSpace? then 7 else 4) + Blocks(kernelEnd - KERNEL_VPN)
  {
    hide LowTags, SpaceTags, FixedKernelTags, FixedUserTags;
    var c := kernelEnd - KERNEL_VPN;
    var low := LowTags(o, 0x400, Blocks(c));
    LowTagsSize(o, 0x400, Blocks(c));
    UnionSize(o, low);
    SpaceTagsAre(o, kernelEnd);
  }

  lemma {:induction false} SpaceTagsAre(o: Owner, kernelEnd: nat)
    requires KERNEL_VPN < kernelEnd <= RAM_END
    ensures var k := FixedKernelTags(o) + LowTags(o, 0x400, Blocks(kernelEnd - KERNEL_VPN));
            SpaceTags(o, kernelEnd) == if o.SlotSpace? then k + FixedUserTags(o) else k
  {
    hide RangeTags, LowTags, Blocks;
    var low := LowTags(o, 0x400, Blocks(kernelEnd - KERNEL_VPN));
    KernelRange(o, kernelEnd - KERNEL_VPN);
    UserRange(o);
    assert KernelTags(o, kernelEnd) == {Tag(o, 1, 2)} + low + {Tag(o, 1, 0), Tag(o, 0, 0x80)};
    assert {Root(o)} + KernelTags(o, kernelEnd) == FixedKernelTags(o) + low;
    assert UserTags(o) == FixedUserTags(o);
  }

  lemma {:induction false} UnionSize(o: Owner, low: set<Tag>)
    requires forall t :: t in low ==> t.level == 0 && t.prefix >= 0x400
    ensures |FixedKernelTags(o) + low| == 4 + |low|
    ensures |FixedKernelTags(o) + low + FixedUserTags(o)|
         == 7 + |low|
  {
    var k := FixedKernelTags(o);
    var u := FixedUserTags(o);
    assert |k| == 4 && |u| == 3;
    assert k !! low;
    assert (k + low) !! u;
  }

  /** The tables of the kernel and of the first `slots` slots together. */
  function AllTags(slots: nat, kernelEnd: nat): set<Tag>
    requires KERNEL_VPN <= kernelEnd
  {
    if slots == 0 then SpaceTags(KernelSpace, kernelEnd)
    else AllTags(slots - 1, kernelEnd) + SpaceTags(SlotSpace(slots - 1), kernelEnd)
  }

  lemma {:induction false} AllTagsSize(slots: nat, kernelEnd: nat)
    requires KERNEL_VPN < kernelEnd <= RAM_END
    ensures |AllTags(slots, kernelEnd)| == 4 + 7 * slots + (slots + 1) * Blocks(kernelEnd - KERNEL_VPN)
    ensures forall t :: t in AllTags(slots, kernelEnd) ==> t.owner == KernelSpace || t.owner.slot < slots
  {
    hide SpaceTags, Blocks;
    var b := Blocks(kernelEnd - KERNEL_VPN);
    SpaceSize(KernelSpace, kernelEnd);
    TagsOwner(KernelSpace, kernelEnd);
    if slots > 0 {
      assert (slots + 1) * b == slots * b + b;
      AllTagsSize(slots - 1, kernelEnd);
      SpaceSize(SlotSpace(slots - 1), kernelEnd);
      TagsOwner(SlotSpace(slots - 1), kernelEnd);
      assert AllTags(slots - 1, kernelEnd) !! SpaceTags(SlotSpace(slots - 1), kernelEnd);
    }
  }

  lemma {:induction false} InAllTags(slots: nat, kernelEnd: nat, slot: nat)
    requires KERNEL_VPN <= kernelEnd && slot < slots
    ensures SpaceTags(SlotSpace(slot), kernelEnd) <= AllTags(slots, kernelEnd)
    ensures SpaceTags(KernelSpace, kernelEnd) <= AllTags(slots, kernelEnd)
  {
    hide SpaceTags;
    InAllTagsKernel(slots, kernelEnd);
    if slot < slots - 1 { InAllTags(slots - 1, kernelEnd, slot); }
  }

  lemma {:induction false} InAllTagsKernel(slots: nat, kernelEnd: nat)
    requires KERNEL_VPN <= kernelEnd
    ensures SpaceTags(KernelSpace, kernelEnd) <= AllTags(slots, kernelEnd)
  {
    hide SpaceTags;
    if slots > 0 { InAllTagsKernel(slots - 1, kernelEnd); }
  }

  /** Pool sufficiency: the NPROC user spaces and the kernel's always fit together. */
  lemma {:induction false} EverythingFits(kernelEnd: nat, tags: set<Tag>)
    requires KERNEL_VPN < kernelEnd <= RAM_END && tags <= AllTags(NPROC, kernelEnd)
    ensures |tags| < POOL_PAGES
  {
    AllTagsSize(NPROC, kernelEnd);
    SubsetSize(tags, AllTags(NPROC, kernelEnd));
    assert Blocks(kernelEnd - KERNEL_VPN) <= 64;
  }

  // ---------------------------------------------------------------- isolation

  /** The page of its own slot that virtual page n of a user space stands for. */
  function UserPage(n: nat): Option<nat> {
    if USER_VPN <= n < USER_VPN + IMAGE_PAGES then Some(n - USER_VPN)
    else if n == STACK_VPN then Some(IMAGE_PAGES)
    else None
  }

  /** In user mode the hardware reaches exactly the slot's own five frames: the image pages for every
   *  access, the stack page for loads and stores, nothing else, at any 64-bit address. */
  lemma {:induction false} UserReach(vm: Vm, loc: Locations, slot: nat, root: nat, va: nat, access: Access)
    requires Layout(vm) && Tree(vm.pool, loc) && HasSpace(vm, loc, SlotSpace(slot), Some(root))
    requires root < POOL_PAGES
    ensures HardwareTranslate(vm.pool, root, va, access, User) ==
            (if UserPage(va / PGSIZE).Some? && (access == Fetch ==> va / PGSIZE != STACK_VPN)
             then Some(SlotBase(vm, slot) + UserPage(va / PGSIZE).value) else None)
  {
    hide Tree, Shape, Leaf, RangeTags, SpaceTags, HardwareWalk;
    var o := SlotSpace(slot);
    if Canonical(va) {
      var n := va / PGSIZE % VPN_LIMIT;
      assert Table(o, n, 2) == Root(o);
      HardwareRefines(vm.pool, loc, o, n, 2, root, access, User);
      assert Leaf(vm.pool, loc, o, n) == SpaceLeaf(vm, o, n);
      if va >= VA_LIMIT / 2 {
        HighHalf(va);
      } else {
        assert n == va / PGSIZE;
      }
    }
  }

  lemma {:induction false} HighHalf(va: nat)
    requires TWO64 - VA_LIMIT / 2 <= va < TWO64
    ensures va / PGSIZE % VPN_LIMIT >= VPN_LIMIT / 2 && va / PGSIZE >= RAM_END
  {
    assert va / PGSIZE >= (TWO64 - VA_LIMIT / 2) / PGSIZE;
  }

  /** translate_user and the hardware agree on user loads at every 64-bit address. */
  lemma {:induction false} SoftwareAgrees(vm: Vm, loc: Locations, slot: nat, root: nat, va: nat)
    requires Layout(vm) && Tree(vm.pool, loc) && HasSpace(vm, loc, SlotSpace(slot), Some(root))
    requires root < POOL_PAGES
    ensures TranslateUser(vm.pool, root, va) == HardwareTranslate(vm.pool, root, va, Load, User)
  {
    hide Tree, Shape, Leaf, RangeTags, SpaceTags, HardwareWalk, Walk, HardwareTranslate;
    UserReach(vm, loc, slot, root, va, Load);
    var n := va / PGSIZE;
    if va < VA_LIMIT {
      var o := SlotSpace(slot);
      assert Table(o, n, 2) == Root(o);
      WalkRefines(vm.pool, loc, o, n, 2, root);
      assert Leaf(vm.pool, loc, o, n) == SpaceLeaf(vm, o, n);
    } else {
      assert n >= VA_LIMIT / PGSIZE;
    }
  }

  /** Every space, the kernel's included, maps the whole kernel image and the UART onto themselves for
   *  supervisor mode, so switching satp never moves the kernel; user mode cannot touch those pages. */
  lemma {:induction false} KernelEverywhere(vm: Vm, loc: Locations, o: Owner, root: nat, va: nat, access: Access)
    requires Layout(vm) && Tree(vm.pool, loc) && HasSpace(vm, loc, o, Some(root)) && root < POOL_PAGES
    requires KERNEL_VPN <= va / PGSIZE < vm.kernelEnd || (va / PGSIZE == UART_VPN && access != Fetch)
    ensures HardwareTranslate(vm.pool, root, va, access, Supervisor) == Some(va / PGSIZE)
    ensures HardwareTranslate(vm.pool, root, va, access, User) == None
  {
    hide Tree, Shape, Leaf, RangeTags, SpaceTags, HardwareWalk;
    var n := va / PGSIZE;
    assert Table(o, n, 2) == Root(o);
    HardwareRefines(vm.pool, loc, o, n, 2, root, access, Supervisor);
    HardwareRefines(vm.pool, loc, o, n, 2, root, access, User);
    assert Leaf(vm.pool, loc, o, n) == SpaceLeaf(vm, o, n);
  }

  /** In supervisor mode the hardware reaches exactly the kernel's pages from 0x80000000 on, each at its own address,
   *  and the UART page, which cannot be executed, in every space, at any 64-bit address; no user page. */
  lemma {:induction false} SupervisorReach(vm: Vm, loc: Locations, o: Owner, root: nat, va: nat, access: Access)
    requires Layout(vm) && Tree(vm.pool, loc) && HasSpace(vm, loc, o, Some(root)) && root < POOL_PAGES
    ensures HardwareTranslate(vm.pool, root, va, access, Supervisor) ==
            (if 0x8000_0000 <= va < vm.kernelEnd * PGSIZE || (0x1000_0000 <= va < 0x1000_1000 && access != Fetch)
             then Some(va / PGSIZE) else None)
  {
    hide Tree, Shape, Leaf, RangeTags, SpaceTags, HardwareWalk;
    if Canonical(va) {
      var n := va / PGSIZE % VPN_LIMIT;
      assert Table(o, n, 2) == Root(o);
      HardwareRefines(vm.pool, loc, o, n, 2, root, access, Supervisor);
      assert Leaf(vm.pool, loc, o, n) == SpaceLeaf(vm, o, n);
      if va >= VA_LIMIT / 2 { HighHalf(va); } else { assert n == va / PGSIZE; }
    }
  }

  /** User pages of different slots never share a frame, and no user page is a pool page. */
  lemma {:induction false} SlotsApart(vm: Vm, slot1: nat, slot2: nat, n1: nat, n2: nat)
    requires Layout(vm) && slot1 < NPROC && slot2 < NPROC && UserPage(n1).Some? && UserPage(n2).Some?
    ensures SlotBase(vm, slot1) + UserPage(n1).value == SlotBase(vm, slot2) + UserPage(n2).value ==>
              slot1 == slot2 && n1 == n2
    ensures !InPool(vm.pool, SlotBase(vm, slot1) + UserPage(n1).value)
  {
  }
}
