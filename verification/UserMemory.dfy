/** The user's memory byte by byte: which addresses there are, what a new and what a cloned space hold. */
module UserMemory {
  import opened Wrappers
  import opened Sv39
  import opened PageTable
  import opened AddressSpace
  import opened UserCopy

  /** A user has the four pages from 0x40000000 and the page below 0x80000000. */
  predicate UserAddress(va: nat) { 0x4000_0000 <= va < 0x4000_4000 || 0x7FFF_F000 <= va < 0x8000_0000 }

  lemma {:induction false} UserAddresses(vm: Vm, slot: nat, va: nat)
    requires Layout(vm) && slot < NPROC
    ensures UserByte(vm, slot, va).Some? <==> UserAddress(va)
  {
  }

  /** The five frames of slot dst hold what those of src held, and no other frame has changed. */
  ghost predicate Copied(vm: Vm, vm': Vm, dst: nat, src: nat)
    requires Layout(vm) && Layout(vm') && dst < NPROC && src < NPROC
  {
    && (forall va: nat :: UserByte(vm', dst, va) == UserByte(vm, src, va))
    && |vm'.frames| == |vm.frames|
    && forall f :: 0 <= f < |vm.frames| && f / TOTAL_PAGES != dst ==> vm'.frames[f] == vm.frames[f]
  }

  lemma {:induction false} CopySlotCopies(vm: Vm, vm': Vm, dst: nat, src: nat)
    requires Layout(vm) && Layout(vm') && dst < NPROC && src < NPROC && vm'.frames == CopySlot(vm.frames, dst, src)
    ensures Copied(vm, vm', dst, src)
  {
    forall va: nat ensures UserByte(vm', dst, va) == UserByte(vm, src, va) {
      var page := UserPage(va / PGSIZE);
      if page.Some? {
        assert (dst * TOTAL_PAGES + page.value) / TOTAL_PAGES == dst;
        assert (dst * TOTAL_PAGES + page.value) % TOTAL_PAGES == page.value;
      }
    }
  }

  /** vm_clone_user gives the new slot the memory of the old one, every byte of it, and touches nobody else's. */
  lemma {:induction false} ClonedBytes(vm: Vm, loc: Locations, dst: nat, src: nat)
    requires Layout(vm) && Tree(vm.pool, loc) && dst < NPROC && src < NPROC && NoSpace(loc, SlotSpace(dst))
    requires vm.kernelPt.Some? ==> Root(KernelSpace) in loc && loc[Root(KernelSpace)] == vm.kernelPt.value
    ensures CloneUser(vm, dst, src).1.Some? ==> Copied(vm, CloneUser(vm, dst, src).0, dst, src)
    ensures forall s: nat, va: nat :: s < NPROC && s != dst ==>
              UserByte(CloneUser(vm, dst, src).0, s, va) == UserByte(vm, s, va)
  {
    hide Tree, NoSpace, Copied, CloneUser, CopySlot;
    var loc' := CloneUserRefines(vm, loc, dst, src);
    var r := CloneUser(vm, dst, src);
    if r.1.Some? { CopySlotCopies(vm, r.0, dst, src); }
    OthersKept(vm, r.0, dst);
  }

  /** Slots out of range are refused. */
  lemma {:induction false} BadSlots(vm: Vm, image: seq<Byte>, dst: int, src: int)
    requires Layout(vm)
    ensures !(0 <= dst < 8) ==> CreateUser(vm, image, dst) == (vm, None)
    ensures !(0 <= dst < 8 && 0 <= src < 8) ==> CloneUser(vm, dst, src) == (vm, None)
  {
    hide StartUser, MapUser;
  }

  lemma {:induction false} OthersKept(vm: Vm, vm': Vm, slot: nat)
    requires Layout(vm) && Layout(vm') && slot < NPROC && |vm'.frames| == |vm.frames|
    requires forall f :: 0 <= f < |vm.frames| && f / TOTAL_PAGES != slot ==> vm'.frames[f] == vm.frames[f]
    ensures forall s: nat, va: nat :: s < NPROC && s != slot ==> UserByte(vm', s, va) == UserByte(vm, s, va)
  {
    forall s: nat, va: nat | s < NPROC && s != slot ensures UserByte(vm', s, va) == UserByte(vm, s, va) {
      var page := UserPage(va / PGSIZE);
      if page.Some? { assert (s * TOTAL_PAGES + page.value) / TOTAL_PAGES == s; }
    }
  }

  /** What a new process finds at va: its image from 0x40000000 on, as far as four pages reach, and zeroes. */
  function InitialByte(image: seq<Byte>, va: nat): Option<Byte> {
    if !UserAddress(va) then None
    else if va < 0x4000_4000 && va - 0x4000_0000 < |image| then Some(image[va - 0x4000_0000])
    else Some(0)
  }

  /** vm_create_user gives the slot exactly the zero-padded image, and touches nobody else's memory. */
  lemma {:induction false} CreatedBytes(vm: Vm, loc: Locations, image: seq<Byte>, slot: nat)
    requires Layout(vm) && Tree(vm.pool, loc) && slot < NPROC && NoSpace(loc, SlotSpace(slot))
    requires vm.kernelPt.Some? ==> Root(KernelSpace) in loc && loc[Root(KernelSpace)] == vm.kernelPt.value
    ensures CreateUser(vm, image, slot).1.Some? ==>
              && (forall va: nat :: UserByte(CreateUser(vm, image, slot).0, slot, va) == InitialByte(image, va))
              && (forall s: nat, va: nat :: s < NPROC && s != slot ==>
                    UserByte(CreateUser(vm, image, slot).0, s, va) == UserByte(vm, s, va))
  {
    hide Tree, NoSpace, CreateUser, UserByte, InitialByte, LoadImage, SpaceTags;
    var loc' := CreateUserRefines(vm, loc, image, slot);
    var r := CreateUser(vm, image, slot);
    if r.1.Some? {
      forall va: nat ensures UserByte(r.0, slot, va) == InitialByte(image, va) { LoadedByte(vm, r.0, image, slot, va); }
      LoadKeeps(vm.frames, image, slot);
      OthersKept(vm, r.0, slot);
    }
  }

  lemma {:induction false} LoadKeeps(frames: seq<seq<Byte>>, image: seq<Byte>, slot: nat)
    requires FramesOk(frames) && slot < NPROC
    ensures |LoadImage(frames, slot, image)| == |frames|
    ensures forall f :: 0 <= f < |frames| && f / TOTAL_PAGES != slot ==> LoadImage(frames, slot, image)[f] == frames[f]
  {
  }

  lemma {:induction false} LoadedByte(vm: Vm, vm': Vm, image: seq<Byte>, slot: nat, va: nat)
    requires Layout(vm) && Layout(vm') && slot < NPROC && vm'.frames == LoadImage(vm.frames, slot, image)
    ensures UserByte(vm', slot, va) == InitialByte(image, va)
  {
    var page := UserPage(va / PGSIZE);
    if page.Some? {
      var f := slot * TOTAL_PAGES + page.value;
      assert f / TOTAL_PAGES == slot && f % TOTAL_PAGES == page.value;
      assert va == va / PGSIZE * PGSIZE + va % PGSIZE;
      if page.value < IMAGE_PAGES { assert page.value * PGSIZE + va % PGSIZE == va - 0x4000_0000; }
    }
  }
}
