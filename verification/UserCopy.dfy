/** copyin, copyout and copyinstr move user bytes a page at a time.  The reference they are measured
 *  against touches one byte at a time, through the hardware translation. */
module UserCopy {
  import opened Wrappers
  import opened Sv39
  import opened PageTable
  import opened AddressSpace

  predicate InFrames(vm: Vm, ppn: nat) { vm.userBase <= ppn < vm.userBase + NPROC * TOTAL_PAGES }

  // --------------------------------------------------- one byte, in hardware

  /** The byte a user load at va returns. */
  function LoadByte(vm: Vm, root: nat, va: nat): Option<Byte>
    requires Layout(vm) && root < POOL_PAGES
  {
    match HardwareTranslate(vm.pool, root, va, Load, User)
    case Some(ppn) => if InFrames(vm, ppn) then Some(vm.frames[ppn - vm.userBase][va % PGSIZE]) else None
    case None => None
  }

  /** The memory after a user store at va; None when the store faults. */
  function StoreByte(vm: Vm, root: nat, va: nat, b: Byte): (r: Option<Vm>)
    requires Layout(vm) && root < POOL_PAGES
    ensures r.Some? ==> Layout(r.value) && r.value.pool == vm.pool
  {
    match HardwareTranslate(vm.pool, root, va, Store, User)
    case Some(ppn) =>
      if InFrames(vm, ppn) then Some(vm.(frames := Poke(vm.frames, ppn - vm.userBase, va % PGSIZE, b))) else None
    case None => None
  }

  function Poke(frames: seq<seq<Byte>>, f: nat, off: nat, b: Byte): (r: seq<seq<Byte>>)
    requires FramesOk(frames) && f < |frames| && off < PGSIZE
    ensures FramesOk(r)
  {
    frames[f := frames[f][off := b]]
  }

  function LoadBytes(vm: Vm, root: nat, va: nat, len: nat): (r: Option<seq<Byte>>)
    requires Layout(vm) && root < POOL_PAGES
    decreases len
  {
    if len == 0 then Some([]) else
    match LoadByte(vm, root, va)
    case None => None
    case Some(b) =>
      match LoadBytes(vm, root, va + 1, len - 1)
      case None => None
      case Some(rest) => Some([b] + rest)
  }

  /** Store bytes in order, stopping at the first fault; what was stored before stays. */
  function StoreBytes(vm: Vm, root: nat, va: nat, src: seq<Byte>): (r: (Vm, bool))
    requires Layout(vm) && root < POOL_PAGES
    ensures Layout(r.0) && r.0.pool == vm.pool
    decreases |src|
  {
    if src == [] then (vm, true) else
    match StoreByte(vm, root, va, src[0])
    case None => (vm, false)
    case Some(vm1) => StoreBytes(vm1, root, va + 1, src[1..])
  }

  // ------------------------------------------------------ the kernel's copies

  function Chunk(va: nat, len: nat): (n: nat)
    ensures n <= len && va % PGSIZE + n <= PGSIZE && (len > 0 ==> n > 0)
  {
    if len < PGSIZE - va % PGSIZE then len else PGSIZE - va % PGSIZE
  }

  /** copyin */
  function CopyIn(vm: Vm, root: nat, va: nat, len: nat): (r: Option<seq<Byte>>)
    requires Layout(vm) && root < POOL_PAGES
    decreases len
  {
    if len == 0 then Some([]) else
    match TranslateUser(vm.pool, root, va)
    case None => None
    case Some(ppn) =>
      if !InFrames(vm, ppn) then None else
      var n := Chunk(va, len);
      match CopyIn(vm, root, va + n, len - n)
      case None => None
      case Some(rest) => Some(vm.frames[ppn - vm.userBase][va % PGSIZE..va % PGSIZE + n] + rest)
  }

  function Splice(page: seq<Byte>, off: nat, bytes: seq<Byte>): (r: seq<Byte>)
    requires |page| == PGSIZE && off + |bytes| <= PGSIZE
    ensures |r| == PGSIZE
  {
    page[..off] + bytes + page[off + |bytes|..]
  }

  function WriteChunk(frames: seq<seq<Byte>>, f: nat, off: nat, bytes: seq<Byte>): (r: seq<seq<Byte>>)
    requires FramesOk(frames) && f < |frames| && off + |bytes| <= PGSIZE
    ensures FramesOk(r)
  {
    frames[f := Splice(frames[f], off, bytes)]
  }

  /** copyout */
  function CopyOut(vm: Vm, root: nat, va: nat, src: seq<Byte>): (r: (Vm, bool))
    requires Layout(vm) && root < POOL_PAGES
    ensures Layout(r.0) && r.0 == vm.(frames := r.0.frames)
    decreases |src|
  {
    if src == [] then (vm, true) else
    match TranslateUser(vm.pool, root, va)
    case None => (vm, false)
    case Some(ppn) =>
      if !InFrames(vm, ppn) then (vm, false) else
      var n := Chunk(va, |src|);
      CopyOut(vm.(frames := WriteChunk(vm.frames, ppn - vm.userBase, va % PGSIZE, src[..n])), root, va + n, src[n..])
  }

  /** The loop of copyinstr from index i, with the bytes copied so far. */
  function CopyInStrFrom(vm: Vm, root: nat, va: nat, max: nat, got: seq<Byte>): (r: Option<seq<Byte>>)
    requires Layout(vm) && root < POOL_PAGES && 0 < max && |got| <= max
    decreases max - |got|
  {
    if |got| == max then Some(got[max - 1 := 0]) else
    match CopyIn(vm, root, va + |got|, 1)
    case None => None
    case Some(c) =>
      if |c| != 1 then None
      else if c[0] == 0 then Some(got + c)
      else CopyInStrFrom(vm, root, va, max, got + c)
  }

  /** copyinstr: the destination up to and including its terminating NUL. */
  function CopyInStr(vm: Vm, root: nat, va: nat, max: nat): Option<seq<Byte>>
    requires Layout(vm) && root < POOL_PAGES && 0 < max
  {
    CopyInStrFrom(vm, root, va, max, [])
  }

  /** A copied string ends with its NUL. */
  lemma {:induction false} CopyInStrEnds(vm: Vm, root: nat, va: nat, max: nat, got: seq<Byte>)
    requires Layout(vm) && root < POOL_PAGES && 0 < max && |got| <= max
    ensures var r := CopyInStrFrom(vm, root, va, max, got);
            r.Some? ==> 0 < |r.value| <= max && r.value[|r.value| - 1] == 0
    decreases max - |got|
  {
    hide CopyIn, Layout;
    if |got| < max {
      var c := CopyIn(vm, root, va + |got|, 1);
      if c.Some? && |c.value| == 1 && c.value[0] != 0 { CopyInStrEnds(vm, root, va, max, got + c.value); }
    }
  }

  // ------------------------------------------------------------ the user's view

  /** The frame of its own slot that user address va lies in. */
  function FrameOf(slot: nat, va: nat): Option<nat> {
    match UserPage(va / PGSIZE) case Some(p) => Some(slot * TOTAL_PAGES + p) case None => None
  }

  /** The byte at user address va of a slot. */
  function UserByte(vm: Vm, slot: nat, va: nat): Option<Byte>
    requires Layout(vm) && slot < NPROC
  {
    match FrameOf(slot, va) case Some(f) => Some(vm.frames[f][va % PGSIZE]) case None => None
  }

  ghost predicate Space(vm: Vm, loc: Locations, slot: nat, root: nat) {
    && Layout(vm) && Tree(vm.pool, loc) && slot < NPROC && root < POOL_PAGES
    && HasSpace(vm, loc, SlotSpace(slot), Some(root))
  }

  lemma {:induction false} SpaceKept(vm: Vm, loc: Locations, slot: nat, root: nat, frames: seq<seq<Byte>>)
    requires Space(vm, loc, slot, root) && FramesOk(frames)
    ensures Space(vm.(frames := frames), loc, slot, root)
  {
    FramesIrrelevant(vm, loc, SlotSpace(slot), Some(root), frames);
  }

  /** Software and hardware translations, as frames. */
  lemma {:induction false} Translations(vm: Vm, loc: Locations, slot: nat, root: nat, va: nat)
    requires Space(vm, loc, slot, root)
    ensures var t := match FrameOf(slot, va) case Some(f) => Some(vm.userBase + f) case None => None;
            && TranslateUser(vm.pool, root, va) == t
            && HardwareTranslate(vm.pool, root, va, Load, User) == t
            && HardwareTranslate(vm.pool, root, va, Store, User) == t
    ensures FrameOf(slot, va).Some? ==> FrameOf(slot, va).value < NPROC * TOTAL_PAGES
  {
    hide Tree, Layout, HasSpace, TranslateUser, HardwareTranslate;
    UserReach(vm, loc, slot, root, va, Load);
    UserReach(vm, loc, slot, root, va, Store);
    SoftwareAgrees(vm, loc, slot, root, va);
  }

  /** User addresses of the same page share a frame; other frames belong to other pages. */
  lemma {:induction false} FrameStep(slot: nat, va: nat)
    requires va % PGSIZE + 1 < PGSIZE
    ensures FrameOf(slot, va + 1) == FrameOf(slot, va) && (va + 1) % PGSIZE == va % PGSIZE + 1
  {
  }

  lemma {:induction false} ByteAccess(vm: Vm, loc: Locations, slot: nat, root: nat, va: nat)
    requires Space(vm, loc, slot, root)
    ensures LoadByte(vm, root, va) == UserByte(vm, slot, va)
    ensures forall b: Byte :: StoreByte(vm, root, va, b) ==
              match FrameOf(slot, va)
              case Some(f) => Some(vm.(frames := Poke(vm.frames, f, va % PGSIZE, b)))
              case None => None
  {
    hide Tree, HasSpace, TranslateUser, HardwareTranslate, FrameOf;
    Translations(vm, loc, slot, root, va);
  }

  // ---------------------------------------------------------- copyin refines

  lemma {:induction false} SliceStep(page: seq<Byte>, off: nat, n: nat)
    requires 0 < n && off + n <= |page|
    ensures page[off..off + n] == [page[off]] + page[off + 1..off + n]
  {
  }

  lemma {:induction false} LoadChunk(vm: Vm, loc: Locations, slot: nat, root: nat, va: nat, len: nat, n: nat, f: nat)
    requires Space(vm, loc, slot, root) && 0 < n <= len && va % PGSIZE + n <= PGSIZE
    requires FrameOf(slot, va) == Some(f) && f < NPROC * TOTAL_PAGES
    ensures LoadBytes(vm, root, va, len) ==
            match LoadBytes(vm, root, va + n, len - n)
            case None => None
            case Some(rest) => Some(vm.frames[f][va % PGSIZE..va % PGSIZE + n] + rest)
    decreases n
  {
    hide Tree, HasSpace, FrameOf, LoadByte;
    ByteAccess(vm, loc, slot, root, va);
    var off := va % PGSIZE;
    if n > 1 {
      FrameStep(slot, va);
      LoadChunk(vm, loc, slot, root, va + 1, len - 1, n - 1, f);
      SliceStep(vm.frames[f], off, n);
      assert va + 1 + (n - 1) == va + n && len - 1 - (n - 1) == len - n;
      var tail := LoadBytes(vm, root, va + n, len - n);
      if tail.Some? {
        assert vm.frames[f][off..off + n] + tail.value
            == [vm.frames[f][off]] + (vm.frames[f][off + 1..off + n] + tail.value);
      }
    } else {
      assert vm.frames[f][off..off + 1] == [vm.frames[f][off]];
    }
  }

  /** copyin returns exactly what byte-at-a-time hardware loads would, and fails exactly when one of
   *  them would fault. */
  lemma {:induction false} CopyInRefines(vm: Vm, loc: Locations, slot: nat, root: nat, va: nat, len: nat)
    requires Space(vm, loc, slot, root)
    ensures CopyIn(vm, root, va, len) == LoadBytes(vm, root, va, len)
    decreases len
  {
    hide Tree, HasSpace, FrameOf, LoadByte, TranslateUser, HardwareTranslate;
    if len > 0 {
      Translations(vm, loc, slot, root, va);
      ByteAccess(vm, loc, slot, root, va);
      if FrameOf(slot, va).Some? {
        var n := Chunk(va, len);
        LoadChunk(vm, loc, slot, root, va, len, n, FrameOf(slot, va).value);
        CopyInRefines(vm, loc, slot, root, va + n, len - n);
      }
    }
  }

  /** In the user's terms: copyin succeeds iff every byte is mapped, and returns those bytes. */
  lemma {:induction false} LoadBytesMeaning(vm: Vm, loc: Locations, slot: nat, root: nat, va: nat, len: nat)
    requires Space(vm, loc, slot, root)
    ensures LoadBytes(vm, root, va, len).Some? <==> forall x :: va <= x < va + len ==> UserByte(vm, slot, x).Some?
    ensures LoadBytes(vm, root, va, len).Some? ==> |LoadBytes(vm, root, va, len).value| == len
    ensures LoadBytes(vm, root, va, len).Some? ==>
              forall x :: va <= x < va + len ==>
                UserByte(vm, slot, x) == Some(LoadBytes(vm, root, va, len).value[x - va])
    decreases len
  {
    hide Tree, HasSpace, FrameOf, LoadByte, UserByte;
    if len > 0 {
      ByteAccess(vm, loc, slot, root, va);
      LoadBytesMeaning(vm, loc, slot, root, va + 1, len - 1);
      assert UserByte(vm, slot, va) == LoadByte(vm, root, va);
    }
  }

  // --------------------------------------------------------- copyout refines

  lemma {:induction false} StoreChunk(vm: Vm, loc: Locations, slot: nat, root: nat, va: nat, src: seq<Byte>, n: nat,
                                      f: nat)
    requires Space(vm, loc, slot, root) && 0 < n <= |src| && va % PGSIZE + n <= PGSIZE
    requires FrameOf(slot, va) == Some(f) && f < NPROC * TOTAL_PAGES
    ensures StoreBytes(vm, root, va, src) ==
            StoreBytes(vm.(frames := WriteChunk(vm.frames, f, va % PGSIZE, src[..n])), root, va + n, src[n..])
    decreases n
  {
    hide Tree, HasSpace, FrameOf, StoreByte;
    ByteAccess(vm, loc, slot, root, va);
    var off := va % PGSIZE;
    var vm1 := vm.(frames := Poke(vm.frames, f, off, src[0]));
    assert StoreBytes(vm, root, va, src) == StoreBytes(vm1, root, va + 1, src[1..]);
    SpliceStep(vm.frames, f, off, src[..n]);
    if n > 1 {
      FrameStep(slot, va);
      SpaceKept(vm, loc, slot, root, vm1.frames);
      StoreChunk(vm1, loc, slot, root, va + 1, src[1..], n - 1, f);
      assert src[1..][..n - 1] == src[..n][1..] && src[1..][n - 1..] == src[n..];
      assert va + 1 + (n - 1) == va + n;
    }
  }

  lemma {:induction false} SpliceStep(frames: seq<seq<Byte>>, f: nat, off: nat, bytes: seq<Byte>)
    requires FramesOk(frames) && f < |frames| && 0 < |bytes| && off + |bytes| <= PGSIZE
    ensures |bytes| == 1 ==> WriteChunk(frames, f, off, bytes) == Poke(frames, f, off, bytes[0])
    ensures |bytes| > 1 ==>
         WriteChunk(frames, f, off, bytes) == WriteChunk(Poke(frames, f, off, bytes[0]), f, off + 1, bytes[1..])
  {
    var page := frames[f];
    if |bytes| == 1 {
      assert Splice(page, off, bytes) == page[off := bytes[0]];
    } else {
      assert Splice(page, off, bytes) == Splice(page[off := bytes[0]], off + 1, bytes[1..]);
      assert frames[f := page[off := bytes[0]]][f := Splice(page, off, bytes)] == frames[f := Splice(page, off, bytes)];
    }
  }

  /** copyout leaves exactly the memory, and the verdict, of byte-at-a-time hardware stores, also when
   *  it fails half way. */
  lemma {:induction false} CopyOutRefines(vm: Vm, loc: Locations, slot: nat, root: nat, va: nat, src: seq<Byte>)
    requires Space(vm, loc, slot, root)
    ensures CopyOut(vm, root, va, src) == StoreBytes(vm, root, va, src)
    decreases |src|
  {
    hide Tree, HasSpace, FrameOf, StoreByte, TranslateUser, HardwareTranslate, WriteChunk;
    if src != [] {
      Translations(vm, loc, slot, root, va);
      ByteAccess(vm, loc, slot, root, va);
      if FrameOf(slot, va).Some? {
        var n, f := Chunk(va, |src|), FrameOf(slot, va).value;
        StoreChunk(vm, loc, slot, root, va, src, n, f);
        var frames := WriteChunk(vm.frames, f, va % PGSIZE, src[..n]);
        SpaceKept(vm, loc, slot, root, frames);
        CopyOutRefines(vm.(frames := frames), loc, slot, root, va + n, src[n..]);
      } else {
        assert StoreByte(vm, root, va, src[0]).None?;
      }
    }
  }

  /** How far a copy to va gets: the number of mapped bytes before the first unmapped one. */
  function Reach(va: nat, len: nat): (k: nat)
    ensures k <= len
    ensures forall x :: va <= x < va + k ==> UserPage(x / PGSIZE).Some?
    ensures k < len ==> UserPage((va + k) / PGSIZE).None?
    decreases len
  {
    if len == 0 || UserPage(va / PGSIZE).None? then 0 else 1 + Reach(va + 1, len - 1)
  }

  /** Exactly the first k bytes from va of `slot` are replaced by those of src; every other byte of
   *  every slot is as before. */
  ghost predicate Overwrites(vm: Vm, vm': Vm, slot: nat, va: nat, src: seq<Byte>, k: nat)
    requires Layout(vm) && Layout(vm') && k <= |src|
  {
    forall s: nat, x: nat :: s < NPROC ==>
      UserByte(vm', s, x) == if s == slot && va <= x < va + k then Some(src[x - va]) else UserByte(vm, s, x)
  }

  lemma {:induction false} PokeMeaning(vm: Vm, slot: nat, va: nat, b: Byte)
    requires Layout(vm) && slot < NPROC && FrameOf(slot, va).Some?
    ensures FrameOf(slot, va).value < NPROC * TOTAL_PAGES
    ensures var vm' := vm.(frames := Poke(vm.frames, FrameOf(slot, va).value, va % PGSIZE, b));
            forall s: nat, x: nat :: s < NPROC ==>
              UserByte(vm', s, x) == if s == slot && x == va then Some(b) else UserByte(vm, s, x)
  {
    var vm' := vm.(frames := Poke(vm.frames, FrameOf(slot, va).value, va % PGSIZE, b));
    forall s: nat, x: nat | s < NPROC
      ensures UserByte(vm', s, x) == if s == slot && x == va then Some(b) else UserByte(vm, s, x)
    {
      SameFrame(s, x, slot, va);
    }
  }

  lemma {:induction false} SameFrame(s: nat, x: nat, slot: nat, va: nat)
    requires s < NPROC && slot < NPROC
    ensures FrameOf(s, x).Some? && FrameOf(s, x) == FrameOf(slot, va) && x % PGSIZE == va % PGSIZE ==>
         s == slot && x == va
  {
  }

  lemma {:induction false} StoreBytesMeaning(vm: Vm, loc: Locations, slot: nat, root: nat, va: nat, src: seq<Byte>)
    requires Space(vm, loc, slot, root)
    ensures var r := StoreBytes(vm, root, va, src);
            && Overwrites(vm, r.0, slot, va, src, Reach(va, |src|))
            && (r.1 <==> Reach(va, |src|) == |src|)
    decreases |src|
  {
    hide Tree, HasSpace, StoreByte, UserByte;
    if src != [] {
      ByteAccess(vm, loc, slot, root, va);
      if FrameOf(slot, va).Some? {
        PokeMeaning(vm, slot, va, src[0]);
        var vm1 := vm.(frames := Poke(vm.frames, FrameOf(slot, va).value, va % PGSIZE, src[0]));
        SpaceKept(vm, loc, slot, root, vm1.frames);
        StoreBytesMeaning(vm1, loc, slot, root, va + 1, src[1..]);
        var r, k := StoreBytes(vm1, root, va + 1, src[1..]), Reach(va + 1, |src| - 1);
        assert StoreBytes(vm, root, va, src) == r;
        forall s: nat, x: nat | s < NPROC
          ensures UserByte(r.0, s, x)
               == if s == slot && va <= x < va + (k + 1) then Some(src[x - va]) else UserByte(vm, s, x)
        {
          var tail := src[1..];
          assert UserByte(r.0, s, x)
              == if s == slot && va + 1 <= x < va + 1 + k then Some(tail[x - (va + 1)]) else UserByte(vm1, s, x);
        }
      } else {
        assert StoreByte(vm, root, va, src[0]).None?;
      }
    }
  }

  /** copyout then copyin returns the bytes that were sent. */
  lemma {:induction false} CopyRoundTrip(vm: Vm, loc: Locations, slot: nat, root: nat, va: nat, src: seq<Byte>)
    requires Space(vm, loc, slot, root) && CopyOut(vm, root, va, src).1
    ensures CopyIn(CopyOut(vm, root, va, src).0, root, va, |src|) == Some(src)
  {
    hide Tree, HasSpace, UserByte, CopyOut, CopyIn, StoreBytes, LoadBytes;
    var vm' := CopyOut(vm, root, va, src).0;
    CopyOutRefines(vm, loc, slot, root, va, src);
    StoreBytesMeaning(vm, loc, slot, root, va, src);
    SpaceKept(vm, loc, slot, root, vm'.frames);
    CopyInRefines(vm', loc, slot, root, va, |src|);
    LoadBytesMeaning(vm', loc, slot, root, va, |src|);
    var got := LoadBytes(vm', root, va, |src|);
    forall x | va <= x < va + |src| ensures UserByte(vm', slot, x) == Some(src[x - va]) {}
    assert got.Some?;
    forall i | 0 <= i < |src| ensures got.value[i] == src[i] {
      assert UserByte(vm', slot, va + i) == Some(got.value[va + i - va]);
    }
    assert got.value == src;
  }

  // -------------------------------------------------------------- copyinstr

  /** The number of readable non-NUL bytes from va on, at most max. */
  function StringReach(vm: Vm, slot: nat, va: nat, max: nat): (k: nat)
    requires Layout(vm) && slot < NPROC
    ensures k <= max
    decreases max
  {
    if max == 0 then 0 else
    match UserByte(vm, slot, va)
    case None => 0
    case Some(b) => if b == 0 then 0 else 1 + StringReach(vm, slot, va + 1, max - 1)
  }

  /** copyinstr yields the user string with its NUL, or its first max - 1 bytes and a NUL; it fails
   *  exactly when an unmapped byte comes before the NUL and before max. */
  lemma {:induction false} CopyInStrMeaning(vm: Vm, loc: Locations, slot: nat, root: nat, va: nat, max: nat)
    requires Space(vm, loc, slot, root) && 0 < max
    ensures var k := StringReach(vm, slot, va, max);
            var r := CopyInStr(vm, root, va, max);
            && (r.None? <==> k < max && UserByte(vm, slot, va + k).None?)
            && (r.Some? ==>
                  && |r.value| == (if k < max then k + 1 else max)
                  && r.value[|r.value| - 1] == 0
                  && forall i :: 0 <= i < |r.value| - 1 ==>
                       UserByte(vm, slot, va + i) == Some(r.value[i]) && r.value[i] != 0)
  {
    hide Tree, HasSpace, UserByte, CopyInStrFrom, StringReach;
    CopyInStrFromMeaning(vm, loc, slot, root, va, max, []);
  }

  lemma {:induction false} CopyInStrFromMeaning(vm: Vm, loc: Locations, slot: nat, root: nat, va: nat, max: nat,
                                                got: seq<Byte>)
    requires Space(vm, loc, slot, root) && 0 < max && |got| <= max
    requires forall i :: 0 <= i < |got| ==> UserByte(vm, slot, va + i) == Some(got[i]) && got[i] != 0
    ensures var k := |got| + StringReach(vm, slot, va + |got|, max - |got|);
            var r := CopyInStrFrom(vm, root, va, max, got);
            && (r.None? <==> k < max && UserByte(vm, slot, va + k).None?)
            && (r.Some? ==>
                  && |r.value| == (if k < max then k + 1 else max)
                  && r.value[|r.value| - 1] == 0
                  && forall i :: 0 <= i < |r.value| - 1 ==>
                       UserByte(vm, slot, va + i) == Some(r.value[i]) && r.value[i] != 0)
    decreases max - |got|
  {
    hide Tree, HasSpace, UserByte, CopyIn, LoadBytes;
    if |got| < max {
      var x := va + |got|;
      CopyInRefines(vm, loc, slot, root, x, 1);
      LoadBytesMeaning(vm, loc, slot, root, x, 1);
      var c := CopyIn(vm, root, x, 1);
      assert c.Some? <==> UserByte(vm, slot, x).Some?;
      if c.Some? {
        assert UserByte(vm, slot, x) == Some(c.value[x - x]);
        if c.value[0] != 0 {
          assert max - |got + c.value| == max - |got| - 1;
          assert va + |got + c.value| == x + 1;
          CopyInStrFromMeaning(vm, loc, slot, root, va, max, got + c.value);
        }
      }
    }
  }
}
