/** kernel/vm.c in its own form: arrays updated in place by loops.  Every method is proved to leave exactly the
 *  state the corresponding function computes. */
module VmObject {
  import opened Wrappers
  import opened Sv39
  import P = PageTable
  import A = AddressSpace
  import C = UserCopy

  class VirtualMemory {
    const base: nat
    const kernelEnd: nat
    const userBase: nat
    const used: array<bool>
    const pages: array<seq<Pte>>
    const frames: array<seq<A.Byte>>
    var kernelPt: Option<nat>

    ghost function PoolModel(): P.Pool
      reads used, pages
    {
      P.Pool(base, used[..], pages[..])
    }

    ghost function Model(): A.Vm
      reads this, used, pages, frames
    {
      A.Vm(PoolModel(), kernelPt, kernelEnd, userBase, frames[..])
    }

    ghost predicate Valid()
      reads this, used, pages, frames
    {
      A.Layout(Model())
    }

    /** vm_init */
    constructor (base: nat, kernelEnd: nat, userBase: nat)
      requires 0x80200 <= base && base + P.POOL_PAGES <= kernelEnd && 0x80200 <= userBase
      requires userBase + A.NPROC * A.TOTAL_PAGES <= kernelEnd <= A.RAM_END
      requires userBase + A.NPROC * A.TOTAL_PAGES <= base || base + P.POOL_PAGES <= userBase
      ensures Valid() && Model().kernelPt == None && forall p :: 0 <= p < P.POOL_PAGES ==> !used[p]
      ensures fresh(used) && fresh(pages) && fresh(frames)
    {
      this.base, this.kernelEnd, this.userBase := base, kernelEnd, userBase;
      used := new bool[P.POOL_PAGES](_ => false);
      pages := new seq<Pte>[P.POOL_PAGES](_ => P.EmptyPage());
      frames := new seq<A.Byte>[A.NPROC * A.TOTAL_PAGES](_ => A.ImagePage([], 0));
      kernelPt := None;
    }

    // ------------------------------------------------------------- the pool

    method PtAlloc() returns (page: Option<nat>)
      requires Valid()
      modifies used, pages
      ensures Valid() && (PoolModel(), page) == P.Alloc(old(PoolModel()))
    {
      var i := 0;
      while i < P.POOL_PAGES
        invariant 0 <= i <= P.POOL_PAGES
        invariant PoolModel() == old(PoolModel())
        invariant P.FirstFree(used[..], 0) == P.FirstFree(used[..], i)
      {
        if !used[i] {
          used[i] := true;
          pages[i] := P.EmptyPage();
          return Some(i);
        }
        i := i + 1;
      }
      return None;
    }

    /** pt_release of any physical address: null and addresses outside the pool are ignored. */
    method PtRelease(pa: nat)
      requires Valid()
      modifies used
      ensures Valid() && var m := old(PoolModel());
              PoolModel() == if P.InPool(m, pa / PGSIZE) then P.Release(m, pa / PGSIZE - base) else m
    {
      if pa < base * PGSIZE || pa >= (base + P.POOL_PAGES) * PGSIZE { return; }
      var idx := (pa - base * PGSIZE) / PGSIZE;
      assert idx == pa / PGSIZE - base;
      if idx < P.POOL_PAGES { used[idx] := false; }
    }

    /** pt_destroy_level; None is the null table. */
    method PtDestroyLevel(pt: Option<nat>, level: nat)
      requires Valid() && (pt.Some? ==> pt.value < P.POOL_PAGES)
      modifies used
      ensures Valid() && var m := old(PoolModel());
              PoolModel() == if pt.Some? then P.DestroyLevel(m, pt.value, level) else m
      decreases level
    {
      if pt.None? { return; }
      var p := pt.value;
      if level > 0 {
        var i := 0;
        while i < ENTRIES
          invariant 0 <= i <= ENTRIES && Valid()
          invariant P.DestroyEntries(PoolModel(), p, level, i) == P.DestroyEntries(old(PoolModel()), p, level, 0)
        {
          var e := pages[p][i];
          if e.v && !IsLeaf(e) && base <= e.ppn < base + P.POOL_PAGES {
            PtDestroyLevel(Some(e.ppn - base), level - 1);
          }
          i := i + 1;
        }
      }
      assert (base + p) * PGSIZE / PGSIZE == base + p;
      PtRelease((base + p) * PGSIZE);
    }

    method SetEntry(p: nat, i: nat, e: Pte)
      requires Valid() && p < P.POOL_PAGES && i < ENTRIES
      modifies pages
      ensures Valid() && PoolModel() == P.SetEntry(old(PoolModel()), p, i, e)
    {
      pages[p] := pages[p][i := e];
    }

    // ------------------------------------------------------------- mappages

    /** The level loop: the level-0 table for virtual address a. */
    method WalkAlloc(root: nat, a: nat) returns (leaf: Option<nat>)
      requires Valid() && root < P.POOL_PAGES
      modifies used, pages
      ensures Valid() && (PoolModel(), leaf) == P.Descend(old(PoolModel()), root, a / PGSIZE, 2)
    {
      hide P.Descend, P.Alloc, Vpn, Index;
      var p: nat, level: nat := root, 2;
      while level > 0
        invariant 0 <= level <= 2 && Valid() && p < P.POOL_PAGES
        invariant P.Descend(PoolModel(), p, a / PGSIZE, level) == P.Descend(old(PoolModel()), root, a / PGSIZE, 2)
      {
        VpnIsIndex(a, level);
        PoolShape(Model());
        DescendStep(PoolModel(), p, a / PGSIZE, level);
        var idx := Vpn(a, level);
        if !pages[p][idx].v {
          var child := PtAlloc();
          if child.None? { return None; }
          SetEntry(p, idx, TablePte(base + child.value));
          PoolShape(Model());
        }
        var e := pages[p][idx];
        if !(base <= e.ppn < base + P.POOL_PAGES) { return None; }
        p := e.ppn - base;
        level := level - 1;
      }
      PoolShape(Model());
      DescendEnd(PoolModel(), p, a / PGSIZE);
      return Some(p);
    }

    /** mappages for any addresses and size: it maps the pages at va, va + PGSIZE, ... below va + size. */
    method MapPages(root: nat, va: nat, size: nat, pa: nat, perm: Perm) returns (ok: bool)
      requires Valid() && root < P.POOL_PAGES
      modifies used, pages
      ensures Valid()
      ensures (PoolModel(), ok) == P.MapPages(old(PoolModel()), root, va / PGSIZE, PageCount(size), pa / PGSIZE, perm)
    {
      hide P.Descend, Vpn, Index, P.Shape, P.MapOne, PageCount;
      var a, frame := va, pa;
      NoPages();
      while a < va + size
        invariant va <= a && frame == pa + (a - va) && Valid()
        invariant P.MapPages(PoolModel(), root, a / PGSIZE, PageCount(va + size - a), frame / PGSIZE, perm)
               == P.MapPages(old(PoolModel()), root, va / PGSIZE, PageCount(size), pa / PGSIZE, perm)
        decreases va + size - a
      {
        ghost var before := PoolModel();
        PageStep(a, va + size, frame);
        var ok1 := MapOne(root, a, frame, perm);
        if !ok1 { return false; }
        a, frame := a + PGSIZE, frame + PGSIZE;
      }
      return true;
    }

    /** One iteration of the outer loop. */
    method MapOne(root: nat, a: nat, frame: nat, perm: Perm) returns (ok: bool)
      requires Valid() && root < P.POOL_PAGES
      modifies used, pages
      ensures Valid() && (PoolModel(), ok) == P.MapOne(old(PoolModel()), root, a / PGSIZE, frame / PGSIZE, perm)
    {
      hide P.Descend;
      var leaf := WalkAlloc(root, a);
      if leaf.None? { return false; }
      VpnIsIndex(a, 0);
      if pages[leaf.value][Vpn(a, 0)].v { return false; }
      SetEntry(leaf.value, Vpn(a, 0), LeafPte(frame / PGSIZE, perm));
      return true;
    }

    method WalkUserPte(root: nat, va: nat) returns (e: Option<Pte>)
      requires Valid() && root < P.POOL_PAGES
      ensures e == if va >= VA_LIMIT then None else P.Walk(PoolModel(), root, va / PGSIZE, 2)
    {
      if va >= VA_LIMIT { return None; }
      var p: nat, level: nat := root, 2;
      while level > 0
        invariant 0 <= level <= 2 && p < P.POOL_PAGES
        invariant P.Walk(PoolModel(), p, va / PGSIZE, level) == P.Walk(PoolModel(), root, va / PGSIZE, 2)
      {
        VpnIsIndex(va, level);
        var entry := pages[p][Vpn(va, level)];
        if !entry.v || !(base <= entry.ppn < base + P.POOL_PAGES) { return None; }
        p := entry.ppn - base;
        level := level - 1;
      }
      VpnIsIndex(va, 0);
      var last := pages[p][Vpn(va, 0)];
      return if last.v then Some(last) else None;
    }

    method TranslateUser(root: nat, va: nat) returns (ppn: Option<nat>)
      requires Valid() && root < P.POOL_PAGES
      ensures ppn == P.TranslateUser(PoolModel(), root, va)
    {
      var e := WalkUserPte(root, va);
      return if e.Some? && e.value.u then Some(e.value.ppn) else None;
    }

    // ------------------------------------------------------ address spaces

    method KernelMap(root: nat) returns (ok: bool)
      requires Valid() && root < P.POOL_PAGES
      modifies used, pages
      ensures Valid() && (PoolModel(), ok) == A.KernelMap(old(PoolModel()), root, kernelEnd)
    {
      hide P.MapPages, P.Shape;
      NoPages();
      assert kernelEnd * PGSIZE - 0x80000000 == (kernelEnd - A.KERNEL_VPN) * PGSIZE;
      ok := MapPages(root, 0x80000000, kernelEnd * PGSIZE - 0x80000000, 0x80000000, A.RWX);
      if !ok { return false; }
      ok := MapPages(root, 0x10000000, PGSIZE, 0x10000000, A.RW);
    }

    method UserMap(root: nat, slot: nat) returns (ok: bool)
      requires Valid() && root < P.POOL_PAGES && slot < A.NPROC
      modifies used, pages
      ensures Valid() && (PoolModel(), ok) == A.UserMap(old(PoolModel()), root, userBase + slot * A.TOTAL_PAGES)
    {
      hide P.MapPages, P.Shape;
      var pa := (userBase + slot * A.TOTAL_PAGES) * PGSIZE;
      assert pa / PGSIZE == userBase + slot * A.TOTAL_PAGES && pa % PGSIZE == 0;
      assert (pa + A.IMAGE_PAGES * PGSIZE) / PGSIZE == userBase + slot * A.TOTAL_PAGES + A.IMAGE_PAGES;
      ok := MapPages(root, 0x40000000, A.IMAGE_PAGES * PGSIZE, pa, A.RWXU);
      if !ok { return false; }
      ok := MapPages(root, 0x80000000 - PGSIZE, PGSIZE, pa + A.IMAGE_PAGES * PGSIZE, A.RWU);
    }

    method VmDestroy(root: Option<nat>)
      requires Valid() && (root.Some? ==> root.value < P.POOL_PAGES)
      modifies used
      ensures Valid() && Model() == A.VmDestroy(old(Model()), root)
    {
      if root.None? || root == kernelPt { return; }
      PtDestroyLevel(root, 2);
    }

    /** The common start of vm_create_user and vm_clone_user. */
    method StartUser() returns (root: Option<nat>)
      requires Valid()
      modifies used, pages
      ensures Valid() && (Model(), root) == A.StartUser(old(Model()))
    {
      root := PtAlloc();
      if root.None? { return; }
      var ok := KernelMap(root.value);
      if !ok {
        PtDestroyLevel(root, 2);
        root := None;
      }
    }

    /** The common end: map the slot's frames, or tear the table down. */
    method MapUser(root: nat, slot: nat) returns (pt: Option<nat>)
      requires Valid() && root < P.POOL_PAGES && slot < A.NPROC
      modifies used, pages
      ensures Valid() && (Model(), pt) == A.MapUser(old(Model()), root, slot)
    {
      hide A.UserMap, P.DestroyLevel;
      var ok := UserMap(root, slot);
      if ok { return Some(root); }
      VmDestroy(Some(root));
      return None;
    }

    /** memset and memcpy of the image into the slot's frames */
    method LoadImage(slot: nat, image: seq<A.Byte>)
      requires Valid() && slot < A.NPROC
      modifies frames
      ensures Valid() && frames[..] == A.LoadImage(old(frames[..]), slot, image)
    {
      var j := 0;
      while j < A.TOTAL_PAGES
        invariant 0 <= j <= A.TOTAL_PAGES
        invariant forall f :: 0 <= f < frames.Length ==>
                    frames[f] == if f / A.TOTAL_PAGES == slot && f % A.TOTAL_PAGES < j
                                 then A.ImagePage(image, f % A.TOTAL_PAGES) else old(frames[f])
      {
        frames[slot * A.TOTAL_PAGES + j] := A.ImagePage(image, j);
        j := j + 1;
      }
    }

    /** memcpy of a slot's frames onto another's */
    method CopySlot(dst: nat, src: nat)
      requires Valid() && dst < A.NPROC && src < A.NPROC
      modifies frames
      ensures Valid() && frames[..] == A.CopySlot(old(frames[..]), dst, src)
    {
      hide P.Shape;
      ghost var was := frames[..];
      var j := 0;
      while j < A.TOTAL_PAGES
        invariant 0 <= j <= A.TOTAL_PAGES
        invariant frames[..] == Copied(was, dst, src, j)
      {
        CopiedStep(was, dst, src, j);
        frames[dst * A.TOTAL_PAGES + j] := frames[src * A.TOTAL_PAGES + j];
        j := j + 1;
      }
      assert Copied(was, dst, src, A.TOTAL_PAGES) == A.CopySlot(was, dst, src);
    }

    method VmCreateUser(image: seq<A.Byte>, slot: int) returns (pt: Option<nat>)
      requires Valid()
      modifies used, pages, frames
      ensures Valid() && (Model(), pt) == A.CreateUser(old(Model()), image, slot)
    {
      if slot < 0 || slot >= A.NPROC { return None; }
      pt := StartUser();
      if pt.None? { return; }
      LoadImage(slot, image);
      pt := MapUser(pt.value, slot);
    }

    method VmCloneUser(dst: int, src: int) returns (pt: Option<nat>)
      requires Valid()
      modifies used, pages, frames
      ensures Valid() && (Model(), pt) == A.CloneUser(old(Model()), dst, src)
    {
      if dst < 0 || dst >= A.NPROC || src < 0 || src >= A.NPROC { return None; }
      pt := StartUser();
      if pt.None? { return; }
      CopySlot(dst, src);
      pt := MapUser(pt.value, dst);
    }

    method KernelPagetable() returns (pt: Option<nat>)
      requires Valid()
      modifies this`kernelPt, used, pages
      ensures Valid() && (Model(), pt) == A.KernelPagetable(old(Model()))
    {
      if kernelPt.None? {
        var root := PtAlloc();
        if root.None? { return None; }
        var ok := KernelMap(root.value);
        if !ok {
          assert (base + root.value) * PGSIZE / PGSIZE == base + root.value;
          PtRelease((base + root.value) * PGSIZE);
          return None;
        }
        kernelPt := root;
      }
      return kernelPt;
    }

    // --------------------------------------------------------- user copies

    /** memcpy(d, (void *)pa, n) out of one frame */
    method ReadChunk(dst: array<A.Byte>, d: nat, f: nat, off: nat, n: nat)
      requires Valid() && f < A.NPROC * A.TOTAL_PAGES && off + n <= PGSIZE && d + n <= dst.Length
      modifies dst
      ensures dst[..] == old(dst[..d]) + frames[f][off..off + n] + old(dst[d + n..])
    {
      var page := frames[f];
      forall j | 0 <= j < n { dst[d + j] := page[off + j]; }
    }

    /** memcpy((void *)pa, s, n) into one frame */
    method WriteChunk(f: nat, off: nat, bytes: seq<A.Byte>)
      requires Valid() && f < A.NPROC * A.TOTAL_PAGES && off + |bytes| <= PGSIZE
      modifies frames
      ensures Valid() && frames[..] == C.WriteChunk(old(frames[..]), f, off, bytes)
    {
      frames[f] := C.Splice(frames[f], off, bytes);
    }

    /** One iteration of copyin: translate, then copy up to the end of the page. */
    method CopyInChunk(dst: array<A.Byte>, d: nat, root: nat, va: nat, len: nat)
      returns (n: nat, ok: bool, ghost chunk: seq<A.Byte>)
      requires Valid() && root < P.POOL_PAGES && d + len <= dst.Length && 0 < len
      modifies dst
      ensures ok ==> 0 < n <= len && |chunk| == n && dst[..] == old(dst[..d]) + chunk + old(dst[d + n..])
      ensures ok ==> C.CopyIn(Model(), root, va, len) == Prepend(chunk, C.CopyIn(Model(), root, va + n, len - n))
      ensures !ok ==> C.CopyIn(Model(), root, va, len).None?
    {
      hide C.CopyIn, P.Shape;
      n, chunk := 0, [];
      var ppn := TranslateUser(root, va);
      CopyInStep(Model(), root, va, len);
      if ppn.None? || !(userBase <= ppn.value < userBase + A.NPROC * A.TOTAL_PAGES) {
        ok := false;
      } else {
        ok, n := true, C.Chunk(va, len);
        chunk := ChunkAt(Model(), ppn.value, va, n);
        ReadChunk(dst, d, ppn.value - userBase, va % PGSIZE, n);
      }
    }

    method CopyIn(dst: array<A.Byte>, at: nat, root: nat, va: nat, len: nat) returns (ok: bool)
      requires Valid() && root < P.POOL_PAGES && at + len <= dst.Length
      modifies dst
      ensures ok <==> C.CopyIn(Model(), root, va, len).Some?
      ensures ok ==> dst[..] == old(dst[..at]) + C.CopyIn(Model(), root, va, len).value + old(dst[at + len..])
      ensures ok ==> |C.CopyIn(Model(), root, va, len).value| == len
    {
      hide C.CopyIn, A.Layout;
      ghost var vm, was, got := Model(), dst[..], [];
      var done := 0;
      NothingYet(C.CopyIn(vm, root, va, len));
      while done < len
        invariant 0 <= done <= len && Model() == vm && |got| == done
        invariant dst[..] == was[..at] + got + was[at + done..]
        invariant Prepend(got, C.CopyIn(vm, root, va + done, len - done)) == C.CopyIn(vm, root, va, len)
      {
        ghost var mid := dst[..];
        var n, more, chunk := CopyInChunk(dst, at + done, root, va + done, len - done);
        if !more { return false; }
        PrependTwice(got, chunk, C.CopyIn(vm, root, va + done + n, len - done - n));
        Extended(was, at, got, chunk, dst[..]);
        got := got + chunk;
        done := done + n;
      }
      CopyInEnd(vm, root, va + len);
      assert got + [] == got;
      return true;
    }

    method CopyOut(root: nat, va: nat, src: seq<A.Byte>) returns (ok: bool)
      requires Valid() && root < P.POOL_PAGES
      modifies frames
      ensures Valid() && (Model(), ok) == C.CopyOut(old(Model()), root, va, src)
    {
      hide C.CopyOut, C.WriteChunk, A.Layout;
      var done := 0;
      assert src[0..] == src;
      while done < |src|
        invariant 0 <= done <= |src| && Valid()
        invariant C.CopyOut(Model(), root, va + done, src[done..]) == C.CopyOut(old(Model()), root, va, src)
      {
        var ppn := TranslateUser(root, va + done);
        CopyOutStep(Model(), root, va + done, src[done..]);
        if ppn.None? || !(userBase <= ppn.value < userBase + A.NPROC * A.TOTAL_PAGES) { return false; }
        var n := C.Chunk(va + done, |src| - done);
        assert src[done..][..n] == src[done..done + n] && src[done..][n..] == src[done + n..];
        WriteChunk(ppn.value - userBase, (va + done) % PGSIZE, src[done..done + n]);
        done := done + n;
      }
      assert src[done..] == [];
      CopyOutEnd(Model(), root, va + done);
      return true;
    }

    method CopyInStr(dst: array<A.Byte>, root: nat, va: nat, max: nat) returns (ok: bool)
      requires Valid() && root < P.POOL_PAGES && 0 < max <= dst.Length
      modifies dst
      ensures ok <==> C.CopyInStr(Model(), root, va, max).Some?
      ensures ok ==> |C.CopyInStr(Model(), root, va, max).value| <= max
                     && dst[..|C.CopyInStr(Model(), root, va, max).value|] == C.CopyInStr(Model(), root, va, max).value
    {
      hide C.CopyIn, A.Layout;
      ghost var vm := Model();
      var i := 0;
      while i < max
        invariant 0 <= i <= max && Model() == vm
        invariant C.CopyInStrFrom(vm, root, va, max, dst[..i]) == C.CopyInStr(vm, root, va, max)
      {
        ghost var got := dst[..i];
        var one := CopyIn(dst, i, root, va + i, 1);
        if !one { return false; }
        assert dst[..i + 1] == got + C.CopyIn(vm, root, va + i, 1).value;
        if dst[i] == 0 { return true; }
        i := i + 1;
      }
      ghost var got := dst[..max];
      dst[max - 1] := 0;
      assert dst[..max] == got[max - 1 := 0];
      return true;
    }
  }

  lemma {:induction false} PoolShape(vm: A.Vm)
    requires A.Layout(vm)
    ensures P.Shape(vm.pool)
  {
  }

  lemma {:induction false} DescendStep(m: P.Pool, p: nat, n: nat, level: nat)
    requires P.Shape(m) && p < P.POOL_PAGES && 0 < level <= 2
    ensures var i := Index(n, level);
            var e := m.pages[p][i];
            P.Descend(m, p, n, level) ==
            if !e.v then
              var (m1, c) := P.Alloc(m);
              if c.None? then (m1, None)
              else P.Descend(P.SetEntry(m1, p, i, TablePte(m.base + c.value)), c.value, n, level - 1)
            else if P.InPool(m, e.ppn) then P.Descend(m, e.ppn - m.base, n, level - 1)
            else (m, None)
  {
  }

  lemma {:induction false} DescendEnd(m: P.Pool, p: nat, n: nat)
    requires P.Shape(m) && p < P.POOL_PAGES
    ensures P.Descend(m, p, n, 0) == (m, Some(p))
  {
  }

  /** The pages the loop of mappages visits for `size` bytes; none when the address is already past the end. */
  function PageCount(size: int): nat { if size <= 0 then 0 else (size + PGSIZE - 1) / PGSIZE }

  /** Exactly as many pages as it takes to reach the end, whole or not. */
  lemma {:induction false} PageCountCovers(size: nat)
    ensures size == 0 ==> PageCount(size) == 0
    ensures size > 0 ==> (PageCount(size) - 1) * 4096 < size <= PageCount(size) * 4096
  {
  }

  lemma {:induction false} NoPages()
    ensures forall size: int :: size <= 0 ==> PageCount(size) == 0
    ensures forall n: nat :: PageCount(n * PGSIZE) == n
  {
  }

  lemma {:induction false} PageStep(a: nat, end: nat, frame: nat)
    requires a < end
    ensures (a + PGSIZE) / PGSIZE == a / PGSIZE + 1 && (frame + PGSIZE) / PGSIZE == frame / PGSIZE + 1
    ensures PageCount(end - a) > 0 && PageCount(end - (a + PGSIZE)) == PageCount(end - a) - 1
  {
  }

  /** The frames after the first j pages of slot src were copied onto slot dst. */
  ghost function Copied(frames: seq<seq<A.Byte>>, dst: nat, src: nat, j: nat): (r: seq<seq<A.Byte>>)
    requires A.FramesOk(frames) && dst < A.NPROC && src < A.NPROC && j <= A.TOTAL_PAGES
  {
    seq(|frames|, f requires 0 <= f < |frames| =>
      if f / A.TOTAL_PAGES == dst && f % A.TOTAL_PAGES < j
      then frames[src * A.TOTAL_PAGES + f % A.TOTAL_PAGES] else frames[f])
  }

  lemma {:induction false} CopiedStep(frames: seq<seq<A.Byte>>, dst: nat, src: nat, j: nat)
    requires A.FramesOk(frames) && dst < A.NPROC && src < A.NPROC && j < A.TOTAL_PAGES
    ensures Copied(frames, dst, src, j)[src * A.TOTAL_PAGES + j] == frames[src * A.TOTAL_PAGES + j]
    ensures Copied(frames, dst, src, j + 1) ==
            Copied(frames, dst, src, j)[dst * A.TOTAL_PAGES + j := frames[src * A.TOTAL_PAGES + j]]
  {
    var f := dst * A.TOTAL_PAGES + j;
    assert f / A.TOTAL_PAGES == dst && f % A.TOTAL_PAGES == j;
    var x, y := Copied(frames, dst, src, j + 1), Copied(frames, dst, src, j)[f := frames[src * A.TOTAL_PAGES + j]];
    forall g | 0 <= g < |frames| ensures x[g] == y[g] {
      if g / A.TOTAL_PAGES == dst && g % A.TOTAL_PAGES == j { assert g == f; }
    }
  }

  ghost function Prepend(x: seq<A.Byte>, r: Option<seq<A.Byte>>): Option<seq<A.Byte>> {
    match r case None => None case Some(rest) => Some(x + rest)
  }

  lemma {:induction false} NothingYet(r: Option<seq<A.Byte>>)
    ensures Prepend([], r) == r
  {
    if r.Some? { assert [] + r.value == r.value; }
  }

  lemma {:induction false} PrependTwice(x: seq<A.Byte>, y: seq<A.Byte>, r: Option<seq<A.Byte>>)
    ensures Prepend(x, Prepend(y, r)) == Prepend(x + y, r)
  {
    if r.Some? { assert x + (y + r.value) == (x + y) + r.value; }
  }

  lemma {:induction false} Extended(was: seq<A.Byte>, at: nat, got: seq<A.Byte>, chunk: seq<A.Byte>, now: seq<A.Byte>)
    requires at + |got| + |chunk| <= |was|
    requires var mid := was[..at] + got + was[at + |got|..];
             now == mid[..at + |got|] + chunk + mid[at + |got| + |chunk|..]
    ensures now == was[..at] + (got + chunk) + was[at + |got + chunk|..]
  {
  }

  ghost function ChunkAt(vm: A.Vm, ppn: nat, va: nat, n: nat): (r: seq<A.Byte>)
    requires A.Layout(vm) && C.InFrames(vm, ppn) && va % PGSIZE + n <= PGSIZE
    ensures |r| == n
  {
    vm.frames[ppn - vm.userBase][va % PGSIZE..va % PGSIZE + n]
  }

  lemma {:induction false} CopyInStep(vm: A.Vm, root: nat, va: nat, len: nat)
    requires A.Layout(vm) && root < P.POOL_PAGES && 0 < len
    ensures var t := P.TranslateUser(vm.pool, root, va);
            var n := C.Chunk(va, len);
            C.CopyIn(vm, root, va, len) ==
            if t.None? || !C.InFrames(vm, t.value) then None
            else Prepend(ChunkAt(vm, t.value, va, n), C.CopyIn(vm, root, va + n, len - n))
  {
    hide P.TranslateUser;
  }

  lemma {:induction false} CopyInEnd(vm: A.Vm, root: nat, va: nat)
    requires A.Layout(vm) && root < P.POOL_PAGES
    ensures C.CopyIn(vm, root, va, 0) == Some([])
  {
  }

  lemma {:induction false} CopyOutStep(vm: A.Vm, root: nat, va: nat, src: seq<A.Byte>)
    requires A.Layout(vm) && root < P.POOL_PAGES && src != []
    ensures var t := P.TranslateUser(vm.pool, root, va);
            var n := C.Chunk(va, |src|);
            C.CopyOut(vm, root, va, src) ==
            if t.None? || !C.InFrames(vm, t.value) then (vm, false)
            else
              var frames := C.WriteChunk(vm.frames, t.value - vm.userBase, va % PGSIZE, src[..n]);
              C.CopyOut(vm.(frames := frames), root, va + n, src[n..])
  {
    hide P.TranslateUser, C.WriteChunk;
  }

  lemma {:induction false} CopyOutEnd(vm: A.Vm, root: nat, va: nat)
    requires A.Layout(vm) && root < P.POOL_PAGES
    ensures C.CopyOut(vm, root, va, []) == (vm, true)
  {
  }
}
