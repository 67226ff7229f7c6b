/** Alignment: headers, sizes and the pointers handed out are multiples of RT_ALIGN_SIZE from the
    start of the pool, over runs of any length. */
module MemheapAligned {

  import opened Arithmetic
  import opened OrderedList
  import opened MemheapModel
  import opened MemheapSafety
  import opened MemheapRealloc
  import opened MemheapRuns

  ghost predicate Aligned(h: Heap) {
    && h.align > 0 && h.hdr % h.align == 0 && h.pool % h.align == 0
    && forall a :: a in h.ring ==> a % h.align == 0
  }

  /** Then so are all sizes. */
  lemma SizesAligned(h: Heap, i: nat)
    requires Aligned(h) && i + 1 < |h.ring|
    ensures SizeAt(h, i) % h.align == 0
  {
    assert h.ring[i] in h.ring && h.ring[i + 1] in h.ring;
    ModAdd(h.ring[i + 1], h.ring[i], h.align);
    ModAdd(h.ring[i + 1] as int - h.ring[i] as int, h.hdr, h.align);
  }

  /** The header behind an aligned payload. */
  lemma NextAligned(h: Heap, a: nat, n: nat)
    requires Aligned(h) && a in h.ring && n % h.align == 0
    ensures (a + h.hdr + n) % h.align == 0 && (a + n + h.hdr) % h.align == 0 && (a + h.hdr) % h.align == 0
  {
    ModAdd(a, h.hdr, h.align);
    ModAdd(a + h.hdr, n, h.align);
  }

  /** The ring gains at most one header, an aligned one. */
  lemma RingAligned(h: Heap, r: Heap, x: nat)
    requires Aligned(h) && r.align == h.align && r.hdr == h.hdr && r.pool == h.pool
    requires x % h.align == 0 && forall a :: a in r.ring ==> a == x || a in h.ring
    ensures Aligned(r)
  {
  }

  // ---------------------------------------------------------------- one call

  lemma AllocAligned(h: Heap, n: nat)
    requires Inv(h) && Aligned(h)
    ensures Aligned(Alloc(h, n).0)
    ensures Alloc(h, n).1.Some? ==> Alloc(h, n).1.value % h.align == 0
  {
    hide Inv, Alloc, LiveBlock;
    AllocGives(h, n);
    if Alloc(h, n).1.Some? {
      var size, i := AllocIsCarve(h, n);
      RequestMeans(h, n, 0);
      CarveAligned(h, i, size);
    }
  }

  lemma CarveAligned(h: Heap, i: nat, n: nat)
    requires Aligned(h) && Carvable(h, i, n) && n % h.align == 0
    ensures Aligned(Carve(h, i, n)) && (h.ring[i] + h.hdr) % h.align == 0
  {
    hide Remove, InsertAfter, Mini;
    assert h.ring[i] in h.ring;
    var x := h.ring[i] + n + h.hdr;
    NextAligned(h, h.ring[i], n);
    InsertMembership(h.ring, i, x);
    RingAligned(h, Carve(h, i, n), x);
  }

  lemma ReleaseAligned(h: Heap, i: nat)
    requires Inv(h) && Aligned(h) && i + 1 < |h.ring|
    ensures Aligned(Release(h, i))
  {
    hide Inv, Remove;
    assert h.ring[i] in h.ring;
    RingAligned(h, Release(h, i), h.ring[i]) by {
      forall a | a in Release(h, i).ring ensures a in h.ring {
      }
    }
  }

  lemma GrowAligned(h: Heap, i: nat, n: nat)
    requires Aligned(h) && i + 2 < |h.ring| && n % h.align == 0
    ensures Aligned(Grow(h, i, n))
  {
    hide Remove;
    assert h.ring[i] in h.ring;
    NextAligned(h, h.ring[i], n);
    RingAligned(h, Grow(h, i, n), h.ring[i] + h.hdr + n);
  }

  lemma ShrinkAligned(h: Heap, i: nat, n: nat)
    requires Aligned(h) && i + 1 < |h.ring| && n % h.align == 0
    ensures Aligned(Shrink(h, i, n))
  {
    hide Remove, InsertAfter;
    assert h.ring[i] in h.ring;
    var x := h.ring[i] + n + h.hdr;
    NextAligned(h, h.ring[i], n);
    InsertMembership(h.ring, i, x);
    RingAligned(h, Shrink(h, i, n), x);
  }

  lemma MoveAligned(h: Heap, i: nat, size: nat)
    requires Inv(h) && Aligned(h) && i + 1 < |h.ring|
    ensures Aligned(Move(h, i, size).0)
    ensures Move(h, i, size).1.Some? ==> Move(h, i, size).1.value % h.align == 0
  {
    hide Inv, Alloc, Release, IndexOf, CopyBytes, Aligned;
    AllocAligned(h, size);
    AllocPool(h, size);
    var (r, q) := Alloc(h, size);
    var a, have := h.ring[i], SizeAt(h, i);
    if q.Some? && 0 <= have && q.value + have <= |r.bytes| && a + h.hdr + have <= |r.bytes|
       && a in r.ring && IndexOf<nat>(r.ring, a) + 1 < |r.ring| {
      var c := r.(bytes := CopyBytes(r.bytes, q.value, a + h.hdr, have));
      CopiedAligned(r, c);
      CopiedInv(r, q.value, a + h.hdr, have);
      ReleaseAligned(c, IndexOf<nat>(r.ring, a));
    }
  }

  lemma CopiedAligned(r: Heap, c: Heap)
    requires Aligned(r) && c == r.(bytes := c.bytes)
    ensures Aligned(c)
  {
  }

  lemma ReallocAligned(h: Heap, ptr: Option<nat>, n: nat)
    requires Inv(h) && Aligned(h) && Owned(h, ptr)
    ensures Aligned(Realloc(h, ptr, n).0)
    ensures Realloc(h, ptr, n).1.Some? ==> Realloc(h, ptr, n).1.value % h.align == 0
  {
    hide Inv, Alloc, Release, Move, Grow, Shrink, Mini, Request;
    BlockSizes(h, 0);
    RequestMeans(h, n, 0);
    if ptr == None {
      AllocAligned(h, Request(h, n));
    } else {
      OwnedIndex(h, ptr.value);
      var i, size := IndexOf<nat>(h.ring, ptr.value - h.hdr), Request(h, n);
      TailUsed(h);
      NextAligned(h, h.ring[i], 0);
      ReleaseAligned(h, i);
      MoveAligned(h, i, size);
      ShrinkAligned(h, i, size);
      if i + 2 < |h.ring| {
        GrowAligned(h, i, size);
      }
    }
  }

  // ---------------------------------------------------------------- runs

  lemma DoAligned(h: Heap, c: Call)
    requires Inv(h) && Aligned(h) && Allowed(h, c)
    ensures Aligned(Do(h, c))
  {
    hide Inv, Alloc, Release, Realloc, IndexOf;
    match c
    case Allocate(n) => AllocAligned(h, n);
    case Free(p) =>
      OwnedIndex(h, p);
      ReleaseAligned(h, IndexOf<nat>(h.ring, p - h.hdr));
    case Reallocate(ptr, n) => ReallocAligned(h, ptr, n);
    case Store(p, j, b) =>
      StoreFits(h, p, j);
  }

  /** In a pool of aligned size every header stays aligned over any run, and so every pointer that
      an allocation or reallocation returns after it. */
  lemma {:induction false} RunAligned(h: Heap, cs: seq<Call>)
    requires Inv(h) && Aligned(h) && AllowedAll(h, cs)
    ensures Inv(After(h, cs)) && Aligned(After(h, cs))
    decreases cs
  {
    hide Inv, Aligned, Allowed, Do;
    if cs != [] {
      DoKeeps(h, cs[0]);
      DoAligned(h, cs[0]);
      RunAligned(Do(h, cs[0]), cs[1..]);
    }
  }

  lemma PointersAligned(h: Heap, cs: seq<Call>, ptr: Option<nat>, n: nat)
    requires Inv(h) && Aligned(h) && AllowedAll(h, cs)
    ensures Inv(After(h, cs))
    ensures Alloc(After(h, cs), n).1.Some? ==> Alloc(After(h, cs), n).1.value % h.align == 0
    ensures Owned(After(h, cs), ptr) && Realloc(After(h, cs), ptr, n).1.Some? ==>
              Realloc(After(h, cs), ptr, n).1.value % h.align == 0
  {
    hide Inv, Aligned, Alloc, Realloc, After, Owned;
    RunAligned(h, cs);
    RunKeeps(h, cs);
    AllocAligned(After(h, cs), n);
    if Owned(After(h, cs), ptr) {
      ReallocAligned(After(h, cs), ptr, n);
    }
  }

  /** `rt_memheap_init` rounds the pool size down, so a fresh heap is aligned. */
  lemma FreshAligned(hdr: nat, align: nat, size: nat)
    requires align > 0 && hdr % align == 0 && RoundDown(size, align) >= hdr
    ensures forall bytes :: Aligned(Fresh(hdr, align, RoundDown(size, align), bytes))
  {
    ModAdd(RoundDown(size, align), hdr, align);
  }
}
