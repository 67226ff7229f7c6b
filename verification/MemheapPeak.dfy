/** What `max_used_size` records: over a run of any length, exactly the most bytes that were ever
    in use, the moments inside a call included. */
module MemheapPeak {

  import opened OrderedList
  import opened MemheapModel
  import opened MemheapSafety
  import opened MemheapRealloc
  import opened MemheapRuns

  /** `peak` is the maximum of `start` and of the bytes in use at the given moments. */
  ghost predicate IsMaximum(pool: nat, start: int, avails: seq<int>, peak: int) {
    && start <= peak && (forall i :: 0 <= i < |avails| ==> pool - avails[i] <= peak)
    && (peak == start || exists i :: 0 <= i < |avails| && pool - avails[i] == peak)
  }

  lemma MaximumJoins(pool: nat, a: int, xs: seq<int>, b: int, ys: seq<int>, c: int)
    requires IsMaximum(pool, a, xs, b) && IsMaximum(pool, b, ys, c)
    ensures IsMaximum(pool, a, xs + ys, c)
  {
    var all := xs + ys;
    forall i | 0 <= i < |all| ensures pool - all[i] <= c {
      assert all[i] == if i < |xs| then xs[i] else ys[i - |xs|];
    }
    if c != b {
      var i :| 0 <= i < |ys| && pool - ys[i] == c;
      assert all[|xs| + i] == ys[i];
    } else if b != a {
      var i :| 0 <= i < |xs| && pool - xs[i] == b;
      assert all[i] == xs[i];
    }
  }

  /** The reallocation must move the block, and for a while holds both. */
  ghost predicate Moves(h: Heap, ptr: Option<nat>, n: nat)
    requires Inv(h) && Owned(h, ptr)
  {
    && n > 0 && ptr.Some?
    && (OwnedIndex(h, ptr.value);
        var i, size := IndexOf<nat>(h.ring, ptr.value - h.hdr), Request(h, n);
        && size > SizeAt(h, i)
        && !(h.ring[i + 1] !in h.used && i + 2 < |h.ring| && SizeAt(h, i + 1) + SizeAt(h, i) > size + Mini(h.align)))
  }

  /** The available bytes at all moments of a call: in between, when a block moves, and after it. */
  ghost function Moments(h: Heap, c: Call): (avails: seq<int>)
    requires Inv(h) && Allowed(h, c)
  {
    match c
    case Reallocate(ptr, n) =>
      if Moves(h, ptr, n) then [Alloc(h, Request(h, n)).0.avail, Do(h, c).avail] else [Do(h, c).avail]
    case _ => [Do(h, c).avail]
  }

  // ---------------------------------------------------------------- one call

  lemma AllocPeak(h: Heap, n: nat)
    requires Inv(h)
    ensures Alloc(h, n).0.maxUsed == Peak(h, Alloc(h, n).0.avail)
  {
    hide Tiled, Coalesced, Listed, FreeBytes;
    if Alloc(h, n).1.Some? {
      var size, i := AllocIsCarve(h, n);
    }
  }

  lemma PeakCovered(h: Heap)
    requires Inv(h)
    ensures h.pool - h.avail <= h.maxUsed
  {
  }

  lemma ReleasePeak(h: Heap, i: nat)
    requires Inv(h) && i + 1 < |h.ring| && h.ring[i] in h.used
    ensures Release(h, i).maxUsed == Peak(h, Release(h, i).avail)
  {
    hide Inv, Release;
    ReleaseKeeps(h, i);
    ReleasePool(h, i);
    PeakCovered(Release(h, i));
  }

  /** A move records the moment between the allocation and the release; every other branch the
      bytes in use at its end. */
  lemma ReallocPeak(h: Heap, ptr: Option<nat>, n: nat)
    requires Inv(h) && Owned(h, ptr)
    ensures Realloc(h, ptr, n).0.maxUsed ==
            Peak(h, if Moves(h, ptr, n) then Alloc(h, Request(h, n)).0.avail else Realloc(h, ptr, n).0.avail)
  {
    hide Inv, Alloc, Release, LiveBlock, Move, Grow, Shrink, Mini, Request;
    BlockSizes(h, 0);
    PeakCovered(h);
    if ptr == None {
      AllocPeak(h, Request(h, n));
    } else {
      OwnedIndex(h, ptr.value);
      var i, size := IndexOf<nat>(h.ring, ptr.value - h.hdr), Request(h, n);
      ReleasePeak(h, i);
      MovePeak(h, i, size);
      TailUsed(h);
      GrowPeak(h, i, size);
      IsLive(h, i);
      ReallocKeeps(h, ptr.value, n, SizeAt(h, i));
      ShrinkPeak(h, i, size);
      PeakCovered(Realloc(h, ptr, n).0);
    }
  }

  lemma GrowPeak(h: Heap, i: nat, size: nat)
    requires i + 1 < |h.ring|
    ensures i + 2 < |h.ring| ==> Grow(h, i, size).maxUsed == Peak(h, Grow(h, i, size).avail)
  {
  }

  lemma ShrinkPeak(h: Heap, i: nat, size: nat)
    requires i + 1 < |h.ring|
    ensures Shrink(h, i, size).maxUsed == h.maxUsed && Shrink(h, i, size).pool == h.pool
  {
  }

  lemma MovePeak(h: Heap, i: nat, size: nat)
    requires Inv(h) && i + 1 < |h.ring|
    ensures Move(h, i, size).0.maxUsed == Peak(h, Alloc(h, size).0.avail)
  {
    hide Inv, Alloc, Release, CopyBytes, IndexOf;
    AllocPeak(h, size);
    var (r, q) := Alloc(h, size);
    var a, have := h.ring[i], SizeAt(h, i);
    if q.Some? && 0 <= have && q.value + have <= |r.bytes| && a + h.hdr + have <= |r.bytes|
       && a in r.ring && IndexOf<nat>(r.ring, a) + 1 < |r.ring| {
      ReleasePool(r.(bytes := CopyBytes(r.bytes, q.value, a + h.hdr, have)), IndexOf<nat>(r.ring, a));
    }
  }

  lemma TwoMoments(h: Heap, x: int, y: int, peak: int)
    requires peak == Peak(h, x) && h.pool - y <= peak
    ensures IsMaximum(h.pool, h.maxUsed, [x, y], peak)
  {
    assert [x, y][0] == x;
  }

  /** One call of any kind: the new maximum is the maximum of the old one and of all its moments. */
  lemma PeakIsMaximum(h: Heap, c: Call)
    requires Inv(h) && Allowed(h, c)
    ensures IsMaximum(h.pool, h.maxUsed, Moments(h, c), Do(h, c).maxUsed)
  {
    hide Inv, LiveBlock, Alloc, Release, Realloc, IndexOf, Owned, Moves, Request;
    DoKeeps(h, c);
    var r := Do(h, c);
    PeakCovered(h);
    PeakCovered(r);
    assert Moments(h, c)[|Moments(h, c)| - 1] == r.avail;
    match c
    case Allocate(n) => AllocPeak(h, n);
    case Free(p) =>
      OwnedIndex(h, p);
      ReleasePeak(h, IndexOf<nat>(h.ring, p - h.hdr));
    case Reallocate(ptr, n) =>
      BlockSizes(h, 0);
      ReallocPeak(h, ptr, n);
      if Moves(h, ptr, n) {
        TwoMoments(h, Alloc(h, Request(h, n)).0.avail, r.avail, r.maxUsed);
      }
    case Store(p, j, b) => StoreFits(h, p, j);
  }

  // ---------------------------------------------------------------- runs

  ghost function AllMoments(h: Heap, cs: seq<Call>): (avails: seq<int>)
    requires Inv(h) && AllowedAll(h, cs)
    decreases cs
  {
    if cs == [] then [] else (DoKeeps(h, cs[0]); Moments(h, cs[0]) + AllMoments(Do(h, cs[0]), cs[1..]))
  }

  /** Over a run of any length, the recorded maximum at the end is the maximum of the one at the
      start and of the bytes in use at all moments of all calls. */
  lemma {:induction false} RunPeak(h: Heap, cs: seq<Call>)
    requires Inv(h) && AllowedAll(h, cs)
    ensures IsMaximum(h.pool, h.maxUsed, AllMoments(h, cs), After(h, cs).maxUsed)
    decreases cs
  {
    hide Inv, Allowed, Do, Moments, IsMaximum;
    if cs != [] {
      DoKeeps(h, cs[0]);
      PeakIsMaximum(h, cs[0]);
      RunPeak(Do(h, cs[0]), cs[1..]);
      MaximumJoins(h.pool, h.maxUsed, Moments(h, cs[0]), Do(h, cs[0]).maxUsed,
                   AllMoments(Do(h, cs[0]), cs[1..]), After(h, cs).maxUsed);
    } else {
      NoMoments(h.pool, h.maxUsed);
    }
  }

  lemma NoMoments(pool: nat, start: int)
    ensures IsMaximum(pool, start, [], start)
  {
  }
}
