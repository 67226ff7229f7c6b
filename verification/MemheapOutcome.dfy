/** What each memheap call answers: which block an allocation takes and how much of it, what a
    release gives back, and when a reallocation succeeds, in place or not. */
module MemheapOutcome {

  import opened OrderedList
  import opened MemheapModel
  import opened MemheapSafety
  import opened MemheapRealloc

  // ---------------------------------------------------------------- allocation

  /** The first entry of the free list that is large enough, by position. */
  lemma {:induction false} FirstFitAt(h: Heap, fs: seq<nat>, n: nat) returns (j: nat)
    requires forall a :: a in fs ==> a in h.ring && IndexOf<nat>(h.ring, a) + 1 < |h.ring|
    requires FirstFit(h, fs, n).Some?
    ensures j < |fs| && fs[j] == FirstFit(h, fs, n).value && SizeOf(h, fs[j]) >= n
    ensures forall i :: 0 <= i < j ==> fs[i] in fs && SizeOf(h, fs[i]) < n
  {
    j := 0;
    assert fs[0] in fs && fs == [fs[0]] + fs[1..];
    if SizeOf(h, fs[0]) < n {
      j := FirstFitAt(h, fs[1..], n);
      forall i | 0 <= i <= j ensures fs[i] in fs && SizeOf(h, fs[i]) < n {
        assert i > 0 ==> fs[i] == fs[1..][i - 1];
      }
      assert fs[j + 1] == fs[1..][j];
      j := j + 1;
    }
  }

  /** A successful allocation takes the first block of the free list that is large enough. What it
      does not need becomes a free block at the head of the list when that block would hold the
      minimum payload; otherwise the whole block is handed out. */
  lemma AllocTakes(h: Heap, n: nat) returns (j: nat, k: nat)
    requires Inv(h) && Alloc(h, n).1.Some?
    ensures var (r, p) := Alloc(h, n); var size := Request(h, n);
            && p.value >= h.hdr && j < |h.free| && h.free[j] == p.value - h.hdr && Fits(h, h.free[j], size)
            && (forall i :: 0 <= i < j ==> !Fits(h, h.free[i], size))
            && LiveBlock(r, h.free[j], k) && size <= k < size + h.hdr + Mini(h.align)
    ensures var (r, p) := Alloc(h, n); var size, a := Request(h, n), h.free[j]; var have := SizeOf(h, a);
            if have >= size + h.hdr + Mini(h.align) then
              && k == size && r.free == [a + h.hdr + k] + Remove<nat>(h.free, a)
              && r.avail == h.avail - k - h.hdr && |r.ring| == |h.ring| + 1
            else
              && k == have && r.free == Remove<nat>(h.free, a)
              && r.avail == h.avail - k && r.ring == h.ring
  {
    hide Inv, Carve, LiveBlock, Mini, Fits, Remove;
    FreeIndices(h);
    AllocKnown(h, n);
    BlockSizes(h, 0);
    var size, i := AllocIsCarve(h, n);
    FirstFitIn(h, h.free, size);
    j := FirstFitAt(h, h.free, size);
    var a := h.free[j];
    FitsAll(h, size, j);
    InvRing(h);
    IndexIs(h.ring, i);
    k := CarveTakes(h, i, size);
  }

  lemma AllocKnown(h: Heap, n: nat)
    requires Inv(h)
    ensures h.align > 0
    ensures (forall a :: a in h.free ==> a in h.ring && IndexOf<nat>(h.ring, a) + 1 < |h.ring|)
    ensures Alloc(h, n).1.Some? ==>
              FirstFit(h, h.free, Request(h, n)).Some?
              && Alloc(h, n).1 == Some(FirstFit(h, h.free, Request(h, n)).value + h.hdr)
  {
    hide Inv, Carve, FirstFit, Request, IndexOf;
    FreeIndices(h);
    BlockSizes(h, 0);
  }

  lemma FitsAll(h: Heap, size: nat, j: nat)
    requires forall a :: a in h.free ==> a in h.ring && IndexOf<nat>(h.ring, a) + 1 < |h.ring|
    requires j < |h.free| && h.free[j] in h.free && SizeOf(h, h.free[j]) >= size
    requires forall i :: 0 <= i < j ==> h.free[i] in h.free && SizeOf(h, h.free[i]) < size
    ensures Fits(h, h.free[j], size) && forall i :: 0 <= i < j ==> !Fits(h, h.free[i], size)
  {
  }

  lemma CarveTakes(h: Heap, i: nat, n: nat) returns (k: nat)
    requires Inv(h) && Carvable(h, i, n)
    ensures var r, a, have := Carve(h, i, n), h.ring[i], SizeAt(h, i);
            && LiveBlock(r, a, k)
            && if have >= n + h.hdr + Mini(h.align) then
                 && k == n && r.free == [a + h.hdr + k] + Remove<nat>(h.free, a)
                 && r.avail == h.avail - k - h.hdr && |r.ring| == |h.ring| + 1
               else
                 && k == have && r.free == Remove<nat>(h.free, a)
                 && r.avail == h.avail - k && r.ring == h.ring
  {
    hide Inv, Remove, Mini, Adjacent;
    var a := h.ring[i];
    if SizeAt(h, i) >= n + h.hdr + Mini(h.align) {
      k := n;
      InsertedAdjacent(h.ring, i, a + n + h.hdr);
      InsertIndex(h.ring, i, a + n + h.hdr, 0);
    } else {
      k := SizeAt(h, i);
      NextIs(h.ring, i);
    }
  }

  lemma NextIs(ring: seq<nat>, i: nat)
    requires i + 1 < |ring|
    ensures Adjacent(ring, ring[i], ring[i + 1])
  {
  }

  // ---------------------------------------------------------------- release

  /** A release gives back the payload and one header for every neighbour it merges with. A block
      that merges to the right takes over the neighbour's place in the accounting but not in the
      list; one that does not merge to the left becomes the head of the free list. */
  lemma ReleaseGives(h: Heap, i: nat)
    requires Inv(h) && i + 1 < |h.ring| && h.ring[i] in h.used
    ensures var r, a := Release(h, i), h.ring[i];
            var left, right := i > 0 && h.ring[i - 1] !in h.used, h.ring[i + 1] !in h.used;
            var rest := if right then Remove<nat>(h.free, h.ring[i + 1]) else h.free;
            && r.avail == h.avail + SizeAt(h, i) + (if left then h.hdr else 0) + (if right then h.hdr else 0)
            && |r.ring| == |h.ring| - (if left then 1 else 0) - (if right then 1 else 0)
            && r.free == if left then rest else [a] + rest
  {
    RingNoDup(h);
    hide Inv, Remove;
    if i > 0 && h.ring[i - 1] !in h.used {
      DropIndex(h.ring, i, i);
    }
  }

  // ---------------------------------------------------------------- reallocation

  /** The right neighbour is free and the two have more than the minimum payload to spare. */
  ghost predicate Growable(h: Heap, a: nat, size: nat) {
    && h.align > 0 && a in h.ring
    && var i := IndexOf<nat>(h.ring, a);
       && i + 2 < |h.ring| && h.ring[i + 1] !in h.used
       && SizeAt(h, i) + SizeAt(h, i + 1) > size + Mini(h.align)
  }

  /** Some free block is large enough, and it is not about all there is. */
  ghost predicate Available(h: Heap, size: nat) {
    size < h.avail && exists a :: a in h.free && Fits(h, a, size)
  }

  /** Without a block, a reallocation is an allocation: it succeeds exactly when one of that size
      does, and hands over a block that was free. */
  lemma ReallocNone(h: Heap, n: nat)
    requires Inv(h)
    ensures h.align > 0
    ensures var (r, q) := Realloc(h, None, n); var size := Request(h, n);
            && Inv(r)
            && (n == 0 ==> q == None)
            && (n > 0 ==> (q.Some? <==> Available(h, size)))
            && (q == None ==> r == h)
            && (q.Some? ==> q.value >= h.hdr && Handed(h, r, q.value - h.hdr, size) && r.bytes == h.bytes)
            && forall b, k :: LiveBlock(h, b, k) ==> LiveBlock(r, b, k)
  {
    hide Inv, Alloc, LiveBlock, Fits, Handed, Request, Mini;
    BlockSizes(h, 0);
    var size := Request(h, n);
    RequestTwice(h, n);
    AllocFails(h, size);
    AllocGives(h, size);
  }

  /** The payload that block `b` has afterwards. */
  ghost predicate Sized(r: Heap, b: nat, least: int, most: int) {
    exists k: nat :: least <= k <= most && LiveBlock(r, b, k)
  }

  /** With a block of `k` bytes at `p`: when the answer is a block, whether it is the same one, and
      how large it is. */
  lemma ReallocSome(h: Heap, p: nat, n: nat, k: nat)
    requires Inv(h) && p >= h.hdr && LiveBlock(h, p - h.hdr, k) && Owned(h, Some(p))
    ensures h.align > 0
    ensures var (r, q) := Realloc(h, Some(p), n);
            var a, size, spare := p - h.hdr, Request(h, n), h.hdr + Mini(h.align);
            && (n == 0 ==> q == None && a !in r.used)
            && (n > 0 && size <= k <= size + spare ==> q == Some(p) && r == h)
            && (n > 0 && size + spare < k ==> q == Some(p) && Sized(r, a, size, size))
            && (n > 0 && size > k && Growable(h, a, size) ==> q == Some(p) && Sized(r, a, size, size))
            && (n > 0 && size > k && !Growable(h, a, size) ==>
                  && (q.Some? <==> Available(h, size))
                  && (q == None ==> r == h)
                  && (q.Some? ==> q != Some(p) && a !in r.used && q.value >= h.hdr
                                  && Sized(r, q.value - h.hdr, size, size + spare - 1)))
  {
    hide Inv, LiveBlock, Release, Move, Grow, Shrink, IndexOf, Owned, Alloc, Request, Mini, Fits, Sized;
    var a := p - h.hdr;
    LiveIndex(h, a, k);
    var i := IndexOf<nat>(h.ring, a);
    BlockSizes(h, i);
    TailUsed(h);
    var size := Request(h, n);
    RequestBounds(h, n);
    ReleaseKept(h, i, k);
    LiveUsed(h, a, k);
    if size > k {
      RequestTwice(h, n);
      GrowSized(h, i, size);
      MoveAnswers(h, i, size, k);
    } else if size + h.hdr + Mini(h.align) < k {
      ShrinkSized(h, i, size);
    }
  }

  /** A block resized in place ends where the free block behind it begins, and that one is the head
      of the free list. The bytes change sides; only a new block costs a header. */
  lemma ReallocRest(h: Heap, p: nat, n: nat, k: nat)
    requires Inv(h) && n > 0 && p >= h.hdr && LiveBlock(h, p - h.hdr, k) && Owned(h, Some(p)) && h.align > 0
    requires var a, size := p - h.hdr, Request(h, n);
             if size > k then Growable(h, a, size) else size + h.hdr + Mini(h.align) < k
    ensures var r, size, next := Realloc(h, Some(p), n).0, Request(h, n), p + k;
            if next in h.used then r.free == [p + size] + h.free && r.avail == h.avail + k - size - h.hdr
            else r.free == [p + size] + Remove<nat>(h.free, next) && r.avail == h.avail + k - size
  {
    hide Inv, LiveBlock, Release, Move, IndexOf, Owned, Alloc, Request, Mini, InsertAfter, Remove;
    var a := p - h.hdr;
    LiveIndex(h, a, k);
    BlockSizes(h, IndexOf<nat>(h.ring, a));
    TailUsed(h);
  }

  lemma ReleaseKept(h: Heap, i: nat, k: nat)
    requires Inv(h) && i + 1 < |h.ring| && LiveBlock(h, h.ring[i], k)
    ensures h.ring[i] !in Release(h, i).used
  {
    LiveUsed(h, h.ring[i], k);
    hide Inv, Release;
    ReleaseKeeps(h, i);
  }

  lemma GrowSized(h: Heap, i: nat, size: nat)
    requires i + 1 < |h.ring| && h.ring[i] in h.used
    ensures i + 2 < |h.ring| ==> Sized(Grow(h, i, size), h.ring[i], size, size)
  {
    hide Adjacent;
    if i + 2 < |h.ring| {
      MovedAdjacent(h.ring, i, h.ring[i] + h.hdr + size);
      assert LiveBlock(Grow(h, i, size), h.ring[i], size);
    }
  }

  lemma ShrinkSized(h: Heap, i: nat, size: nat)
    requires i + 1 < |h.ring| && h.ring[i] in h.used
    ensures Sized(Shrink(h, i, size), h.ring[i], size, size)
  {
    hide Adjacent, InsertAfter;
    var r := Shrink(h, i, size);
    MovedAdjacent(h.ring, i, h.ring[i] + h.hdr + size);
    InsertedAdjacent(h.ring, i, h.ring[i] + size + h.hdr);
    assert LiveBlock(r, h.ring[i], size);
  }

  /** A move succeeds exactly when the allocation does. */
  lemma MoveAnswers(h: Heap, i: nat, size: nat, k: nat)
    requires Inv(h) && i + 1 < |h.ring| && LiveBlock(h, h.ring[i], k) && size > k && h.align > 0
    requires Request(h, size) == size
    ensures var (r, q) := Move(h, i, size);
            && (q.Some? <==> Available(h, size))
            && (q == None ==> r == h)
            && (q.Some? ==> q != Some(h.ring[i] + h.hdr) && h.ring[i] !in r.used && q.value >= h.hdr
                            && Sized(r, q.value - h.hdr, size, size + h.hdr + Mini(h.align) - 1))
  {
    hide Inv, LiveBlock, Alloc, Release, OthersKept, Carries, IndexOf, Fits, Mini, Request, CopyBytes;
    AllocFails(h, size);
    AllocGives(h, size);
    MoveGives(h, i, size, k);
    LiveUsed(h, h.ring[i], k);
    var (r, q) := Alloc(h, size);
    if q.Some? {
      var j, got := AllocTakes(h, size);
      var b := q.value - h.hdr;
      OldBlockThere(h, i, size, k, b, got);
    }
  }

  /** The new block survives the release of the old one. */
  lemma OldBlockThere(h: Heap, i: nat, size: nat, k: nat, b: nat, got: nat)
    requires Inv(h) && i + 1 < |h.ring| && LiveBlock(h, h.ring[i], k) && size > k && h.align > 0
    requires Alloc(h, size).1 == Some(b + h.hdr) && LiveBlock(Alloc(h, size).0, b, got) && b !in h.used
    requires size <= got < size + h.hdr + Mini(h.align)
    ensures Move(h, i, size).1 == Some(b + h.hdr)
    ensures Sized(Move(h, i, size).0, b, size, size + h.hdr + Mini(h.align) - 1)
  {
    hide Inv, LiveBlock, Alloc, Release, IndexOf, Mini, CopyBytes;
    var r := Alloc(h, size).0;
    AllocGives(h, size);
    OneSize(h, h.ring[i], k, i);
    BlockInPool(r, b, got);
    BlockInPool(r, h.ring[i], k);
    LiveIndex(r, h.ring[i], k);
    LiveUsed(h, h.ring[i], k);
    var c := r.(bytes := CopyBytes(r.bytes, b + h.hdr, h.ring[i] + h.hdr, k));
    SameBlocks(r, c, b, got);
    ReleaseOthers(c, IndexOf<nat>(r.ring, h.ring[i]), b, got);
  }
}
