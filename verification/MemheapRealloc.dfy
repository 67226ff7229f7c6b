/** What allocation, release and reallocation promise to the owners of blocks. */
module MemheapRealloc {

  import opened Arithmetic
  import opened KernelTypes
  import opened OrderedList
  import opened MemheapModel
  import opened MemheapSafety

  // ---------------------------------------------------------------- extents

  ghost predicate Adjacent(ring: seq<nat>, a: nat, b: nat) {
    exists i :: 0 <= i < |ring| - 1 && ring[i] == a && ring[i + 1] == b
  }

  /** A block in use at header `a` with `k` payload bytes. */
  ghost predicate LiveBlock(h: Heap, a: nat, k: nat) {
    a in h.used && Adjacent(h.ring, a, a + h.hdr + k)
  }

  lemma InsertAdjacent(ring: seq<nat>, i: nat, x: nat, a: nat, b: nat)
    requires i < |ring| && Adjacent(ring, a, b) && a != ring[i]
    ensures Adjacent(InsertAfter<nat>(ring, i, x), a, b)
  {
    var j :| 0 <= j < |ring| - 1 && ring[j] == a && ring[j + 1] == b;
    var k := if j < i then j else j + 1;
    InsertIndex(ring, i, x, k);
    InsertIndex(ring, i, x, k + 1);
  }

  lemma DropAdjacent(ring: seq<nat>, i: nat, a: nat, b: nat)
    requires i < |ring| && Adjacent(ring, a, b) && a != ring[i] && (i > 0 ==> a != ring[i - 1])
    ensures Adjacent(Drop<nat>(ring, i), a, b)
  {
    var j :| 0 <= j < |ring| - 1 && ring[j] == a && ring[j + 1] == b;
    var k := if j < i then j else j - 1;
    DropIndex(ring, i, k);
    DropIndex(ring, i, k + 1);
  }

  lemma MoveAdjacent(ring: seq<nat>, i: nat, x: nat, a: nat, b: nat)
    requires 0 < i < |ring| && Adjacent(ring, a, b) && a != ring[i] && a != ring[i - 1]
    ensures Adjacent(ring[i := x], a, b)
  {
    var j :| 0 <= j < |ring| - 1 && ring[j] == a && ring[j + 1] == b;
    assert ring[i := x][j] == a && ring[i := x][j + 1] == b;
  }

  /** Live blocks neither overlap each other nor any header. */
  lemma BlocksApart(h: Heap, a: nat, k: nat, b: nat)
    requires Inv(h) && LiveBlock(h, a, k) && b in h.ring
    ensures a + h.hdr + k <= b || b + h.hdr <= a + h.hdr
    ensures a + h.hdr + k <= h.pool - h.hdr
  {
    hide Coalesced, Listed, Accounted, Mini;
    var i :| 0 <= i < |h.ring| - 1 && h.ring[i] == a && h.ring[i + 1] == a + h.hdr + k;
    var j :| 0 <= j < |h.ring| && h.ring[j] == b;
    OrderedHeaders(h, i + 1, j);
    OrderedHeaders(h, j, i);
    OrderedHeaders(h, i + 1, |h.ring| - 1);
  }

  lemma OrderedHeaders(h: Heap, i: nat, j: nat)
    requires Tiled(h) && i < |h.ring| && j < |h.ring|
    ensures i <= j ==> h.ring[i] <= h.ring[j]
    ensures i < j ==> h.ring[i] + h.hdr <= h.ring[j]
  {
    if i < j {
      Ascending(h, i, j);
    }
  }

  // ---------------------------------------------------------------- allocation

  /** The request behind a successful or failed call. */
  lemma RequestBounds(h: Heap, n: nat)
    requires h.align > 0
    ensures Request(h, n) >= n && Request(h, n) >= Mini(h.align) && Request(h, n) > 0
  {
  }

  /** What a request of `n` bytes really asks for: the least multiple of the alignment that holds
      them, and 12 bytes at least. */
  lemma RequestMeans(h: Heap, n: nat, m: nat)
    requires h.align > 0
    ensures Request(h, n) % h.align == 0 && Request(h, n) >= n && Request(h, n) >= 12
    ensures m % h.align == 0 && m >= n && m >= 12 ==> Request(h, n) <= m
  {
    if m % h.align == 0 && m >= n && m >= 12 && m < Request(h, n) {
      ModClose(m, Request(h, n), h.align);
    }
  }

  /** Asking for what is really asked for asks for the same. */
  lemma RequestTwice(h: Heap, n: nat)
    requires h.align > 0
    ensures Request(h, Request(h, n)) == Request(h, n)
  {
    RoundsToSelf(Request(h, n), h.align);
  }

  lemma FitIsCarvable(h: Heap, a: nat, n: nat)
    requires Inv(h) && Fits(h, a, n) && n >= Mini(h.align)
    ensures Carvable(h, IndexOf<nat>(h.ring, a), n)
  {
  }

  /** Block `a`, free in `h`, is live in `r` with room for `n` bytes; no other block changed hands. */
  ghost predicate Handed(h: Heap, r: Heap, a: nat, n: nat) {
    && a in h.ring && a !in h.used && r.used == h.used + {a}
    && exists k :: k >= n && LiveBlock(r, a, k)
  }

  /** A successful allocation gives a block that was free, has room for the request, and leaves
      every live block where and as large as it was; a failed one changes nothing. */
  lemma AllocGives(h: Heap, n: nat)
    requires Inv(h)
    ensures var (r, p) := Alloc(h, n);
            && Inv(r) && r.hdr == h.hdr && r.bytes == h.bytes && r.pool == h.pool && r.align == h.align
            && (p == None ==> r == h)
            && (p.Some? ==> p.value >= h.hdr && Handed(h, r, p.value - h.hdr, n))
    ensures forall b, k :: LiveBlock(h, b, k) ==> LiveBlock(Alloc(h, n).0, b, k)
  {
    hide Inv, Carve, LiveBlock, Mini, FirstFit, IndexOf;
    var r := Alloc(h, n).0;
    if Alloc(h, n).1.Some? {
      var size, i := AllocIsCarve(h, n);
      RequestBounds(h, n);
      CarveKeeps(h, i, size);
      CarveFields(h, i, size);
      CarveGives(h, i, size);
      forall b, k | LiveBlock(h, b, k) ensures LiveBlock(r, b, k) {
        CarveOthers(h, i, size, b, k);
      }
    }
  }

  lemma CarveFields(h: Heap, i: nat, n: nat)
    requires Carvable(h, i, n)
    ensures var r := Carve(h, i, n);
            && r.hdr == h.hdr && r.bytes == h.bytes && r.pool == h.pool && r.align == h.align
            && r.used == h.used + {h.ring[i]} && h.ring[i] in h.ring && h.ring[i] !in h.used
  {
  }

  lemma CarveGives(h: Heap, i: nat, n: nat)
    requires Carvable(h, i, n)
    ensures var r := Carve(h, i, n);
            exists k :: n <= k < n + h.hdr + Mini(h.align) && LiveBlock(r, h.ring[i], k)
  {
    var r := Carve(h, i, n);
    if SizeAt(h, i) >= n + h.hdr + Mini(h.align) {
      InsertIndex(h.ring, i, h.ring[i] + n + h.hdr, i);
      InsertIndex(h.ring, i, h.ring[i] + n + h.hdr, i + 1);
      assert Adjacent(r.ring, h.ring[i], h.ring[i] + h.hdr + n);
      assert LiveBlock(r, h.ring[i], n);
    } else {
      assert Adjacent(r.ring, h.ring[i], h.ring[i] + h.hdr + SizeAt(h, i));
      assert LiveBlock(r, h.ring[i], SizeAt(h, i));
    }
  }

  lemma CarveOthers(h: Heap, i: nat, n: nat, b: nat, k: nat)
    requires Carvable(h, i, n) && LiveBlock(h, b, k)
    ensures LiveBlock(Carve(h, i, n), b, k)
  {
    if SizeAt(h, i) >= n + h.hdr + Mini(h.align) {
      InsertAdjacent(h.ring, i, h.ring[i] + n + h.hdr, b, b + h.hdr + k);
    }
  }

  /** First fit is complete: it fails exactly when no free block is large enough, or when the
      request asks for all available bytes. */
  lemma AllocFails(h: Heap, n: nat)
    requires Inv(h)
    ensures Alloc(h, n).1 == None <==> Request(h, n) >= h.avail || forall a :: a in h.free ==> !Fits(h, a, Request(h, n))
  {
    FreeIndices(h);
    FirstFitIn(h, h.free, Request(h, n));
  }

  lemma {:induction false} SumAtLeast(h: Heap, ring: seq<nat>, i: nat)
    requires i + 1 < |ring| && ring[i] !in h.used
    requires forall j :: 0 <= j < |ring| - 1 ==> ring[j] + h.hdr <= ring[j + 1]
    ensures FreeBytes(h.hdr, ring, h.used) >= ring[i + 1] - ring[i] - h.hdr
  {
    if i > 0 {
      SumAtLeast(h, ring[1..], i - 1);
    } else {
      SumNonNegative(h, ring[1..]);
    }
  }

  lemma {:induction false} SumNonNegative(h: Heap, ring: seq<nat>)
    requires forall j :: 0 <= j < |ring| - 1 ==> ring[j] + h.hdr <= ring[j + 1]
    ensures FreeBytes(h.hdr, ring, h.used) >= 0
  {
    if |ring| >= 2 {
      SumNonNegative(h, ring[1..]);
    }
  }

  /** The one case in which a large enough block is refused: when it would use up every available
      byte, because the request is compared strictly. */
  lemma AllocRefusesLast(h: Heap, n: nat, a: nat)
    requires Inv(h) && Fits(h, a, Request(h, n))
    ensures Request(h, n) <= h.avail
    ensures Alloc(h, n).1 == None <==> Request(h, n) == h.avail
  {
    RingNoDup(h);
    SumAtLeast(h, h.ring, IndexOf<nat>(h.ring, a));
    AllocFails(h, n);
  }

  lemma FreshInv(hdr: nat, align: nat, pool: nat, bytes: seq<Byte>)
    requires align > 0 && hdr > 0 && pool >= 2 * hdr + Mini(align) && |bytes| == pool
    ensures var h := Fresh(hdr, align, pool, bytes); Inv(h) && h.maxUsed == h.pool - h.avail
  {
    var h := Fresh(hdr, align, pool, bytes);
    assert FreeBytes(hdr, h.ring, h.used) == pool - 2 * hdr by {
      assert h.ring[1..] == [pool - hdr];
    }
  }

  /** The refusal is met at once: a fresh heap whose one free block has an aligned size does not
      give out that block, although it fits. */
  lemma FreshRefusesAll(hdr: nat, align: nat, pool: nat, bytes: seq<Byte>)
    requires align > 0 && hdr > 0 && pool >= 2 * hdr + Mini(align) && |bytes| == pool && (pool - 2 * hdr) % align == 0
    ensures var h := Fresh(hdr, align, pool, bytes);
            Inv(h) && Fits(h, 0, pool - 2 * hdr) && Alloc(h, pool - 2 * hdr) == (h, None)
  {
    var h, n := Fresh(hdr, align, pool, bytes), pool - 2 * hdr;
    FreshInv(hdr, align, pool, bytes);
    RoundsToSelf(n, align);
    assert Request(h, n) == n && IndexOf<nat>(h.ring, 0) == 0;
    AllocRefusesLast(h, n, 0);
  }

  /** An aligned size is not rounded up. */
  lemma RoundsToSelf(n: nat, align: nat)
    requires align > 0 && n % align == 0
    ensures RoundUp(n, align) == n
  {
    ModClose(RoundUp(n, align), n, align);
  }

  // ---------------------------------------------------------------- release

  lemma ReleaseOthers(h: Heap, i: nat, b: nat, k: nat)
    requires i + 1 < |h.ring| && LiveBlock(h, b, k) && b != h.ring[i]
    ensures LiveBlock(Release(h, i), b, k)
  {
    hide Adjacent, Drop, MergeRight, Remove;
    var h1 := MarkFree(h, i);
    if i > 0 && h.ring[i - 1] !in h.used {
      DropAdjacent(h.ring, i, b, b + h.hdr + k);
      DropIndex(h.ring, i, i - 1);
      MergeRightOthers(Merge(h1, i), i - 1, b, k);
    } else {
      MergeRightOthers(h1, i, b, k);
    }
  }

  lemma MergeRightOthers(h: Heap, j: nat, b: nat, k: nat)
    requires j + 1 < |h.ring| && h.ring[j] !in h.used && LiveBlock(h, b, k)
    ensures LiveBlock(MergeRight(h, j), b, k)
  {
    if h.ring[j + 1] !in h.used {
      DropAdjacent(h.ring, j + 1, b, b + h.hdr + k);
    }
  }

  /** Allocating and releasing restores the blocks, their status and the accounting: coalescing
      leaves no trace of the split. */
  lemma AllocReleaseRoundTrip(h: Heap, n: nat) returns (i: nat)
    requires Inv(h) && Alloc(h, n).1.Some?
    ensures var (r, p) := Alloc(h, n);
            && i + 1 < |r.ring| && r.ring[i] + h.hdr == p.value
            && var s := Release(r, i);
               Inv(s) && s.ring == h.ring && s.used == h.used && s.avail == h.avail
  {
    hide Inv, Carve, Release, Alloc, Mini, IndexOf;
    var size;
    size, i := AllocIsCarve(h, n);
    CarveRelease(h, i, size);
    CarveShape(h, i, size);
  }

  lemma AllocIsCarve(h: Heap, n: nat) returns (size: nat, i: nat)
    requires Inv(h) && Alloc(h, n).1.Some?
    ensures Carvable(h, i, size) && size == Request(h, n)
    ensures Alloc(h, n) == (Carve(h, i, size), Some(h.ring[i] + h.hdr))
  {
    size := Request(h, n);
    FreeIndices(h);
    FirstFitIn(h, h.free, size);
    var a := FirstFit(h, h.free, size).value;
    i := FitFound(h, n, a);
  }

  lemma FitFound(h: Heap, n: nat, a: nat) returns (i: nat)
    requires Inv(h) && h.align > 0 && Fits(h, a, Request(h, n))
    ensures Carvable(h, i, Request(h, n)) && i == IndexOf<nat>(h.ring, a) && h.ring[i] == a
  {
    hide Inv;
    RequestBounds(h, n);
    FitIsCarvable(h, a, Request(h, n));
    i := IndexOf<nat>(h.ring, a);
  }

  lemma CarveRelease(h: Heap, i: nat, n: nat)
    requires Inv(h) && Carvable(h, i, n)
    ensures var r := Carve(h, i, n);
            && h.ring[i] in r.ring && IndexOf<nat>(r.ring, h.ring[i]) == i && i + 1 < |r.ring|
            && var s := Release(r, i);
               Inv(s) && s.ring == h.ring && s.used == h.used && s.avail == h.avail
  {
    hide Carve, Release, Inv, Mini;
    CarveKeeps(h, i, n);
    CarveShape(h, i, n);
    var r := Carve(h, i, n);
    InvRing(r);
    IndexIs(r.ring, i);
    ReleaseKeeps(r, i);
    CarveReleaseCases(h, i, n);
  }

  lemma InvRing(h: Heap)
    requires Inv(h)
    ensures NoDup(h.ring)
  {
    RingNoDup(h);
  }

  lemma CarveShape(h: Heap, i: nat, n: nat)
    requires Carvable(h, i, n)
    ensures i + 1 < |h.ring|
    ensures var r := Carve(h, i, n); i + 1 < |r.ring| && r.ring[i] == h.ring[i] && h.ring[i] in r.used
  {
    InsertIndex(h.ring, i, h.ring[i] + n + h.hdr, i);
  }

  /** Of two neighbours one is used. */
  lemma FreeBetween(h: Heap, i: nat)
    requires Inv(h) && i + 1 < |h.ring|
    ensures h.ring[i] in h.used || h.ring[i + 1] in h.used
  {
  }

  lemma CarveReleaseCases(h: Heap, i: nat, n: nat)
    requires Inv(h) && Carvable(h, i, n) && i + 1 < |Carve(h, i, n).ring|
    ensures var s := Release(Carve(h, i, n), i); s.ring == h.ring && s.used == h.used && s.avail == h.avail
  {
    hide Release, Listed, Accounted, Tiled, Carve;
    if i > 0 {
      FreeBetween(h, i - 1);
    }
    FreeBetween(h, i);
    if SizeAt(h, i) >= n + h.hdr + Mini(h.align) {
      CarveReleaseSplit(h, i, n);
    } else {
      CarveReleaseWhole(h, i, n);
    }
  }

  lemma CarveReleaseWhole(h: Heap, i: nat, n: nat)
    requires Carvable(h, i, n) && SizeAt(h, i) < n + h.hdr + Mini(h.align)
    requires (i > 0 ==> h.ring[i - 1] in h.used) && h.ring[i + 1] in h.used && h.ring[i] != h.ring[i + 1]
    ensures var s := Release(Carve(h, i, n), i); s.ring == h.ring && s.used == h.used && s.avail == h.avail
  {
    hide Remove, Drop;
  }

  lemma CarveReleaseSplit(h: Heap, i: nat, n: nat)
    requires Inv(h) && Carvable(h, i, n) && SizeAt(h, i) >= n + h.hdr + Mini(h.align)
    requires i > 0 ==> h.ring[i - 1] in h.used
    ensures i + 1 < |Carve(h, i, n).ring|
    ensures var s := Release(Carve(h, i, n), i); s.ring == h.ring && s.used == h.used && s.avail == h.avail
  {
    hide Remove, Drop, InsertAfter, Listed, Accounted;
    var r, a := Carve(h, i, n), h.ring[i];
    var x := a + n + h.hdr;
    Inside(h, i, x);
    InsertIndex(h.ring, i, x, i);
    InsertIndex(h.ring, i, x, i + 1);
    if i > 0 {
      InsertIndex(h.ring, i, x, i - 1);
    }
    DropInserted(h.ring, i, x);
  }

  lemma DropInserted(ring: seq<nat>, i: nat, x: nat)
    requires i < |ring|
    ensures i + 1 < |InsertAfter<nat>(ring, i, x)| && Drop<nat>(InsertAfter<nat>(ring, i, x), i + 1) == ring
  {
  }

  // ---------------------------------------------------------------- moving a boundary

  /** Block `i` is used, its right neighbour free, and `n` leaves both at least the minimum. */
  ghost predicate Movable(h: Heap, i: nat, n: nat) {
    && i + 2 < |h.ring| && h.ring[i] in h.used && h.ring[i + 1] !in h.used
    && h.align > 0 && Mini(h.align) <= n && SizeAt(h, i) + SizeAt(h, i + 1) >= n + Mini(h.align)
  }

  lemma MoveTiled(h: Heap, i: nat, n: nat)
    requires Tiled(h) && Movable(h, i, n)
    ensures Tiled(MoveBoundary(h, i, n))
  {
  }

  lemma MoveMembership(h: Heap, i: nat, n: nat)
    requires Tiled(h) && Movable(h, i, n)
    ensures var x, r := h.ring[i] + h.hdr + n, MoveBoundary(h, i, n);
            && (x == h.ring[i + 1] || x !in h.ring)
            && (forall a :: a in r.ring ==> a == x || a in h.ring)
            && (forall a :: a in h.ring && a != h.ring[i + 1] ==> a in r.ring) && x in r.ring
            && (h.ring[i + 1] in r.ring ==> h.ring[i + 1] == x)
  {
    var x, r := h.ring[i] + h.hdr + n, MoveBoundary(h, i, n);
    RingNoDup(h);
    if x < h.ring[i + 1] {
      Inside(h, i, x);
    } else if x > h.ring[i + 1] {
      Inside(h, i + 1, x);
    }
    forall a | a in h.ring && a != h.ring[i + 1] ensures a in r.ring {
      var j :| 0 <= j < |h.ring| && h.ring[j] == a;
      assert r.ring[j] == a;
    }
    assert r.ring[i + 1] == x;
    forall j | 0 <= j < |r.ring| && j != i + 1 ensures r.ring[j] != h.ring[i + 1] {
      assert r.ring[j] == h.ring[j];
    }
  }

  lemma MoveCoalesced(h: Heap, i: nat, n: nat)
    requires Tiled(h) && Coalesced(h) && Movable(h, i, n)
    ensures Coalesced(MoveBoundary(h, i, n))
  {
    hide Tiled, Remove;
    var r := MoveBoundary(h, i, n);
    MoveMembership(h, i, n);
    assert h.ring[i + 1] in h.used || h.ring[i + 1 + 1] in h.used;
    forall j | 0 <= j < |r.ring| - 1 ensures r.ring[j] in r.used || r.ring[j + 1] in r.used {
      assert h.ring[j] in h.used || h.ring[j + 1] in h.used;
    }
  }

  lemma MoveListed(h: Heap, i: nat, n: nat)
    requires Tiled(h) && Coalesced(h) && Listed(h) && Movable(h, i, n)
    ensures Listed(MoveBoundary(h, i, n))
  {
    hide Tiled;
    MoveMembership(h, i, n);
    RemoveMembers(h.free, h.ring[i + 1]);
  }

  lemma MoveSum(h: Heap, i: nat, n: nat)
    requires Tiled(h) && Coalesced(h) && Accounted(h) && Movable(h, i, n)
    ensures var r := MoveBoundary(h, i, n); r.avail == FreeBytes(r.hdr, r.ring, r.used)
  {
    hide FreeBytes, Mini, Remove, Tiled;
    MoveMembership(h, i, n);
    SumMove(h.hdr, h.ring, h.used, i, h.ring[i] + h.hdr + n);
  }

  /** Moving the boundary behind block `i` to `x`. */
  lemma SumMove(hdr: nat, ring: seq<nat>, used: set<nat>, i: nat, x: nat)
    requires i + 2 < |ring|
    ensures FreeBytes(hdr, ring[i + 1 := x], used) ==
            FreeBytes(hdr, ring, used) - Gap(hdr, ring[i], ring[i + 1], used) - Gap(hdr, ring[i + 1], ring[i + 2], used)
            + Gap(hdr, ring[i], x, used) + Gap(hdr, x, ring[i + 2], used)
  {
    hide FreeBytes;
    var r := ring[i + 1 := x];
    SumAround(hdr, ring, used, i);
    SumAround(hdr, r, used, i);
    assert r[..i + 1] == ring[..i + 1];
    SumTail(hdr, ring, used, i + 1);
    SumTail(hdr, r, used, i + 1);
    assert r[i + 2..] == ring[i + 2..];
  }

  lemma SumTail(hdr: nat, ring: seq<nat>, used: set<nat>, j: nat)
    requires j + 1 < |ring|
    ensures FreeBytes(hdr, ring[j..], used) == Gap(hdr, ring[j], ring[j + 1], used) + FreeBytes(hdr, ring[j + 1..], used)
  {
    assert ring[j..][0] == ring[j] && ring[j..][1] == ring[j + 1] && ring[j..][1..] == ring[j + 1..];
  }

  lemma GrowKeeps(h: Heap, i: nat, n: nat)
    requires Inv(h) && Movable(h, i, n)
    ensures Inv(Grow(h, i, n))
  {
    hide Coalesced, Listed, FreeBytes, Remove;
    var r := MoveBoundary(h, i, n);
    MoveTiled(h, i, n);
    TiledSame(r, Grow(h, i, n));
    MoveCoalesced(h, i, n);
    MoveListed(h, i, n);
    MoveSum(h, i, n);
    SameButPeak(r, Grow(h, i, n));
  }

  lemma SameButPeak(h: Heap, r: Heap)
    requires r == h.(maxUsed := r.maxUsed)
    ensures |h.ring| >= 2 && Coalesced(h) ==> Coalesced(r)
    ensures Listed(h) ==> Listed(r)
  {
  }

  lemma ShrinkKeeps(h: Heap, i: nat, n: nat)
    requires Inv(h) && i + 1 < |h.ring| && h.ring[i] in h.used && Mini(h.align) <= n
    requires n + h.hdr + Mini(h.align) < SizeAt(h, i)
    ensures Inv(Shrink(h, i, n))
  {
    hide Coalesced, Listed, FreeBytes, Remove;
    TailUsed(h);
    if h.ring[i + 1] !in h.used {
      MoveTiled(h, i, n);
      MoveCoalesced(h, i, n);
      MoveListed(h, i, n);
      MoveSum(h, i, n);
    } else {
      SplitKeeps(h, i, n);
    }
  }

  lemma TailUsed(h: Heap)
    requires Inv(h)
    ensures |h.ring| >= 2 && h.ring[|h.ring| - 1] in h.used
  {
  }

  /** Block `i` is used, as is its right neighbour, and its end is worth a block of its own. */
  ghost predicate Splittable(h: Heap, i: nat, n: nat) {
    && i + 1 < |h.ring| && h.ring[i] in h.used && h.ring[i + 1] in h.used
    && h.align > 0 && Mini(h.align) <= n && n + h.hdr + Mini(h.align) < SizeAt(h, i)
  }

  lemma SplitKeeps(h: Heap, i: nat, n: nat)
    requires Inv(h) && Splittable(h, i, n)
    ensures Inv(Split(h, i, n))
  {
    hide Tiled, Coalesced, Listed, FreeBytes, InsertAfter, Mini;
    SplitTiled(h, i, n);
    SplitPairs(h, i, n);
    SplitListed(h, i, n);
    SplitSum(h, i, n);
  }

  lemma SplitSum(h: Heap, i: nat, n: nat)
    requires Tiled(h) && Coalesced(h) && Accounted(h) && Splittable(h, i, n)
    ensures var r := Split(h, i, n); r.avail == FreeBytes(r.hdr, r.ring, r.used) && r.avail >= h.avail
  {
    hide FreeBytes, Mini, InsertAfter;
    var x := h.ring[i] + n + h.hdr;
    Inside(h, i, x);
    SumInsert(h.hdr, h.ring, h.used, i, x);
  }

  lemma SplitListed(h: Heap, i: nat, n: nat)
    requires Tiled(h) && Coalesced(h) && Listed(h) && Splittable(h, i, n)
    ensures Listed(Split(h, i, n))
  {
    hide InsertAfter, Mini;
    var x := h.ring[i] + n + h.hdr;
    Inside(h, i, x);
    InsertMembership(h.ring, i, x);
  }

  lemma SplitPairs(h: Heap, i: nat, n: nat)
    requires Tiled(h) && Coalesced(h) && Splittable(h, i, n)
    ensures |Split(h, i, n).ring| >= 2 && Coalesced(Split(h, i, n))
  {
    hide InsertAfter, Tiled, Mini;
    var r, x := Split(h, i, n), h.ring[i] + n + h.hdr;
    InsertMembership(h.ring, i, x);
    InsertIndex(h.ring, i, x, |h.ring|);
    forall j | 0 <= j < |r.ring| - 1 ensures r.ring[j] in r.used || r.ring[j + 1] in r.used {
      InsertIndex(h.ring, i, x, j);
      InsertIndex(h.ring, i, x, j + 1);
      if j < i {
        assert h.ring[j] in h.used || h.ring[j + 1] in h.used;
      } else if j > i + 1 {
        assert h.ring[j - 1] in h.used || h.ring[j - 1 + 1] in h.used;
      }
    }
  }

  lemma SplitTiled(h: Heap, i: nat, n: nat)
    requires Tiled(h) && Splittable(h, i, n)
    ensures Tiled(Split(h, i, n))
  {
    hide InsertAfter, Mini;
    var r, x := Split(h, i, n), h.ring[i] + n + h.hdr;
    InsertIndex(h.ring, i, x, 0);
    InsertIndex(h.ring, i, x, |h.ring|);
    forall j | 0 <= j < |r.ring| - 1 ensures r.ring[j] + r.hdr + Mini(r.align) <= r.ring[j + 1] {
      InsertIndex(h.ring, i, x, j);
      InsertIndex(h.ring, i, x, j + 1);
    }
  }

  // ---------------------------------------------------------------- what reallocation keeps

  ghost predicate SameBytes(h: Heap, r: Heap, from: nat, to: nat, m: nat) {
    from + m <= |h.bytes| && to + m <= |r.bytes| && r.bytes[to..to + m] == h.bytes[from..from + m]
  }

  /** Every live block but the one at `a` keeps its place, size and bytes. */
  ghost predicate OthersKept(h: Heap, r: Heap, a: nat) {
    forall b: nat, m: nat :: b != a && LiveBlock(h, b, m) ==> LiveBlock(r, b, m) && SameBytes(h, r, b + h.hdr, b + h.hdr, m)
  }

  function Lesser(m: nat, k: nat): (r: nat) {
    if m < k then m else k
  }

  /** Block `b` of `r` has room for `n` bytes and starts with what block `a` of `h` held, as far
      as both reach. */
  ghost predicate Carries(h: Heap, r: Heap, a: nat, k: nat, b: nat, n: nat) {
    exists m: nat :: m >= n && LiveBlock(r, b, m) && SameBytes(h, r, a + h.hdr, b + h.hdr, Lesser(m, k))
  }

  lemma BlockInPool(h: Heap, a: nat, k: nat)
    requires Inv(h) && LiveBlock(h, a, k)
    ensures a + h.hdr + k <= |h.bytes|
  {
    hide Inv;
    var i :| 0 <= i < |h.ring| - 1 && h.ring[i] == a && h.ring[i + 1] == a + h.hdr + k;
    PoolEnd(h, i + 1);
  }

  lemma PoolEnd(h: Heap, i: nat)
    requires Inv(h) && i < |h.ring|
    ensures h.ring[i] <= |h.bytes|
  {
    OrderedHeaders(h, i, |h.ring| - 1);
  }

  lemma MoveBoundaryGives(h: Heap, i: nat, n: nat, r: Heap)
    requires Inv(h) && Movable(h, i, n)
    requires r.ring == MoveBoundary(h, i, n).ring && r.used == h.used && r.bytes == h.bytes && r.hdr == h.hdr && Inv(r)
    ensures OthersKept(h, r, h.ring[i])
    ensures forall k: nat :: LiveBlock(h, h.ring[i], k) ==> Carries(h, r, h.ring[i], k, h.ring[i], n)
  {
    hide Inv, Adjacent;
    var a := h.ring[i];
    forall b: nat, m: nat | b != a && LiveBlock(h, b, m) ensures LiveBlock(r, b, m) && SameBytes(h, r, b + h.hdr, b + h.hdr, m) {
      MoveAdjacent(h.ring, i + 1, a + h.hdr + n, b, b + h.hdr + m);
      BlockInPool(h, b, m);
    }
    MovedAdjacent(h.ring, i, a + h.hdr + n);
    assert LiveBlock(r, a, n);
    BlockInPool(r, a, n);
  }

  lemma MovedAdjacent(ring: seq<nat>, i: nat, x: nat)
    requires i + 1 < |ring|
    ensures Adjacent(ring[i + 1 := x], ring[i], x)
  {
    assert ring[i + 1 := x][i] == ring[i] && ring[i + 1 := x][i + 1] == x;
  }

  lemma SplitGives(h: Heap, i: nat, n: nat)
    requires Inv(h) && Splittable(h, i, n) && Inv(Split(h, i, n))
    ensures OthersKept(h, Split(h, i, n), h.ring[i])
    ensures forall k: nat :: LiveBlock(h, h.ring[i], k) ==> Carries(h, Split(h, i, n), h.ring[i], k, h.ring[i], n)
  {
    hide Inv, Adjacent, InsertAfter;
    var r, a := Split(h, i, n), h.ring[i];
    forall b: nat, m: nat | b != a && LiveBlock(h, b, m) ensures LiveBlock(r, b, m) && SameBytes(h, r, b + h.hdr, b + h.hdr, m) {
      InsertAdjacent(h.ring, i, a + n + h.hdr, b, b + h.hdr + m);
      BlockInPool(h, b, m);
    }
    InsertedAdjacent(h.ring, i, a + h.hdr + n);
    assert LiveBlock(r, a, n);
    BlockInPool(r, a, n);
    forall k: nat | LiveBlock(h, h.ring[i], k) ensures Carries(h, Split(h, i, n), h.ring[i], k, h.ring[i], n) {
      assert LiveBlock(r, a, n) && SameBytes(h, r, a + h.hdr, a + h.hdr, Lesser(n, k));
    }
  }

  lemma InsertedAdjacent(ring: seq<nat>, i: nat, x: nat)
    requires i < |ring|
    ensures Adjacent(InsertAfter<nat>(ring, i, x), ring[i], x)
  {
    InsertIndex(ring, i, x, i);
    var r := InsertAfter<nat>(ring, i, x);
    assert r[i] == ring[i] && r[i + 1] == x;
  }

  // ---------------------------------------------------------------- moving a block

  /** The state after the copy, before the old block is released. */
  ghost function Copied(r: Heap, to: nat, from: nat, n: nat): (z: Heap)
    requires to + n <= |r.bytes| && from + n <= |r.bytes|
  {
    r.(bytes := CopyBytes(r.bytes, to, from, n))
  }

  lemma CopiedInv(r: Heap, to: nat, from: nat, n: nat)
    requires Inv(r) && to + n <= |r.bytes| && from + n <= |r.bytes|
    ensures Inv(Copied(r, to, from, n))
  {
  }

  /** An owned pointer leads to a block with an index. */
  lemma OwnedIndex(h: Heap, p: nat)
    requires Inv(h) && Owned(h, Some(p))
    ensures p >= h.hdr && p - h.hdr in h.ring && p - h.hdr in h.used
    ensures var i := IndexOf<nat>(h.ring, p - h.hdr); i + 1 < |h.ring| && h.ring[i] == p - h.hdr
  {
    RingNoDup(h);
  }

  lemma IsLive(h: Heap, i: nat)
    requires Inv(h) && i + 1 < |h.ring| && h.ring[i] in h.used
    ensures SizeAt(h, i) >= 0 && LiveBlock(h, h.ring[i], SizeAt(h, i))
  {
    assert h.ring[i + 1] == h.ring[i] + h.hdr + SizeAt(h, i);
  }

  /** Distinct live blocks do not overlap. */
  lemma LiveApart(h: Heap, a: nat, k: nat, b: nat, m: nat)
    requires Inv(h) && LiveBlock(h, a, k) && LiveBlock(h, b, m) && a != b
    ensures a + h.hdr + k <= b || b + h.hdr + m <= a
  {
    LiveInRing(h, a, k);
    LiveInRing(h, b, m);
    hide Inv, LiveBlock;
    BlocksApart(h, a, k, b);
    BlocksApart(h, b, m, a);
  }

  lemma LiveInRing(h: Heap, a: nat, k: nat)
    requires LiveBlock(h, a, k)
    ensures a in h.ring && a + h.hdr + k in h.ring && a in h.used
  {
  }

  /** A block has one size. */
  lemma OneSize(h: Heap, a: nat, k: nat, i: nat)
    requires Inv(h) && LiveBlock(h, a, k) && i + 1 < |h.ring| && h.ring[i] == a
    ensures SizeAt(h, i) == k
  {
    RingNoDup(h);
  }

  /** A live block is not the tail, so it has an index and a size. */
  lemma LiveIndex(h: Heap, a: nat, k: nat)
    requires Inv(h) && LiveBlock(h, a, k)
    ensures a in h.ring && IndexOf<nat>(h.ring, a) + 1 < |h.ring| && h.ring[IndexOf<nat>(h.ring, a)] == a
    ensures SizeAt(h, IndexOf<nat>(h.ring, a)) == k
  {
    RingNoDup(h);
    var i :| 0 <= i < |h.ring| - 1 && h.ring[i] == a && h.ring[i + 1] == a + h.hdr + k;
    IndexIs(h.ring, i);
  }

  /** Moving a block: the bytes arrive in the new block and nobody else notices. */
  lemma MoveGives(h: Heap, i: nat, size: nat, k: nat)
    requires Inv(h) && i + 1 < |h.ring| && LiveBlock(h, h.ring[i], k) && size > k
    ensures var (r, q) := Move(h, i, size);
            && Inv(r) && (q == None ==> r == h)
            && (q.Some? ==> q.value >= h.hdr && OthersKept(h, r, h.ring[i])
                            && Carries(h, r, h.ring[i], k, q.value - h.hdr, size) && h.ring[i] !in r.used)
  {
    hide Inv, LiveBlock, Alloc, Release, OthersKept, Carries, IndexOf;
    var (r, p) := Alloc(h, size);
    AllocGives(h, size);
    OneSize(h, h.ring[i], k, i);
    if p.Some? {
      var b := p.value - h.hdr;
      var m :| m >= size && LiveBlock(r, b, m);
      BlockInPool(r, b, m);
      BlockInPool(r, h.ring[i], k);
      LiveIndex(r, h.ring[i], k);
      LiveInRing(h, h.ring[i], k);
      MoveEnds(h, r, h.ring[i], k, b, m, size);
    }
  }

  /** Copy and release, once the new block is there. */
  lemma MoveEnds(h: Heap, r: Heap, a: nat, k: nat, b: nat, m: nat, size: nat)
    requires Inv(h) && Inv(r) && LiveBlock(h, a, k) && LiveBlock(r, a, k) && LiveBlock(r, b, m) && m >= size > k
    requires r.bytes == h.bytes && r.hdr == h.hdr && b !in h.used && a != b && |h.bytes| == |r.bytes|
    requires forall c, l :: LiveBlock(h, c, l) ==> LiveBlock(r, c, l)
    requires a in r.ring && IndexOf<nat>(r.ring, a) + 1 < |r.ring| && b + h.hdr + k <= |r.bytes| && a + h.hdr + k <= |r.bytes|
    ensures var s := Release(Copied(r, b + h.hdr, a + h.hdr, k), IndexOf<nat>(r.ring, a));
            && Inv(s) && OthersKept(h, s, a) && Carries(h, s, a, k, b, size) && a !in s.used
  {
    hide Inv, Release, Copied, LiveBlock, SameBytes, CopyBytes, IndexOf;
    var i, c := IndexOf<nat>(r.ring, a), Copied(r, b + h.hdr, a + h.hdr, k);
    CopiedInv(r, b + h.hdr, a + h.hdr, k);
    CopiedSame(r, b + h.hdr, a + h.hdr, k);
    LiveInRing(r, a, k);
    var s := Release(c, i);
    ReleaseKeeps(c, i);
    ReleaseBytes(c, i);
    forall d: nat, l: nat | d != a && LiveBlock(h, d, l) ensures LiveBlock(s, d, l) && SameBytes(h, s, d + h.hdr, d + h.hdr, l) {
      SameBlocks(r, c, d, l);
      ReleaseOthers(c, i, d, l);
      LiveInRing(h, d, l);
      LiveApart(r, d, l, b, m);
      BlockInPool(r, d, l);
      CopyElsewhere(h, r, s, b + h.hdr, a + h.hdr, k, d + h.hdr, l);
    }
    SameBlocks(r, c, b, m);
    ReleaseOthers(c, i, b, m);
    CopyArrives(h, r, s, b + h.hdr, a + h.hdr, k);
    assert LiveBlock(s, b, m) && SameBytes(h, s, a + h.hdr, b + h.hdr, Lesser(m, k));
  }

  lemma SameBlocks(r: Heap, c: Heap, b: nat, k: nat)
    requires c.ring == r.ring && c.used == r.used && c.hdr == r.hdr
    ensures LiveBlock(c, b, k) <==> LiveBlock(r, b, k)
  {
  }

  lemma CopiedSame(r: Heap, to: nat, from: nat, n: nat)
    requires to + n <= |r.bytes| && from + n <= |r.bytes|
    ensures var c := Copied(r, to, from, n);
            && c.ring == r.ring && c.used == r.used && c.hdr == r.hdr && c.bytes == CopyBytes(r.bytes, to, from, n)
  {
  }

  lemma ReleaseBytes(h: Heap, i: nat)
    requires i + 1 < |h.ring|
    ensures Release(h, i).bytes == h.bytes && Release(h, i).hdr == h.hdr
  {
  }

  lemma CopyLength(bytes: seq<Byte>, to: nat, from: nat, n: nat)
    requires to + n <= |bytes| && from + n <= |bytes|
    ensures |CopyBytes(bytes, to, from, n)| == |bytes|
  {
  }

  lemma CopyAt(bytes: seq<Byte>, to: nat, from: nat, n: nat, x: nat)
    requires to + n <= |bytes| && from + n <= |bytes| && x < |bytes|
    ensures |CopyBytes(bytes, to, from, n)| == |bytes|
    ensures CopyBytes(bytes, to, from, n)[x] == if to <= x < to + n then bytes[from + (x - to)] else bytes[x]
  {
  }

  lemma CopyElsewhere(h: Heap, r: Heap, s: Heap, to: nat, from: nat, n: nat, at: nat, l: nat)
    requires r.bytes == h.bytes && to + n <= |r.bytes| && from + n <= |r.bytes| && at + l <= |r.bytes|
    requires s.bytes == CopyBytes(r.bytes, to, from, n) && (to + n <= at || at + l <= to)
    ensures SameBytes(h, s, at, at, l)
  {
    forall x | at <= x < at + l ensures s.bytes[x] == h.bytes[x] {
      CopyAt(r.bytes, to, from, n, x);
    }
    CopyLength(r.bytes, to, from, n);
    assert s.bytes[at..at + l] == h.bytes[at..at + l];
  }

  lemma CopyArrives(h: Heap, r: Heap, s: Heap, to: nat, from: nat, n: nat)
    requires r.bytes == h.bytes && to + n <= |r.bytes| && from + n <= |r.bytes|
    requires s.bytes == CopyBytes(r.bytes, to, from, n)
    ensures SameBytes(h, s, from, to, n)
  {
    CopyLength(r.bytes, to, from, n);
    forall x | to <= x < to + n ensures s.bytes[x] == h.bytes[from + (x - to)] {
      CopyAt(r.bytes, to, from, n, x);
    }
    assert s.bytes[to..to + n] == h.bytes[from..from + n];
  }

  // ---------------------------------------------------------------- the whole of realloc

  /** What a reallocation of block `a`, of `k` bytes, to `n` bytes promises about its result. */
  ghost predicate ReallocOk(h: Heap, a: nat, k: nat, n: nat, r: Heap, q: Option<nat>) {
    && Inv(r) && OthersKept(h, r, a)
    && (n == 0 ==> q == None && a !in r.used)
    && (n > 0 && q == None ==> r == h)
    && (q.Some? ==> q.value >= h.hdr && Carries(h, r, a, k, q.value - h.hdr, n))
    && (q.Some? && q.value != a + h.hdr ==> a !in r.used)
  }

  lemma CarriesLess(h: Heap, r: Heap, a: nat, k: nat, b: nat, size: nat, n: nat)
    requires Carries(h, r, a, k, b, size) && n <= size
    ensures Carries(h, r, a, k, b, n)
  {
  }

  lemma FreeOk(h: Heap, i: nat, k: nat)
    requires Inv(h) && i + 1 < |h.ring| && LiveBlock(h, h.ring[i], k)
    ensures ReallocOk(h, h.ring[i], k, 0, Release(h, i), None)
  {
    hide Inv, Release, Adjacent;
    ReleaseKeeps(h, i);
    ReleaseBytes(h, i);
    var r := Release(h, i);
    forall b: nat, m: nat | b != h.ring[i] && LiveBlock(h, b, m)
      ensures LiveBlock(r, b, m) && SameBytes(h, r, b + h.hdr, b + h.hdr, m)
    {
      ReleaseOthers(h, i, b, m);
      BlockInPool(h, b, m);
    }
  }

  lemma StayOk(h: Heap, a: nat, k: nat, n: nat)
    requires Inv(h) && LiveBlock(h, a, k) && 0 < n <= k
    ensures ReallocOk(h, a, k, n, h, Some(a + h.hdr))
  {
    hide Inv, Adjacent;
    forall b: nat, m: nat | LiveBlock(h, b, m) ensures SameBytes(h, h, b + h.hdr, b + h.hdr, m) {
      BlockInPool(h, b, m);
    }
    assert LiveBlock(h, a, k) && SameBytes(h, h, a + h.hdr, a + h.hdr, Lesser(k, k));
  }

  lemma GrowOk(h: Heap, i: nat, size: nat, k: nat, n: nat)
    requires Inv(h) && Movable(h, i, size) && LiveBlock(h, h.ring[i], k) && 0 < n <= size
    ensures ReallocOk(h, h.ring[i], k, n, Grow(h, i, size), Some(h.ring[i] + h.hdr))
  {
    hide Inv, LiveBlock, Carries, OthersKept, Movable;
    GrowKeeps(h, i, size);
    MovableIndex(h, i, size);
    MoveBoundaryGives(h, i, size, Grow(h, i, size));
    CarriesLess(h, Grow(h, i, size), h.ring[i], k, h.ring[i], size, n);
  }

  lemma MovableIndex(h: Heap, i: nat, n: nat)
    requires Movable(h, i, n)
    ensures i + 2 < |h.ring|
  {
  }

  lemma ShrinkOk(h: Heap, i: nat, size: nat, k: nat, n: nat)
    requires Inv(h) && i + 1 < |h.ring| && LiveBlock(h, h.ring[i], k) && SizeAt(h, i) == k && 0 < n <= size
    requires h.align > 0 && Mini(h.align) <= size && size + h.hdr + Mini(h.align) < k
    ensures ReallocOk(h, h.ring[i], k, n, Shrink(h, i, size), Some(h.ring[i] + h.hdr))
  {
    hide Inv, Carries, OthersKept, Adjacent, Mini;
    ShrinkKeeps(h, i, size);
    TailUsed(h);
    BlockSizes(h, i + 1);
    var r := Shrink(h, i, size);
    if h.ring[i + 1] !in h.used {
      MoveBoundaryGives(h, i, size, r);
    } else {
      SplitGives(h, i, size);
    }
    CarriesLess(h, r, h.ring[i], k, h.ring[i], size, n);
  }

  lemma BlockSizes(h: Heap, i: nat)
    requires Inv(h)
    ensures h.align > 0 && h.hdr > 0 && (i + 1 < |h.ring| ==> SizeAt(h, i) >= Mini(h.align))
  {
  }

  lemma MoveOk(h: Heap, i: nat, size: nat, k: nat, n: nat)
    requires Inv(h) && i + 1 < |h.ring| && LiveBlock(h, h.ring[i], k) && k < size && 0 < n <= size
    ensures ReallocOk(h, h.ring[i], k, n, Move(h, i, size).0, Move(h, i, size).1)
  {
    hide Inv, LiveBlock, Carries, Move;
    var (r, q) := Move(h, i, size);
    MoveGives(h, i, size, k);
    if q.Some? {
      CarriesLess(h, r, h.ring[i], k, q.value - h.hdr, size, n);
    } else {
      SelfKept(h);
    }
  }

  lemma SelfKept(h: Heap)
    requires Inv(h)
    ensures forall b: nat, m: nat :: LiveBlock(h, b, m) ==> SameBytes(h, h, b + h.hdr, b + h.hdr, m)
  {
    hide Inv, Adjacent, LiveBlock;
    forall b: nat, m: nat | LiveBlock(h, b, m) ensures SameBytes(h, h, b + h.hdr, b + h.hdr, m) {
      BlockInPool(h, b, m);
    }
  }

  /** Reallocation keeps the heap well formed. A null result for a nonzero size leaves everything
      as it was; a non-null one points to a block with room for the size that starts with the old
      contents; in every case all other live blocks keep their place, size and bytes. */
  lemma ReallocKeeps(h: Heap, p: nat, n: nat, k: nat)
    requires Inv(h) && p >= h.hdr && LiveBlock(h, p - h.hdr, k) && Owned(h, Some(p))
    ensures var (r, q) := Realloc(h, Some(p), n); ReallocOk(h, p - h.hdr, k, n, r, q)
  {
    hide Inv, LiveBlock, Release, Move, Grow, Shrink, ReallocOk, IndexOf, Owned, Alloc, Request, Mini;
    var a := p - h.hdr;
    LiveIndex(h, a, k);
    BlockSizes(h, IndexOf<nat>(h.ring, a));
    var i, size := IndexOf<nat>(h.ring, a), Request(h, n);
    BlockSizes(h, i + 1);
    RequestBounds(h, n);
    TailUsed(h);
    if n == 0 {
      FreeOk(h, i, k);
    } else if size > k {
      if h.ring[i + 1] !in h.used && SizeAt(h, i + 1) + k > size + Mini(h.align) {
        LiveUsed(h, a, k);
        GrowOk(h, i, size, k, n);
      } else {
        MoveOk(h, i, size, k, n);
      }
    } else if size + h.hdr + Mini(h.align) >= k {
      StayOk(h, a, k, n);
    } else {
      ShrinkOk(h, i, size, k, n);
    }
  }

  lemma LiveUsed(h: Heap, a: nat, k: nat)
    requires LiveBlock(h, a, k)
    ensures a in h.used
  {
  }
}
