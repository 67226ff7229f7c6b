/** Runs of any length over one memheap, by callers that use only what they own. */
module MemheapRuns {

  import opened KernelTypes
  import opened OrderedList
  import opened MemheapModel
  import opened MemheapSafety
  import opened MemheapRealloc

  /** A call of the allocator, or a caller's store into byte `j` of a payload it owns. */
  datatype Call =
    | Allocate(n: nat)
    | Free(p: nat)
    | Reallocate(ptr: Option<nat>, n: nat)
    | Store(p: nat, j: nat, b: Byte)

  ghost predicate InPayload(h: Heap, a: nat, j: nat) {
    exists k :: j < k && LiveBlock(h, a, k)
  }

  ghost predicate Allowed(h: Heap, c: Call) {
    match c
    case Allocate(_) => true
    case Free(p) => Owned(h, Some(p))
    case Reallocate(ptr, _) => Owned(h, ptr)
    case Store(p, j, _) => p >= h.hdr && InPayload(h, p - h.hdr, j)
  }

  ghost function Do(h: Heap, c: Call): (r: Heap)
    requires Inv(h) && Allowed(h, c)
  {
    match c
    case Allocate(n) => Alloc(h, n).0
    case Free(p) => OwnedIndex(h, p); Release(h, IndexOf<nat>(h.ring, p - h.hdr))
    case Reallocate(ptr, n) => Realloc(h, ptr, n).0
    case Store(p, j, b) => StoreFits(h, p, j); h.(bytes := h.bytes[p + j := b])
  }

  lemma StoreFits(h: Heap, p: nat, j: nat)
    requires Inv(h) && p >= h.hdr && InPayload(h, p - h.hdr, j)
    ensures p + j < |h.bytes|
  {
    hide Inv, LiveBlock;
    var k :| j < k && LiveBlock(h, p - h.hdr, k);
    BlockInPool(h, p - h.hdr, k);
  }

  /** The call is about the block at header `a`. */
  ghost predicate About(hdr: nat, c: Call, a: nat) {
    match c
    case Allocate(_) => false
    case Free(p) => p == a + hdr
    case Reallocate(ptr, _) => ptr == Some(a + hdr)
    case Store(p, _, _) => p == a + hdr
  }

  // ---------------------------------------------------------------- one call

  ghost predicate SamePool(h: Heap, r: Heap) {
    r.hdr == h.hdr && r.align == h.align && r.pool == h.pool && r.maxUsed >= h.maxUsed
  }

  /** One call keeps the heap well formed, and its peak never falls. */
  lemma DoKeeps(h: Heap, c: Call)
    requires Inv(h) && Allowed(h, c)
    ensures Inv(Do(h, c)) && SamePool(h, Do(h, c))
  {
    hide Inv, LiveBlock, Alloc, Release, Realloc, IndexOf, Owned;
    match c
    case Allocate(n) =>
      AllocPool(h, n);
    case Free(p) =>
      OwnedIndex(h, p);
      ReleaseKeeps(h, IndexOf<nat>(h.ring, p - h.hdr));
      ReleasePool(h, IndexOf<nat>(h.ring, p - h.hdr));
    case Reallocate(ptr, n) =>
      ReallocPool(h, ptr, n);
    case Store(p, j, b) =>
      StoreFits(h, p, j);
      StoreKeeps(h, p + j, b);
  }

  lemma StoreKeeps(h: Heap, x: nat, b: Byte)
    requires Inv(h) && x < |h.bytes|
    ensures Inv(h.(bytes := h.bytes[x := b]))
  {
    hide FreeBytes, NoDup, Mini;
  }

  lemma AllocPool(h: Heap, n: nat)
    requires Inv(h)
    ensures Inv(Alloc(h, n).0) && SamePool(h, Alloc(h, n).0)
  {
    hide Inv, Alloc, LiveBlock;
    AllocGives(h, n);
    if Alloc(h, n).1.Some? {
      var size, i := AllocIsCarve(h, n);
    }
  }

  lemma ReleasePool(h: Heap, i: nat)
    requires i + 1 < |h.ring|
    ensures SamePool(h, Release(h, i)) && Release(h, i).maxUsed == h.maxUsed
  {
    hide Remove, Drop;
  }

  lemma ReallocPool(h: Heap, ptr: Option<nat>, n: nat)
    requires Inv(h) && Owned(h, ptr)
    ensures Inv(Realloc(h, ptr, n).0) && SamePool(h, Realloc(h, ptr, n).0)
  {
    hide Inv, Alloc, Release, LiveBlock, Move, Grow, Shrink, Mini, Request;
    BlockSizes(h, 0);
    if ptr == None {
      AllocPool(h, Request(h, n));
    } else {
      var p := ptr.value;
      OwnedIndex(h, p);
      var i := IndexOf<nat>(h.ring, p - h.hdr);
      IsLive(h, i);
      ReallocKeeps(h, p, n, SizeAt(h, i));
      ReleasePool(h, i);
      MovePool(h, i, Request(h, n));
      TailUsed(h);
      InPlacePool(h, i, Request(h, n));
    }
  }

  lemma InPlacePool(h: Heap, i: nat, size: nat)
    requires i + 1 < |h.ring|
    ensures SamePool(h, Shrink(h, i, size))
    ensures i + 2 < |h.ring| ==> SamePool(h, Grow(h, i, size))
  {
    hide Remove, InsertAfter;
  }

  lemma MovePool(h: Heap, i: nat, size: nat)
    requires Inv(h) && i + 1 < |h.ring|
    ensures SamePool(h, Move(h, i, size).0)
  {
    hide Inv, Alloc, Release, CopyBytes, IndexOf;
    AllocPool(h, size);
    var (r, q) := Alloc(h, size);
    var a, have := h.ring[i], SizeAt(h, i);
    if q.Some? && 0 <= have && q.value + have <= |r.bytes| && a + h.hdr + have <= |r.bytes|
       && a in r.ring && IndexOf<nat>(r.ring, a) + 1 < |r.ring| {
      ReleasePool(r.(bytes := CopyBytes(r.bytes, q.value, a + h.hdr, have)), IndexOf<nat>(r.ring, a));
    }
  }

  /** A call about some other block leaves block `a` where it is, as large and with its bytes. */
  lemma DoOthers(h: Heap, c: Call, a: nat, k: nat)
    requires Inv(h) && Allowed(h, c) && LiveBlock(h, a, k) && !About(h.hdr, c, a)
    ensures LiveBlock(Do(h, c), a, k) && SameBytes(h, Do(h, c), a + h.hdr, a + h.hdr, k)
  {
    hide Inv, LiveBlock, Alloc, Release, Realloc, IndexOf, Owned;
    BlockInPool(h, a, k);
    match c
    case Allocate(n) =>
      AllocGives(h, n);
    case Free(p) =>
      OwnedIndex(h, p);
      ReleaseOthers(h, IndexOf<nat>(h.ring, p - h.hdr), a, k);
      ReleaseBytes(h, IndexOf<nat>(h.ring, p - h.hdr));
    case Reallocate(ptr, n) =>
      ReallocOthers(h, ptr, n, a, k);
    case Store(p, j, b) =>
      StoreOthers(h, p, j, b, a, k);
  }

  lemma ReallocOthers(h: Heap, ptr: Option<nat>, n: nat, a: nat, k: nat)
    requires Inv(h) && Owned(h, ptr) && LiveBlock(h, a, k) && ptr != Some(a + h.hdr)
    ensures var r := Realloc(h, ptr, n).0; LiveBlock(r, a, k) && SameBytes(h, r, a + h.hdr, a + h.hdr, k)
  {
    hide Inv, Alloc, LiveBlock, Release, Move, Grow, Shrink, Mini;
    BlockInPool(h, a, k);
    if ptr == None {
      BlockSizes(h, 0);
      AllocGives(h, Request(h, n));
    } else {
      OwnedIndex(h, ptr.value);
      var i := IndexOf<nat>(h.ring, ptr.value - h.hdr);
      IsLive(h, i);
      ReallocKeeps(h, ptr.value, n, SizeAt(h, i));
    }
  }

  lemma StoreOthers(h: Heap, p: nat, j: nat, b: Byte, a: nat, k: nat)
    requires Inv(h) && Allowed(h, Store(p, j, b)) && LiveBlock(h, a, k) && p != a + h.hdr
    ensures LiveBlock(Do(h, Store(p, j, b)), a, k) && SameBytes(h, Do(h, Store(p, j, b)), a + h.hdr, a + h.hdr, k)
  {
    hide Inv, Adjacent;
    BlockInPool(h, a, k);
    StoreFits(h, p, j);
    var m :| j < m && LiveBlock(h, p - h.hdr, m);
    LiveApart(h, p - h.hdr, m, a, k);
    forall x | a + h.hdr <= x < a + h.hdr + k ensures h.bytes[p + j := b][x] == h.bytes[x] {
    }
  }

  // ---------------------------------------------------------------- runs

  /** Each call is allowed when its turn comes. */
  ghost predicate AllowedAll(h: Heap, cs: seq<Call>)
    requires Inv(h)
    decreases cs
  {
    cs != [] ==> Allowed(h, cs[0]) && (DoKeeps(h, cs[0]); AllowedAll(Do(h, cs[0]), cs[1..]))
  }

  ghost function After(h: Heap, cs: seq<Call>): (r: Heap)
    requires Inv(h) && AllowedAll(h, cs)
    decreases cs
  {
    if cs == [] then h else (DoKeeps(h, cs[0]); After(Do(h, cs[0]), cs[1..]))
  }

  /** The block structure and the accounting survive any run. */
  lemma {:induction false} RunKeeps(h: Heap, cs: seq<Call>)
    requires Inv(h) && AllowedAll(h, cs)
    ensures Inv(After(h, cs)) && SamePool(h, After(h, cs))
    decreases cs
  {
    hide Inv, Allowed, Do;
    if cs != [] {
      DoKeeps(h, cs[0]);
      RunKeeps(Do(h, cs[0]), cs[1..]);
    }
  }

  /** A live block that no call of the run is about keeps its place, its size and every byte. */
  lemma {:induction false} BlockSurvives(h: Heap, cs: seq<Call>, a: nat, k: nat)
    requires Inv(h) && AllowedAll(h, cs) && LiveBlock(h, a, k)
    requires forall i :: 0 <= i < |cs| ==> !About(h.hdr, cs[i], a)
    ensures LiveBlock(After(h, cs), a, k) && SameBytes(h, After(h, cs), a + h.hdr, a + h.hdr, k)
    decreases cs
  {
    hide Inv, Allowed, Do, LiveBlock, About;
    if cs != [] {
      DoKeeps(h, cs[0]);
      DoOthers(h, cs[0], a, k);
      BlockSurvives(Do(h, cs[0]), cs[1..], a, k);
    } else {
      BlockInPool(h, a, k);
    }
  }

  // ---------------------------------------------------------------- giving everything back

  /** With no block in use but the tail there is one free block, as large as it can be. */
  lemma NothingLive(h: Heap)
    requires Inv(h) && forall a :: a in h.used ==> a == h.ring[|h.ring| - 1]
    ensures h.ring == [0, h.pool - h.hdr] && h.used == {h.pool - h.hdr} && h.free == [0]
    ensures h.avail == h.pool - 2 * h.hdr
  {
    RingNoDup(h);
    assert h.ring[0] in h.used || h.ring[1] in h.used;
    OnlyTail(h.ring, 0);
    OnlyTail(h.ring, 1);
    assert |h.ring| == 2;
    OneFree(h);
  }

  lemma OnlyTail(ring: seq<nat>, i: nat)
    requires NoDup(ring) && i < |ring|
    ensures ring[i] == ring[|ring| - 1] ==> i == |ring| - 1
  {
  }

  lemma OneFree(h: Heap)
    requires Inv(h) && |h.ring| == 2 && h.ring[0] !in h.used
    ensures h.free == [0] && h.avail == h.pool - 2 * h.hdr
  {
    assert h.ring == [0, h.pool - h.hdr] && h.ring[1..] == [h.pool - h.hdr];
    assert 0 in h.free;
    forall i | 0 <= i < |h.free| ensures h.free[i] == 0 {
      assert h.free[i] in h.free;
    }
    SameEntries(h.free, 0);
    assert FreeBytes(h.hdr, h.ring[1..], h.used) == 0;
  }

  lemma SameEntries(ns: seq<nat>, n: nat)
    requires forall i :: 0 <= i < |ns| ==> ns[i] == n
    ensures |ns| > 1 ==> !NoDup(ns)
  {
    if |ns| > 1 {
      assert ns[0] == ns[1];
    }
  }

  /** Whatever happens in between: once all blocks are given back, the blocks, the free list and
      the available bytes are again those of a fresh heap. */
  lemma AllGivenBack(h: Heap, cs: seq<Call>)
    requires Inv(h) && h == Fresh(h.hdr, h.align, h.pool, h.bytes) && AllowedAll(h, cs)
    requires var r := After(h, cs); forall a, k :: !LiveBlock(r, a, k)
    ensures var r := After(h, cs); r == Fresh(h.hdr, h.align, h.pool, r.bytes).(maxUsed := r.maxUsed)
  {
    hide Inv, After, LiveBlock;
    RunKeeps(h, cs);
    FreshAgain(After(h, cs));
  }

  lemma FreshAgain(r: Heap)
    requires Inv(r) && forall a, k :: !LiveBlock(r, a, k)
    ensures r.pool >= r.hdr && r == Fresh(r.hdr, r.align, r.pool, r.bytes).(maxUsed := r.maxUsed)
  {
    hide Coalesced, Listed, Accounted, LiveBlock, Mini;
    forall a | a in r.used ensures a == r.ring[|r.ring| - 1] {
      LiveOrTail(r, a);
    }
    NothingLive(r);
  }

  lemma LiveOrTail(h: Heap, a: nat)
    requires Inv(h) && a in h.used
    ensures a == h.ring[|h.ring| - 1] || exists k :: LiveBlock(h, a, k)
  {
    assert a in h.ring;
    var i :| 0 <= i < |h.ring| && h.ring[i] == a;
    if i + 1 < |h.ring| {
      IsLive(h, i);
    }
  }
}
