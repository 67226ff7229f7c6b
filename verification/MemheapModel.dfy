/** The memheap allocator on block addresses: a ring of blocks that tiles the pool, a free list
    in allocation order, and byte accounting. */
module MemheapModel {

  import opened Arithmetic
  import opened KernelTypes
  import opened OrderedList

  /** `ring` lists the header addresses in memory order, the tail block last; `free` is the free
      list from its head; `hdr` is RT_MEMHEAP_SIZE. A block's payload lies between its header and
      the next one. */
  datatype Heap = Heap(hdr: nat, align: nat, pool: nat,
                       ring: seq<nat>, used: set<nat>, free: seq<nat>,
                       avail: int, maxUsed: int, bytes: seq<Byte>)

  datatype Option<+T> = None | Some(value: T)

  /** RT_ALIGN: the least multiple of `align` from `n` on. */
  function RoundUp(n: nat, align: nat): (r: nat)
    requires align > 0
    ensures n <= r < n + align && r % align == 0
  {
    var r := (n + align - 1) / align * align;
    RoundUpBounds(n, align);
    MultipleMod((n + align - 1) / align, align);
    r
  }

  /** RT_ALIGN_DOWN: the greatest multiple of `align` up to `n`. */
  function RoundDown(n: nat, align: nat): (r: nat)
    requires align > 0
    ensures n - align < r <= n && r % align == 0
  {
    MultipleMod(n / align, align);
    assert n == n / align * align + n % align;
    n / align * align
  }

  lemma RoundUpBounds(n: nat, align: nat)
    requires align > 0
    ensures n <= (n + align - 1) / align * align < n + align
  {
    var m := n + align - 1;
    assert m == m / align * align + m % align;
  }

  /** RT_MEMHEAP_MINIALLOC. */
  function Mini(align: nat): (r: nat)
    requires align > 0
  {
    RoundUp(12, align)
  }

  /** The size an allocation of `n` bytes really asks for. */
  function Request(h: Heap, n: nat): (r: nat)
    requires h.align > 0
  {
    RequestFor(h.align, n)
  }

  function RequestFor(align: nat, n: nat): (r: nat)
    requires align > 0
  {
    var r := RoundUp(n, align);
    if r < Mini(align) then Mini(align) else r
  }

  // ---------------------------------------------------------------- the ring

  /** MEMITEM_SIZE of block `i`, which is not the tail. */
  function SizeAt(h: Heap, i: nat): (r: int)
    requires i + 1 < |h.ring|
  {
    h.ring[i + 1] - h.ring[i] - h.hdr
  }

  /** The payload bytes of all free blocks. */
  function FreeBytes(hdr: nat, ring: seq<nat>, used: set<nat>): (r: int) {
    if |ring| < 2 then 0
    else (if ring[0] in used then 0 else ring[1] - ring[0] - hdr) + FreeBytes(hdr, ring[1..], used)
  }

  // ---------------------------------------------------------------- the invariant

  /** Blocks tile the pool from address 0 to the tail, each with room for the minimum payload. */
  ghost predicate Tiled(h: Heap) {
    && h.align > 0 && h.hdr > 0
    && |h.ring| >= 2 && h.ring[0] == 0 && h.ring[|h.ring| - 1] == h.pool - h.hdr && |h.bytes| == h.pool
    && forall i :: 0 <= i < |h.ring| - 1 ==> h.ring[i] + h.hdr + Mini(h.align) <= h.ring[i + 1]
  }

  /** The tail is used and no two neighbours are both free. */
  ghost predicate Coalesced(h: Heap)
    requires |h.ring| >= 2
  {
    && h.ring[|h.ring| - 1] in h.used
    && (forall a :: a in h.used ==> a in h.ring)
    && forall i :: 0 <= i < |h.ring| - 1 ==> h.ring[i] in h.used || h.ring[i + 1] in h.used
  }

  /** The free list holds exactly the free blocks, once each. */
  ghost predicate Listed(h: Heap) {
    && NoDup(h.free)
    && (forall a :: a in h.free ==> a in h.ring && a !in h.used)
    && (forall a :: a in h.ring && a !in h.used ==> a in h.free)
  }

  ghost predicate Accounted(h: Heap) {
    h.avail == FreeBytes(h.hdr, h.ring, h.used) && h.pool - h.avail <= h.maxUsed
  }

  ghost predicate Inv(h: Heap) {
    Tiled(h) && Coalesced(h) && Listed(h) && Accounted(h)
  }

  /** The heap right after `rt_memheap_init`: one free block and the tail. */
  function Fresh(hdr: nat, align: nat, pool: nat, bytes: seq<Byte>): (r: Heap)
    requires pool >= hdr
  {
    Heap(hdr, align, pool, [0, pool - hdr], {pool - hdr}, [0], pool - 2 * hdr, 2 * hdr, bytes)
  }

  // ---------------------------------------------------------------- allocation

  /** A live block: one the caller may use. */
  ghost predicate Live(h: Heap, a: nat) {
    a in h.ring && a in h.used && |h.ring| > 0 && a != h.ring[|h.ring| - 1]
  }

  /** The payload size of a block that is not the tail. */
  function SizeOf(h: Heap, a: nat): (r: int)
    requires a in h.ring && IndexOf<nat>(h.ring, a) + 1 < |h.ring|
  {
    SizeAt(h, IndexOf<nat>(h.ring, a))
  }

  /** A free block that is large enough. */
  ghost predicate Fits(h: Heap, a: nat, n: nat) {
    a in h.free && a in h.ring && IndexOf<nat>(h.ring, a) + 1 < |h.ring| && SizeOf(h, a) >= n
  }

  /** The first block of the list that is large enough. */
  function FirstFit(h: Heap, fs: seq<nat>, n: nat): (r: Option<nat>)
    requires forall a :: a in fs ==> a in h.ring && IndexOf<nat>(h.ring, a) + 1 < |h.ring|
  {
    if fs == [] then None
    else if SizeOf(h, fs[0]) >= n then Some(fs[0])
    else FirstFit(h, fs[1..], n)
  }

  function Peak(h: Heap, avail: int): (r: int) {
    if h.pool - avail > h.maxUsed then h.pool - avail else h.maxUsed
  }

  /** Block `i` becomes used; what is left over becomes a free block when it is large enough. */
  function Carve(h: Heap, i: nat, n: nat): (r: Heap)
    requires i + 1 < |h.ring| && h.align > 0
  {
    var a := h.ring[i];
    if SizeAt(h, i) >= n + h.hdr + Mini(h.align) then
      var b := a + n + h.hdr;
      var avail := h.avail - n - h.hdr;
      h.(ring := InsertAfter<nat>(h.ring, i, b), used := h.used + {a}, free := [b] + Remove<nat>(h.free, a),
         avail := avail, maxUsed := Peak(h, avail))
    else
      var avail := h.avail - SizeAt(h, i);
      h.(used := h.used + {a}, free := Remove<nat>(h.free, a), avail := avail, maxUsed := Peak(h, avail))
  }

  ghost function Alloc(h: Heap, n: nat): (r: (Heap, Option<nat>))
    requires Inv(h)
  {
    var size := Request(h, n);
    FreeIndices(h);
    if size < h.avail then
      match FirstFit(h, h.free, size)
      case Some(a) =>
        FirstFitIn(h, h.free, size);
        (Carve(h, IndexOf<nat>(h.ring, a), size), Some(a + h.hdr))
      case None => (h, None)
    else (h, None)
  }

  // ---------------------------------------------------------------- release

  /** The header `k` disappears: block `k - 1` swallows block `k`. */
  function Merge(h: Heap, k: nat): (r: Heap)
    requires k < |h.ring|
  {
    h.(ring := Drop<nat>(h.ring, k), avail := h.avail + h.hdr)
  }

  function MarkFree(h: Heap, i: nat): (r: Heap)
    requires i + 1 < |h.ring|
  {
    h.(used := h.used - {h.ring[i]}, avail := h.avail + SizeAt(h, i))
  }

  /** Merge block `j` with its right neighbour when that is free. */
  function MergeRight(h: Heap, j: nat): (r: Heap)
    requires j + 1 < |h.ring|
  {
    var b := h.ring[j + 1];
    if b in h.used then h else Merge(h.(free := Remove<nat>(h.free, b)), j + 1)
  }

  /** `rt_memheap_free` of block `i`: merge with a free left neighbour, then with a free right
      one; without a left merge the block joins the free list. */
  function Release(h: Heap, i: nat): (r: Heap)
    requires i + 1 < |h.ring|
  {
    var h1 := MarkFree(h, i);
    if i > 0 && h.ring[i - 1] !in h.used then MergeRight(Merge(h1, i), i - 1)
    else
      var h3 := MergeRight(h1, i);
      h3.(free := [h.ring[i]] + h3.free)
  }

  // ---------------------------------------------------------------- reallocation

  /** The boundary between block `i` and its free right neighbour moves so that block `i` has `n`
      bytes; the neighbour moves to the head of the free list. */
  function MoveBoundary(h: Heap, i: nat, n: nat): (r: Heap)
    requires i + 2 < |h.ring|
  {
    var x := h.ring[i] + h.hdr + n;
    h.(ring := h.ring[i + 1 := x], free := [x] + Remove<nat>(h.free, h.ring[i + 1]), avail := h.avail - (n - SizeAt(h, i)))
  }

  /** In-place growth. */
  function Grow(h: Heap, i: nat, n: nat): (r: Heap)
    requires i + 2 < |h.ring|
  {
    var r := MoveBoundary(h, i, n);
    r.(maxUsed := Peak(h, r.avail))
  }

  /** The end of block `i` becomes a free block. */
  function Split(h: Heap, i: nat, n: nat): (r: Heap)
    requires i + 1 < |h.ring|
  {
    var x := h.ring[i] + n + h.hdr;
    h.(ring := InsertAfter<nat>(h.ring, i, x), free := [x] + h.free, avail := h.avail + (SizeAt(h, i) - n - h.hdr))
  }

  function Shrink(h: Heap, i: nat, n: nat): (r: Heap)
    requires i + 1 < |h.ring|
  {
    if h.ring[i + 1] !in h.used && i + 2 < |h.ring| then MoveBoundary(h, i, n) else Split(h, i, n)
  }

  /** `rt_memcpy` within the pool. */
  function CopyBytes(bytes: seq<Byte>, to: nat, from: nat, n: nat): (r: seq<Byte>)
    requires to + n <= |bytes| && from + n <= |bytes|
  {
    bytes[..to] + bytes[from..from + n] + bytes[to + n..]
  }

  /** A pointer the caller may pass: none, or the payload of a live block. */
  ghost predicate Owned(h: Heap, ptr: Option<nat>) {
    ptr.Some? ==> ptr.value >= h.hdr && Live(h, ptr.value - h.hdr)
  }

  /** The block must move: allocate, copy, release. */
  ghost function Move(h: Heap, i: nat, size: nat): (r: (Heap, Option<nat>))
    requires Inv(h) && i + 1 < |h.ring|
  {
    var (r, q) := Alloc(h, size);
    var a, have := h.ring[i], SizeAt(h, i);
    if q.Some? && 0 <= have && q.value + have <= |r.bytes| && a + h.hdr + have <= |r.bytes|
       && a in r.ring && IndexOf<nat>(r.ring, a) + 1 < |r.ring| then
      (Release(r.(bytes := CopyBytes(r.bytes, q.value, a + h.hdr, have)), IndexOf<nat>(r.ring, a)), q)
    else (r, q)
  }

  ghost function Realloc(h: Heap, ptr: Option<nat>, n: nat): (r: (Heap, Option<nat>))
    requires Inv(h) && Owned(h, ptr)
  {
    if n == 0 then
      if ptr == None then (h, None) else (RingNoDup(h); Release(h, IndexOf<nat>(h.ring, ptr.value - h.hdr)), None)
    else if ptr == None then Alloc(h, Request(h, n))
    else
      RingNoDup(h);
      var i, size := IndexOf<nat>(h.ring, ptr.value - h.hdr), Request(h, n);
      if size > SizeAt(h, i) then
        if h.ring[i + 1] !in h.used && SizeAt(h, i + 1) + SizeAt(h, i) > size + Mini(h.align)
        then (Grow(h, i, size), ptr)
        else Move(h, i, size)
      else if size + h.hdr + Mini(h.align) >= SizeAt(h, i) then (h, ptr)
      else (Shrink(h, i, size), ptr)
  }

  // ---------------------------------------------------------------- basic facts

  lemma {:induction false} IndexIs(ws: seq<nat>, i: nat)
    requires i < |ws| && NoDup(ws)
    ensures IndexOf<nat>(ws, ws[i]) == i
  {
    if i > 0 {
      assert ws[0] != ws[i] && ws[1..][i - 1] == ws[i];
      IndexIs(ws[1..], i - 1);
    }
  }

  /** Addresses grow along the ring. */
  lemma {:induction false} Ascending(h: Heap, i: nat, j: nat)
    requires Tiled(h) && i < j < |h.ring|
    ensures h.ring[i] + h.hdr + Mini(h.align) <= h.ring[j]
    decreases j - i
  {
    if i + 1 < j {
      Ascending(h, i + 1, j);
    }
  }

  lemma RingNoDup(h: Heap)
    requires Tiled(h)
    ensures NoDup(h.ring)
  {
    forall i, j | 0 <= i < j < |h.ring| ensures h.ring[i] != h.ring[j] {
      Ascending(h, i, j);
    }
  }

  /** Free blocks are not the tail. */
  lemma FreeIndices(h: Heap)
    requires Inv(h)
    ensures forall a :: a in h.free ==> a in h.ring && IndexOf<nat>(h.ring, a) + 1 < |h.ring|
  {
    RingNoDup(h);
  }

  lemma {:induction false} FirstFitIn(h: Heap, fs: seq<nat>, n: nat)
    requires forall a :: a in fs ==> a in h.ring && IndexOf<nat>(h.ring, a) + 1 < |h.ring|
    ensures FirstFit(h, fs, n) == None ==> forall a :: a in fs ==> SizeOf(h, a) < n
    ensures FirstFit(h, fs, n).Some? ==> FirstFit(h, fs, n).value in fs && SizeOf(h, FirstFit(h, fs, n).value) >= n
  {
    if fs != [] {
      assert fs[0] in fs;
      FirstFitIn(h, fs[1..], n);
      assert fs == [fs[0]] + fs[1..];
    }
  }

  // ---------------------------------------------------------------- counting free bytes

  /** The sum splits at any block boundary. */
  lemma {:induction false} SumSplit(hdr: nat, ring: seq<nat>, used: set<nat>, i: nat)
    requires i < |ring|
    ensures FreeBytes(hdr, ring, used) == FreeBytes(hdr, ring[..i + 1], used) + FreeBytes(hdr, ring[i..], used)
  {
    if i > 0 {
      SumSplit(hdr, ring[1..], used, i - 1);
      assert ring[1..][..i] == ring[..i + 1][1..];
      assert ring[1..][i - 1..] == ring[i..];
    } else {
      assert ring[0..] == ring;
    }
  }

  /** Only the status of blocks within the range matters. */
  lemma {:induction false} SumSame(hdr: nat, ring: seq<nat>, used: set<nat>, other: set<nat>)
    requires forall i :: 0 <= i < |ring| - 1 ==> (ring[i] in used <==> ring[i] in other)
    ensures FreeBytes(hdr, ring, used) == FreeBytes(hdr, ring, other)
  {
    if |ring| >= 2 {
      SumSame(hdr, ring[1..], used, other);
    }
  }
}
