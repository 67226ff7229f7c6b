/** The memheap code itself: the fields of all block headers, indexed by header address, updated
    in place. */
module MemheapCode {

  import opened KernelTypes
  import opened OrderedList
  import opened MemheapModel
  import opened MemheapSafety
  import opened MemheapRealloc

  /** The address of `free_header`, outside the pool. */
  const HEAD := -1

  // ---------------------------------------------------------------- circular lists

  /** `next` and `prev` lead from each entry of `c` to the following one and back. */
  ghost predicate Linked(next: map<int, int>, prev: map<int, int>, c: seq<int>) {
    forall j :: 0 <= j < |c| - 1 ==> LinkAt(next, prev, c, j)
  }

  ghost predicate LinkAt(next: map<int, int>, prev: map<int, int>, c: seq<int>, j: int)
    requires 0 <= j < |c| - 1
  {
    c[j] in next && next[c[j]] == c[j + 1] && c[j + 1] in prev && prev[c[j + 1]] == c[j]
  }

  /** A closed walk: it comes back to its first entry and visits all others once. */
  ghost predicate Closed(c: seq<int>) {
    |c| >= 2 && c[0] == c[|c| - 1] && forall i, j :: 0 <= i < j < |c| && !(i == 0 && j == |c| - 1) ==> c[i] != c[j]
  }

  lemma LinkedAt(next: map<int, int>, prev: map<int, int>, c: seq<int>, j: nat)
    requires Linked(next, prev, c) && j < |c| - 1
    ensures c[j] in next && next[c[j]] == c[j + 1] && c[j + 1] in prev && prev[c[j + 1]] == c[j]
  {
    assert LinkAt(next, prev, c, j);
  }

  /** Linking `x` between two neighbours. */
  lemma InsertLinked(next: map<int, int>, prev: map<int, int>, c: seq<int>, i: nat, x: int)
    requires Linked(next, prev, c) && Closed(c) && i < |c| - 1 && x !in c
    ensures Linked(next[x := c[i + 1]][c[i] := x], prev[x := c[i]][c[i + 1] := x], InsertAfter<int>(c, i, x))
    ensures Closed(InsertAfter<int>(c, i, x))
  {
    InsertClosed(c, i, x);
    var d := InsertAfter<int>(c, i, x);
    assert forall j :: 0 <= j < |d| ==> d[j] == if j <= i then c[j] else if j == i + 1 then x else c[j - 1];
    var n, p := next[x := c[i + 1]][c[i] := x], prev[x := c[i]][c[i + 1] := x];
    forall j | 0 <= j < |d| - 1 ensures LinkAt(n, p, d, j) {
      if j < i {
        LinkedAt(next, prev, c, j);
        assert c[j] != c[i] && c[j + 1] != c[i + 1];
      } else if j > i + 1 {
        LinkedAt(next, prev, c, j - 1);
        assert c[j - 1] != c[i] && c[j] != c[i + 1];
      }
    }
  }

  lemma InsertClosed(c: seq<int>, i: nat, x: int)
    requires Closed(c) && i < |c| - 1 && x !in c
    ensures Closed(InsertAfter<int>(c, i, x))
  {
    var d := InsertAfter<int>(c, i, x);
    assert forall j :: 0 <= j < |d| ==> d[j] == if j <= i then c[j] else if j == i + 1 then x else c[j - 1];
    forall k, j | 0 <= k < j < |d| && !(k == 0 && j == |d| - 1) ensures d[k] != d[j] {
      var k2, j2 := if k <= i then k else k - 1, if j <= i then j else j - 1;
      if k != i + 1 && j != i + 1 {
        assert c[k2] != c[j2];
      }
    }
  }

  /** Unlinking an inner entry. */
  lemma CutLinked(next: map<int, int>, prev: map<int, int>, c: seq<int>, i: nat)
    requires Linked(next, prev, c) && Closed(c) && 0 < i < |c| - 1
    ensures Linked(next[c[i - 1] := c[i + 1]], prev[c[i + 1] := c[i - 1]], Drop<int>(c, i))
    ensures Closed(Drop<int>(c, i))
  {
    var d := Drop<int>(c, i);
    assert forall j :: 0 <= j < |d| ==> d[j] == if j < i then c[j] else c[j + 1];
    var n, p := next[c[i - 1] := c[i + 1]], prev[c[i + 1] := c[i - 1]];
    forall j | 0 <= j < |d| - 1 ensures LinkAt(n, p, d, j) {
      if j < i - 1 {
        LinkedAt(next, prev, c, j);
        assert c[j] != c[i - 1] && c[j + 1] != c[i + 1];
      } else if j > i - 1 {
        LinkedAt(next, prev, c, j + 1);
        assert c[j + 1] != c[i - 1] && c[j + 2] != c[i + 1];
      }
    }
  }

  /** A list of addresses as a closed walk through `start`. */
  function Walk(start: int, ns: seq<nat>): (c: seq<int>)
    ensures |c| == |ns| + 2 && c[0] == start && c[|c| - 1] == start
    ensures forall i :: 0 <= i < |ns| ==> c[i + 1] == ns[i]
  {
    [start] + seq(|ns|, i requires 0 <= i < |ns| => ns[i] as int) + [start]
  }

  ghost function UsedSet(ring: seq<nat>, used: map<int, bool>): (r: set<nat>) {
    set a | a in ring && a in used && used[a] :: a
  }

  lemma WalkInsert(ring: seq<nat>, i: nat, x: nat)
    requires i < |ring|
    ensures Walk(0, InsertAfter<nat>(ring, i, x)[1..]) == InsertAfter<int>(Walk(0, ring[1..]), i, x)
  {
    var r := InsertAfter<nat>(ring, i, x);
    forall j | 0 <= j < |r| - 1 ensures r[1..][j] == r[j + 1] {
    }
  }

  lemma WalkDrop(ring: seq<nat>, i: nat)
    requires 0 < i < |ring|
    ensures Walk(0, Drop<nat>(ring, i)[1..]) == Drop<int>(Walk(0, ring[1..]), i)
  {
    var r := Drop<nat>(ring, i);
    forall j | 0 <= j < |r| - 1 ensures r[1..][j] == r[j + 1] {
    }
  }

  lemma WalkPush(free: seq<nat>, x: nat)
    ensures Walk(HEAD, [x] + free) == InsertAfter<int>(Walk(HEAD, free), 0, x)
  {
  }

  lemma WalkRemove(free: seq<nat>, k: nat)
    requires k < |free| && NoDup(free)
    ensures Walk(HEAD, Remove(free, free[k])) == Drop<int>(Walk(HEAD, free), k + 1)
  {
    RemoveOnce(free, free[k], k);
    var r := free[..k] + free[k + 1..];
    WalkCut(free, k, r);
  }

  lemma WalkCut(free: seq<nat>, k: nat, r: seq<nat>)
    requires k < |free| && r == free[..k] + free[k + 1..]
    ensures Walk(HEAD, r) == Drop<int>(Walk(HEAD, free), k + 1)
  {
  }

  lemma UsedInsert(ring: seq<nat>, used: map<int, bool>, i: nat, x: nat)
    requires i < |ring| && x !in ring
    ensures UsedSet(InsertAfter<nat>(ring, i, x), used[x := false]) == UsedSet(ring, used)
  {
    InsertMembership(ring, i, x);
  }

  lemma UsedMark(ring: seq<nat>, used: map<int, bool>, a: nat, on: bool)
    requires a in ring
    ensures UsedSet(ring, used[a := on]) == if on then UsedSet(ring, used) + {a} else UsedSet(ring, used) - {a}
  {
  }

  lemma UsedDrop(ring: seq<nat>, used: map<int, bool>, i: nat)
    requires i < |ring| && NoDup(ring) && ring[i] !in UsedSet(ring, used) && forall a :: a in ring ==> a in used
    ensures UsedSet(Drop<nat>(ring, i), used) == UsedSet(ring, used)
  {
    DropMembership(ring, i);
  }

  class Memheap {
    const hdr: nat
    const align: nat
    const pool: nat
    /** Header fields, by address. */
    var next: map<int, int>
    var prev: map<int, int>
    var nextFree: map<int, int>
    var prevFree: map<int, int>
    var used: map<int, bool>
    var avail: int
    var maxUsed: int
    const bytes: array<Byte>
    ghost var ring: seq<nat>
    ghost var free: seq<nat>

    /** The block ring, starting and ending at the first block, and the free list through its
        header, are what the link fields say. */
    ghost predicate Linkage()
      reads this
    {
      && |ring| >= 2 && ring[0] == 0
      && Linked(next, prev, Walk(0, ring[1..])) && Closed(Walk(0, ring[1..]))
      && Linked(nextFree, prevFree, Walk(HEAD, free)) && Closed(Walk(HEAD, free))
      && forall a :: a in ring ==> a in used
    }

    ghost function Abs(): (r: Heap)
      reads this, bytes
    {
      Heap(hdr, align, pool, ring, UsedSet(ring, used), free, avail, maxUsed, bytes[..])
    }

    ghost predicate Valid()
      reads this, bytes
    {
      Linkage() && Inv(Abs()) && bytes.Length == pool
    }

    /** `rt_memheap_init`: one free block and the tail, in a pool of rounded size. */
    constructor (header: nat, alignment: nat, size: nat)
      requires alignment > 0 && header > 0 && RoundDown(size, alignment) >= 2 * header + Mini(alignment)
      ensures Valid() && fresh(bytes) && Abs() == Fresh(header, alignment, RoundDown(size, alignment), bytes[..])
    {
      var rounded := RoundDown(size, alignment);
      hdr, align, pool := header, alignment, rounded;
      var spare := rounded - 2 * header;
      avail, maxUsed := spare, rounded - spare;
      var tail := rounded - header;
      next, prev := map[0 := tail, tail := 0], map[0 := tail, tail := 0];
      nextFree, prevFree := map[HEAD := 0, 0 := HEAD], map[HEAD := 0, 0 := HEAD];
      used := map[0 := false, tail := true];
      bytes := new Byte[rounded](_ => 0);
      ring, free := [0, tail], [0];
      new;
      InitialLinks(tail);
      InitialUsed(tail, used);
      FreshInv(header, alignment, rounded, bytes[..]);
    }

    /** Reading the links around block `i`. */
    lemma Around(i: nat)
      requires Linkage() && i < |ring|
      ensures ring[i] in next && ring[i] in prev && ring[i] in used
      ensures next[ring[i]] == if i + 1 < |ring| then ring[i + 1] else 0
      ensures i > 0 ==> prev[ring[i]] == ring[i - 1]
      ensures i == 0 ==> prev[ring[i]] == ring[|ring| - 1]
    {
      var c := Walk(0, ring[1..]);
      assert c[i] == ring[i];
      LinkedAt(next, prev, c, i);
      LinkedAt(next, prev, c, if i > 0 then i - 1 else |ring| - 1);
    }

    /** Following the free list. */
    lemma FreeStep(k: nat)
      requires Linkage() && k <= |free|
      ensures var c := Walk(HEAD, free); c[k] in nextFree && nextFree[c[k]] == c[k + 1]
    {
      LinkedAt(nextFree, prevFree, Walk(HEAD, free), k);
    }

    /** A new block `x` behind block `i`. */
    method LinkBlock(a: nat, x: nat, ghost i: nat)
      requires Linkage() && i < |ring| && a == ring[i] && x !in ring && x > 0 && x in used
      modifies this`next, this`prev, this`ring
      ensures Linkage() && ring == InsertAfter<nat>(old(ring), i, x)
    {
      hide Linked, Closed, NoDup;
      ghost var c := Walk(0, ring[1..]);
      Around(i);
      InsertLinked(next, prev, c, i, x);
      WalkInsert(ring, i, x);
      prev := prev[x := a];
      next := next[x := next[a]];
      prev := prev[next[a] := x];
      next := next[a := x];
      ring := InsertAfter<nat>(ring, i, x);
    }

    /** Block `i` disappears from the ring. */
    method UnlinkBlock(x: nat, ghost i: nat)
      requires Linkage() && 0 < i < |ring| && x == ring[i] && |ring| > 2
      modifies this`next, this`prev, this`ring
      ensures Linkage() && ring == Drop<nat>(old(ring), i)
    {
      hide Linked, Closed, NoDup;
      ghost var c := Walk(0, ring[1..]);
      Around(i);
      CutLinked(next, prev, c, i);
      WalkDrop(ring, i);
      prev := prev[next[x] := prev[x]];
      next := next[prev[x] := next[x]];
      ring := Drop<nat>(ring, i);
    }

    /** A block joins the free list at its head. */
    method PushFree(x: nat)
      requires Linkage() && x !in free
      modifies this`nextFree, this`prevFree, this`free
      ensures Linkage() && free == [x] + old(free)
    {
      ghost var c := Walk(HEAD, free);
      LinkedAt(nextFree, prevFree, c, 0);
      InsertLinked(nextFree, prevFree, c, 0, x);
      WalkPush(free, x);
      nextFree := nextFree[x := nextFree[HEAD]];
      prevFree := prevFree[x := HEAD];
      prevFree := prevFree[nextFree[HEAD] := x];
      nextFree := nextFree[HEAD := x];
      free := [x] + free;
    }

    /** A block leaves the free list. */
    method UnlinkFree(x: nat)
      requires Linkage() && NoDup(free) && x in free
      modifies this`nextFree, this`prevFree, this`free
      ensures Linkage() && free == Remove(old(free), x)
    {
      hide Linked, Closed, Drop, NoDup, Remove;
      ghost var c := Walk(HEAD, free);
      ghost var k :| 0 <= k < |free| && free[k] == x;
      LinkedAt(nextFree, prevFree, c, k + 1);
      LinkedAt(nextFree, prevFree, c, k);
      CutLinked(nextFree, prevFree, c, k + 1);
      WalkRemove(free, k);
      prevFree := prevFree[nextFree[x] := prevFree[x]];
      nextFree := nextFree[prevFree[x] := nextFree[x]];
      free := Remove(free, x);
    }

    /** MEMITEM_SIZE. */
    method ItemSize(a: nat, ghost i: nat) returns (n: int)
      requires Linkage() && i + 1 < |ring| && a == ring[i]
      ensures n == SizeAt(Abs(), i)
    {
      Around(i);
      n := next[a] - a - hdr;
    }

    /** The header's `magic` field. */
    method Mark(a: nat, on: bool)
      requires Linkage() && a in ring
      modifies this`used
      ensures Linkage() && Abs().used == (if on then old(Abs()).used + {a} else old(Abs()).used - {a})
    {
      hide Linked, Closed, Walk;
      UsedMark(ring, used, a, on);
      used := used[a := on];
    }

    /** A new free block `x` behind block `i`; the free list does not know it yet. */
    method NewBlock(a: nat, x: nat, ghost i: nat)
      requires Linkage() && i < |ring| && a == ring[i] && x !in ring && x > 0
      modifies this`next, this`prev, this`ring, this`used
      ensures Linkage() && ring == InsertAfter<nat>(old(ring), i, x) && Abs().used == old(Abs()).used
    {
      hide Linked, Closed, Walk, InsertAfter, UsedSet;
      UsedInsert(ring, used, i, x);
      used := used[x := false];
      LinkBlock(a, x, i);
    }

    method Charge(n: int)
      modifies this`avail, this`maxUsed
      ensures avail == old(avail) - n && maxUsed == Peak(old(Abs()), avail)
    {
      avail := avail - n;
      if pool - avail > maxUsed {
        maxUsed := pool - avail;
      }
    }

    /** The part of `rt_memheap_alloc` that runs once a block is found. */
    method CarveBlock(a: nat, size: nat, ghost i: nat)
      requires Valid() && Carvable(Abs(), i, size) && a == ring[i]
      modifies this
      ensures Linkage() && Abs() == Carve(old(Abs()), i, size)
    {
      hide Linked, Closed, Walk, InsertAfter, UsedSet, FreeBytes, Remove, Mini;
      CarveReady(Abs(), i, size);
      var freeSize := ItemSize(a, i);
      if freeSize >= size + hdr + Mini(align) {
        var x := a + size + hdr;
        NewBlock(a, x, i);
        UnlinkFree(a);
        PushFree(x);
        Charge(size + hdr);
      } else {
        UnlinkFree(a);
        Charge(freeSize);
      }
      Mark(a, true);
    }

    /** The search loop of `rt_memheap_alloc`. */
    method FindFit(size: nat) returns (a: int, freeSize: int)
      requires Valid() && size > 0
      ensures forall b :: b in free ==> b in ring && IndexOf<nat>(ring, b) + 1 < |ring|
      ensures freeSize >= size <==> FirstFit(Abs(), free, size).Some?
      ensures freeSize >= size ==> FirstFit(Abs(), free, size) == Some(a)
    {
      hide Linkage, Inv, Walk, SizeAt, NoDup, Linked, Closed;
      ghost var h, c := Abs(), Walk(HEAD, free);
      FreeIndices(h);
      FreeStep(0);
      a, freeSize := nextFree[HEAD], 0;
      ghost var k := 0;
      while a != HEAD && freeSize < size
        invariant k <= |free| && a == c[k + 1]
        invariant freeSize < size ==> FirstFit(h, free[k..], size) == FirstFit(h, free, size)
        invariant freeSize >= size ==> FirstFit(h, free, size) == Some(a)
        decreases |free| - k, if freeSize < size then 1 else 0
      {
        assert k < |free| && free[k] == a && free[k] in free;
        assert free[k..][1..] == free[k + 1..];
        freeSize := ItemSize(a, IndexOf<nat>(ring, a));
        if freeSize < size {
          FreeStep(k + 1);
          a := nextFree[a];
          k := k + 1;
        }
      }
    }

    /** `rt_memheap_alloc`. */
    method RtAlloc(n: nat) returns (p: Option<nat>)
      requires Valid()
      modifies this
      ensures Valid() && (Abs(), p) == Alloc(old(Abs()), n)
    {
      hide Linkage, Carve, Carvable, FirstFit, Inv, IndexOf, Mini;
      ghost var h := Abs();
      BlockSizes(h, 0);
      RequestBounds(h, n);
      var size := RequestFor(align, n);
      if size < avail {
        var a, freeSize := FindFit(size);
        if freeSize >= size {
          FirstFitIn(h, h.free, size);
          ghost var i := IndexOf<nat>(ring, a);
          FitIsCarvable(h, a, size);
          CarveKeeps(h, i, size);
          CarveBlock(a, size, i);
          return Some(a + hdr);
        }
      }
      p := None;
    }

    /** Block `i` is swallowed by the block before it. */
    method SwallowBlock(x: nat, ghost i: nat)
      requires Linkage() && NoDup(ring) && 0 < i < |ring| && x == ring[i] && |ring| > 2 && x !in Abs().used
      modifies this`next, this`prev, this`ring, this`avail
      ensures Linkage() && Abs() == Merge(old(Abs()), i)
    {
      hide Linked, Closed, Walk, Drop, NoDup;
      UsedDrop(ring, used, i);
      UnlinkBlock(x, i);
      avail := avail + hdr;
    }

    /** The right-hand merge of `rt_memheap_free`. */
    method MergeWithRight(a: nat, ghost j: nat)
      requires Linkage() && NoDup(ring) && NoDup(free) && j + 1 < |ring| && a == ring[j]
      requires ring[j + 1] !in Abs().used ==> |ring| > 2 && ring[j + 1] in free
      modifies this
      ensures Linkage() && Abs() == MergeRight(old(Abs()), j)
    {
      hide Linked, Closed, Walk, Drop, NoDup, Remove;
      Around(j);
      Around(j + 1);
      var b := next[a];
      if !used[b] {
        UnlinkFree(b);
        SwallowBlock(b, j + 1);
      }
    }

    /** `rt_memheap_free`, for the header of a live block. */
    method RtFree(a: nat, ghost i: nat)
      requires Valid() && i + 1 < |ring| && a == ring[i] && a in Abs().used
      modifies this
      ensures Valid() && Abs() == Release(old(Abs()), i)
    {
      hide Linked, Closed, Walk, Drop, FreeBytes, Inv, MergeRight, NoDup;
      ghost var h := Abs();
      ReleaseReady(h, i);
      ReleaseKeeps(h, i);
      Around(i);
      var size := ItemSize(a, i);
      var p := prev[a];
      var left := !used[p];
      PrevFree(i);
      Mark(a, false);
      avail := avail + size;
      assert Abs() == MarkFree(h, i);
      if left {
        SwallowBlock(a, i);
        MergeWithRight(p, i - 1);
      } else {
        MergeWithRight(a, i);
        PushFree(a);
      }
    }

    /** The left neighbour of the first block is the tail, which is used. */
    lemma PrevFree(i: nat)
      requires Valid() && i + 1 < |ring|
      ensures ring[i] in prev && prev[ring[i]] in used && prev[ring[i]] >= 0
      ensures !used[prev[ring[i]]] <==> i > 0 && ring[i - 1] !in Abs().used
      ensures i > 0 ==> prev[ring[i]] == ring[i - 1]
    {
      Around(i);
    }

    /** `_remove_next_ptr`: a free block leaves both the free list and the ring. */
    method RemoveNextPtr(b: nat, ghost j: nat)
      requires Linkage() && NoDup(ring) && NoDup(free) && 0 < j < |ring| && b == ring[j] && |ring| > 2
      requires b in free && b !in Abs().used
      modifies this`next, this`prev, this`ring, this`nextFree, this`prevFree, this`free
      ensures Linkage() && Abs() == old(Abs()).(ring := Drop<nat>(old(ring), j), free := Remove(old(free), b))
    {
      hide Linked, Closed, Walk, Drop, NoDup, Remove;
      UsedDrop(ring, used, j);
      UnlinkFree(b);
      UnlinkBlock(b, j);
    }

    /** In-place growth in `rt_memheap_realloc`: the free neighbour is taken out of both lists and
        a new one is built behind the grown block. */
    method GrowBlock(a: nat, size: nat, ghost i: nat)
      requires Valid() && Movable(Abs(), i, size) && a == ring[i]
      modifies this
      ensures Linkage() && Abs() == Grow(old(Abs()), i, size)
    {
      hide Linked, Closed, Walk, Drop, InsertAfter, FreeBytes, NoDup, Remove, Inv, Mini, UsedSet;
      MoveReady(Abs(), i, size);
      Around(i);
      var nextPtr := next[a];
      var have := ItemSize(a, i);
      Charge(size - have);
      RemoveNextPtr(nextPtr, i + 1);
      nextPtr := a + hdr + size;
      NewBlock(a, nextPtr, i);
      PushFree(nextPtr);
    }

    /** Shrinking when the right neighbour is free: the new block swallows it. */
    method ShrinkMerge(a: nat, size: nat, ghost i: nat)
      requires Valid() && Movable(Abs(), i, size) && a == ring[i] && size + hdr + Mini(align) < SizeAt(Abs(), i)
      modifies this
      ensures Linkage() && Abs() == MoveBoundary(old(Abs()), i, size)
    {
      hide Linked, Closed, Walk, Drop, InsertAfter, FreeBytes, NoDup, Remove, Inv, Mini, UsedSet;
      ShrinkReady(Abs(), i, size);
      Around(i);
      var x, freePtr := a + size + hdr, next[a];
      var freeSize := ItemSize(freePtr, i + 1);
      NewBlock(a, x, i);
      avail := avail - freeSize;
      RemoveNextPtr(freePtr, i + 2);
      PushFree(x);
      var newSize := ItemSize(x, i + 1);
      avail := avail + newSize;
    }

    /** Shrinking when the right neighbour is used. */
    method ShrinkSplit(a: nat, size: nat, ghost i: nat)
      requires Valid() && Splittable(Abs(), i, size) && a == ring[i]
      modifies this
      ensures Linkage() && Abs() == Split(old(Abs()), i, size)
    {
      hide Linked, Closed, Walk, Drop, InsertAfter, FreeBytes, NoDup, Remove, Inv, Mini, UsedSet;
      SplitReady(Abs(), i, size);
      var x := a + size + hdr;
      NewBlock(a, x, i);
      PushFree(x);
      var newSize := ItemSize(x, i + 1);
      avail := avail + newSize;
    }

    /** `rt_memcpy` between two payloads that do not overlap. */
    method CopyPayload(to: nat, from: nat, n: nat)
      requires to + n <= bytes.Length && from + n <= bytes.Length && (to + n <= from || from + n <= to)
      modifies bytes
      ensures bytes[..] == CopyBytes(old(bytes[..]), to, from, n)
    {
      var j := 0;
      while j < n
        invariant j <= n
        invariant forall k :: 0 <= k < bytes.Length ==>
                    bytes[k] == if to <= k < to + j then old(bytes[from + (k - to)]) else old(bytes[k])
      {
        bytes[to + j] := bytes[from + j];
        j := j + 1;
      }
    }

    /** The branch of `rt_memheap_realloc` that allocates, copies and releases. */
    method MoveBlock(a: nat, size: nat, ghost i: nat) returns (q: Option<nat>)
      requires Valid() && i + 1 < |ring| && a == ring[i] && a in Abs().used && SizeAt(Abs(), i) < size
      modifies this, bytes
      ensures Valid() && (Abs(), q) == Move(old(Abs()), i, size)
    {
      hide Linkage, Inv, Alloc, Release;
      ghost var h := Abs();
      MoveReadyAlloc(h, i, size);
      var have := ItemSizeOf(a, i);
      q := RtAlloc(size);
      if q.Some? {
        CopyPayload(q.value, a + hdr, have);
        CopiedInv(Alloc(h, size).0, q.value, a + hdr, have);
        RtFree(a, IndexOf<nat>(ring, a));
      }
    }

    method ItemSizeOf(a: nat, ghost i: nat) returns (n: nat)
      requires Valid() && i + 1 < |ring| && a == ring[i]
      ensures n == SizeAt(Abs(), i)
    {
      BlockSizes(Abs(), i);
      n := ItemSize(a, i);
    }

    /** `rt_memheap_realloc`. */
    method RtRealloc(ptr: Option<nat>, n: nat) returns (q: Option<nat>)
      requires Valid() && Owned(Abs(), ptr)
      modifies this, bytes
      ensures Valid() && (Abs(), q) == Realloc(old(Abs()), ptr, n)
    {
      hide Linkage, Inv, Alloc, Release, Move, Grow, Shrink, Mini;
      ghost var h := Abs();
      BlockSizes(h, 0);
      if ptr == None {
        if n == 0 {
          return None;
        }
        q := RtAlloc(RequestFor(align, n));
        return;
      }
      var a := ptr.value - hdr;
      ghost var i := IndexOf<nat>(ring, a);
      OwnedIndex(h, ptr.value);
      if n == 0 {
        RtFree(a, i);
        return None;
      }
      var size := RequestFor(align, n);
      RequestBounds(h, n);
      BlockSizes(h, i);
      BlockSizes(h, i + 1);
      TailUsed(h);
      var have := ItemSizeOf(a, i);
      if size > have {
        q := Enlarge(a, size, have, i);
      } else if size + hdr + Mini(align) >= have {
        q := ptr;
      } else {
        Reduce(a, size, i);
        q := ptr;
      }
    }

    /** The branch of `rt_memheap_realloc` for a larger size. */
    method Enlarge(a: nat, size: nat, have: nat, ghost i: nat) returns (q: Option<nat>)
      requires Valid() && i + 1 < |ring| && a == ring[i] && a in Abs().used && SizeAt(Abs(), i) == have < size
      requires Mini(align) <= size
      modifies this, bytes
      ensures Valid()
      ensures var h := old(Abs());
              (Abs(), q) == if h.ring[i + 1] !in h.used && i + 2 < |h.ring| && SizeAt(h, i + 1) + have > size + Mini(align)
                            then (Grow(h, i, size), Some(a + hdr)) else Move(h, i, size)
    {
      hide Linked, Closed, Walk, Inv, Move, Grow, Mini, Carve, Release;
      ghost var h := Abs();
      TailUsed(h);
      BlockSizes(h, i);
      Around(i);
      Around(i + 1);
      var nextPtr := next[a];
      if !used[nextPtr] {
        var nextSize := ItemSize(nextPtr, i + 1);
        if nextSize + have > size + Mini(align) {
          GrowKeeps(h, i, size);
          GrowBlock(a, size, i);
          return Some(a + hdr);
        }
      }
      q := MoveBlock(a, size, i);
    }

    /** The branch of `rt_memheap_realloc` that gives back the end of the block. */
    method Reduce(a: nat, size: nat, ghost i: nat)
      requires Valid() && i + 1 < |ring| && a == ring[i] && a in Abs().used
      requires Mini(align) <= size && size + hdr + Mini(align) < SizeAt(Abs(), i)
      modifies this
      ensures Valid() && Abs() == Shrink(old(Abs()), i, size)
    {
      hide Linked, Closed, Walk, Inv, MoveBoundary, Split, Mini;
      ghost var h := Abs();
      TailUsed(h);
      BlockSizes(h, i);
      BlockSizes(h, i + 1);
      ShrinkKeeps(h, i, size);
      Around(i);
      Around(i + 1);
      var nextPtr := next[a];
      if !used[nextPtr] {
        ShrinkMerge(a, size, i);
      } else {
        ShrinkSplit(a, size, i);
      }
    }
  }

  lemma CarveReady(h: Heap, i: nat, n: nat)
    requires Inv(h) && Carvable(h, i, n)
    ensures i + 1 < |h.ring| && NoDup(h.free) && h.ring[i] in h.free
    ensures SizeAt(h, i) >= n + h.hdr + Mini(h.align) ==>
              var x := h.ring[i] + n + h.hdr;
              && x > 0 && x !in h.ring && x !in Remove(h.free, h.ring[i]) && h.ring[i] in InsertAfter<nat>(h.ring, i, x)
  {
    RemoveMembers(h.free, h.ring[i]);
    if SizeAt(h, i) >= n + h.hdr + Mini(h.align) {
      Inside(h, i, h.ring[i] + n + h.hdr);
      InsertMembership(h.ring, i, h.ring[i] + n + h.hdr);
    }
  }

  /** What the merges of a release need to know. */
  lemma ReleaseReady(h: Heap, i: nat)
    requires Inv(h) && i + 1 < |h.ring| && h.ring[i] in h.used
    ensures NoDup(h.ring) && NoDup(h.free) && h.ring[i] !in h.free && |MarkFree(h, i).ring| >= 2
    ensures var h1 := MarkFree(h, i);
            if i > 0 && h.ring[i - 1] !in h.used then
              var h2 := Merge(h1, i);
              && |h.ring| > 2 && NoDup(h2.ring) && h2.ring[i - 1] == h.ring[i - 1] && i < |h2.ring|
              && (h2.ring[i] !in h2.used ==> |h2.ring| > 2 && h2.ring[i] in h2.free)
            else
              && (h1.ring[i + 1] !in h1.used ==> |h1.ring| > 2 && h1.ring[i + 1] in h1.free)
              && h.ring[i] !in MergeRight(h1, i).free
  {
    hide Tiled, FreeBytes, Accounted, Mini;
    InvParts(h);
    InvRing(h);
    if i > 0 && h.ring[i - 1] !in h.used {
      ReleaseReadyLeft(h, i);
    } else {
      RemoveMembers(h.free, h.ring[i + 1]);
      assert h.ring[i] != h.ring[i + 1];
    }
  }

  lemma InvParts(h: Heap)
    requires Inv(h)
    ensures Tiled(h) && Coalesced(h) && Listed(h) && |h.ring| >= 2
  {
  }

  lemma ReleaseReadyLeft(h: Heap, i: nat)
    requires Inv(h) && 0 < i && i + 1 < |h.ring| && h.ring[i] in h.used && h.ring[i - 1] !in h.used
    ensures var h2 := Merge(MarkFree(h, i), i);
            && |h.ring| > 2 && NoDup(h2.ring) && i < |h2.ring| && h2.ring[i - 1] == h.ring[i - 1]
            && (h2.ring[i] !in h2.used ==> |h2.ring| > 2 && h2.ring[i] in h2.free)
  {
    hide FreeBytes, Accounted, Mini, Drop, Tiled, ListedBut, PairsBut;
    MergeLeftHalf(h, i);
    HalfFacts(Merge(MarkFree(h, i), i), i - 1, h.ring[i]);
    MergedIndex(h, i);
  }

  lemma MergedIndex(h: Heap, i: nat)
    requires 0 < i && i + 1 < |h.ring|
    ensures var h2 := Merge(MarkFree(h, i), i); i < |h2.ring| && h2.ring[i - 1] == h.ring[i - 1]
  {
    DropIndex(h.ring, i, i - 1);
  }

  lemma HalfFacts(h: Heap, j: nat, x: nat)
    requires Half(h, j, x) && x !in h.ring
    ensures NoDup(h.ring) && j + 1 < |h.ring|
    ensures h.ring[j + 1] !in h.used ==> |h.ring| > 2 && h.ring[j + 1] in h.free
  {
    RingNoDup(h);
  }

  lemma MoveReady(h: Heap, i: nat, n: nat)
    requires Inv(h) && Movable(h, i, n)
    ensures i + 2 < |h.ring| && NoDup(h.free) && NoDup(h.ring) && h.ring[i + 1] in h.free && h.ring[i + 1] !in h.used
    ensures var x := h.ring[i] + h.hdr + n; var d := Drop<nat>(h.ring, i + 1);
            && |d| == |h.ring| - 1 && d[i] == h.ring[i] && x > 0 && x !in d && x !in Remove(h.free, h.ring[i + 1])
            && InsertAfter<nat>(d, i, x) == h.ring[i + 1 := x]
            && SizeAt(h, i) < h.ring[i + 1]
  {
    InvParts(h);
    InvRing(h);
    MoveReadyLists(h, i, n);
    var x, d := h.ring[i] + h.hdr + n, Drop<nat>(h.ring, i + 1);
    DropIndex(h.ring, i + 1, i);
  }

  lemma MoveReadyLists(h: Heap, i: nat, n: nat)
    requires Tiled(h) && Listed(h) && NoDup(h.ring) && Movable(h, i, n)
    ensures h.ring[i + 1] in h.free
    ensures var x := h.ring[i] + h.hdr + n;
            x > 0 && x !in Drop<nat>(h.ring, i + 1) && x !in Remove(h.free, h.ring[i + 1])
  {
    hide FreeBytes;
    MoveMembership(h, i, n);
    DropMembership(h.ring, i + 1);
    RemoveMembers(h.free, h.ring[i + 1]);
  }

  lemma ShrinkReady(h: Heap, i: nat, n: nat)
    requires Inv(h) && Movable(h, i, n) && n + h.hdr + Mini(h.align) < SizeAt(h, i)
    ensures i + 2 < |h.ring| && NoDup(h.free) && h.ring[i + 1] in h.free && h.ring[i + 1] !in h.used
    ensures var x := h.ring[i] + n + h.hdr; var r := InsertAfter<nat>(h.ring, i, x);
            && x > 0 && x !in h.ring && x !in Remove(h.free, h.ring[i + 1])
            && |r| == |h.ring| + 1 && NoDup(r) && r[i + 2] == h.ring[i + 1] && r[i + 1] == x
            && Drop<nat>(r, i + 2) == h.ring[i + 1 := x]
  {
    hide FreeBytes, Coalesced, Mini, NoDup;
    InvParts(h);
    InvRing(h);
    var x := h.ring[i] + n + h.hdr;
    MoveReadyLists(h, i, n);
    NewInside(h, i, x);
    InsertDistinct(h.ring, i, x);
    InsertIndex(h.ring, i, x, i + 1);
    InsertIndex(h.ring, i, x, i + 2);
  }

  lemma NewInside(h: Heap, i: nat, x: nat)
    requires Inv(h) && i + 1 < |h.ring| && h.ring[i] + h.hdr <= x < h.ring[i + 1]
    ensures x > 0 && x !in h.ring && x !in h.free
  {
    Inside(h, i, x);
  }

  lemma InsertDistinct(ring: seq<nat>, i: nat, x: nat)
    requires NoDup(ring) && i < |ring| && x !in ring
    ensures NoDup(InsertAfter<nat>(ring, i, x))
  {
    var r := InsertAfter<nat>(ring, i, x);
    forall k, j | 0 <= k < j < |r| ensures r[k] != r[j] {
      assert r[k] == if k <= i then ring[k] else if k == i + 1 then x else ring[k - 1];
      assert r[j] == if j <= i then ring[j] else if j == i + 1 then x else ring[j - 1];
    }
  }

  lemma SplitReady(h: Heap, i: nat, n: nat)
    requires Inv(h) && Splittable(h, i, n)
    ensures var x := h.ring[i] + n + h.hdr; var r := InsertAfter<nat>(h.ring, i, x);
            && x > 0 && x !in h.ring && x !in h.free
            && |r| == |h.ring| + 1 && r[i + 1] == x && r[i + 2] == h.ring[i + 1]
  {
    hide Inv, InsertAfter, Mini;
    var x := h.ring[i] + n + h.hdr;
    NewInside(h, i, x);
    InsertIndex(h.ring, i, x, i + 1);
    InsertIndex(h.ring, i, x, i + 2);
  }

  /** After a successful allocation the old block is still there, apart from the new one. */
  lemma MoveReadyAlloc(h: Heap, i: nat, size: nat)
    requires Inv(h) && i + 1 < |h.ring| && h.ring[i] in h.used && SizeAt(h, i) < size
    ensures var (r, q) := Alloc(h, size); var a, have := h.ring[i], SizeAt(h, i);
            && Inv(r) && 0 <= have && r.hdr == h.hdr && |r.bytes| == |h.bytes|
            && (q.Some? ==>
                  && a in r.ring && IndexOf<nat>(r.ring, a) + 1 < |r.ring| && r.ring[IndexOf<nat>(r.ring, a)] == a && a in r.used
                  && q.value + have <= |r.bytes| && a + h.hdr + have <= |r.bytes|
                  && (q.value + have <= a + h.hdr || a + h.hdr + have <= q.value))
  {
    hide Inv, Alloc, LiveBlock, IndexOf, Mini;
    var (r, q) := Alloc(h, size);
    AllocGives(h, size);
    BlockSizes(h, i);
    var a, have := h.ring[i], SizeAt(h, i);
    IsLive(h, i);
    if q.Some? {
      var b := q.value - h.hdr;
      var m :| m >= size && LiveBlock(r, b, m);
      BlockInPool(r, b, m);
      BlockInPool(r, a, have);
      LiveIndex(r, a, have);
      LiveUsed(r, a, have);
      LiveUsed(h, a, have);
      LiveApart(r, a, have, b, m);
    }
  }

  lemma InitialLinks(tail: nat)
    requires tail > 0
    ensures var c, m := Walk(0, [0, tail][1..]), map[0 := tail as int, tail := 0]; Linked(m, m, c) && Closed(c)
    ensures var c, m := Walk(HEAD, [0]), map[HEAD := 0, 0 := HEAD]; Linked(m, m, c) && Closed(c)
  {
    assert Walk(0, [0, tail][1..]) == [0, tail, 0] && Walk(HEAD, [0]) == [HEAD, 0, HEAD];
  }

  lemma InitialUsed(tail: nat, used: map<int, bool>)
    requires tail > 0 && used == map[0 := false, tail := true]
    ensures UsedSet([0, tail], used) == {tail}
  {
    forall a | a in UsedSet([0, tail], used) ensures a == tail {
      assert a in [0, tail] && used[a];
    }
    assert tail in [0, tail] && used[tail];
  }
}
