/** Allocation, release and reallocation keep the heap well formed, and what they promise. */
module MemheapSafety {

  import opened OrderedList
  import opened MemheapModel

  // ---------------------------------------------------------------- sums around one block

  ghost function Gap(hdr: nat, a: nat, b: nat, used: set<nat>): (r: int) {
    if a in used then 0 else b - a - hdr
  }

  /** The sum is that of the blocks before `i`, of block `i`, and of the blocks after it. */
  lemma SumAround(hdr: nat, ring: seq<nat>, used: set<nat>, i: nat)
    requires i + 1 < |ring|
    ensures FreeBytes(hdr, ring, used) ==
            FreeBytes(hdr, ring[..i + 1], used) + Gap(hdr, ring[i], ring[i + 1], used) + FreeBytes(hdr, ring[i + 1..], used)
  {
    SumSplit(hdr, ring, used, i);
    assert ring[i..][0] == ring[i] && ring[i..][1] == ring[i + 1] && ring[i..][1..] == ring[i + 1..];
  }

  /** Splitting block `i` at `x`. */
  lemma SumInsert(hdr: nat, ring: seq<nat>, used: set<nat>, i: nat, x: nat)
    requires i + 1 < |ring|
    ensures FreeBytes(hdr, InsertAfter<nat>(ring, i, x), used) ==
            FreeBytes(hdr, ring, used) - Gap(hdr, ring[i], ring[i + 1], used)
            + Gap(hdr, ring[i], x, used) + Gap(hdr, x, ring[i + 1], used)
  {
    var r := InsertAfter<nat>(ring, i, x);
    SumAround(hdr, ring, used, i);
    SumAround(hdr, r, used, i);
    SumAround(hdr, r, used, i + 1);
    assert r[..i + 1] == ring[..i + 1] && r[i + 2..] == ring[i + 1..];
    assert r[i + 1..][1..] == ring[i + 1..];
    SumAround(hdr, r[i + 1..], used, 0);
    assert r[i + 1..][..1] == [x];
  }

  /** Changing the status of one block. */
  lemma SumFlip(hdr: nat, ring: seq<nat>, used: set<nat>, other: set<nat>, i: nat)
    requires i + 1 < |ring| && NoDup(ring)
    requires forall a :: a != ring[i] ==> (a in used <==> a in other)
    ensures FreeBytes(hdr, ring, other) ==
            FreeBytes(hdr, ring, used) - Gap(hdr, ring[i], ring[i + 1], used) + Gap(hdr, ring[i], ring[i + 1], other)
  {
    SumAround(hdr, ring, used, i);
    SumAround(hdr, ring, other, i);
    SumSame(hdr, ring[..i + 1], used, other);
    SumSame(hdr, ring[i + 1..], used, other);
  }

  // ---------------------------------------------------------------- carving

  /** Block `i` is free and has room for `n` bytes. */
  ghost predicate Carvable(h: Heap, i: nat, n: nat) {
    h.align > 0 && i + 1 < |h.ring| && h.ring[i] !in h.used && Mini(h.align) <= n <= SizeAt(h, i)
  }

  lemma CarveTiled(h: Heap, i: nat, n: nat)
    requires Tiled(h) && Carvable(h, i, n)
    ensures Tiled(Carve(h, i, n))
  {
    var r := Carve(h, i, n);
    if SizeAt(h, i) >= n + h.hdr + Mini(h.align) {
      forall j | 0 <= j < |r.ring| - 1 ensures r.ring[j] + r.hdr + Mini(r.align) <= r.ring[j + 1] {
        assert j < i ==> r.ring[j] == h.ring[j] && r.ring[j + 1] == h.ring[j + 1];
        assert j > i + 1 ==> r.ring[j] == h.ring[j - 1] && r.ring[j + 1] == h.ring[j];
      }
    }
  }

  lemma InsertMembership(ring: seq<nat>, i: nat, x: nat)
    requires i < |ring|
    ensures forall a :: a in InsertAfter<nat>(ring, i, x) <==> a in ring || a == x
  {
    assert ring == ring[..i + 1] + ring[i + 1..];
  }

  lemma InsertIndex(ring: seq<nat>, i: nat, x: nat, j: nat)
    requires i < |ring| && j <= |ring|
    ensures |InsertAfter<nat>(ring, i, x)| == |ring| + 1
    ensures InsertAfter<nat>(ring, i, x)[j] == if j <= i then ring[j] else if j == i + 1 then x else ring[j - 1]
  {
  }

  lemma CarveCoalesced(h: Heap, i: nat, n: nat)
    requires Tiled(h) && Coalesced(h) && Carvable(h, i, n)
    ensures |Carve(h, i, n).ring| >= 2 && Coalesced(Carve(h, i, n))
  {
    hide InsertAfter, Remove, Tiled, Mini;
    if SizeAt(h, i) >= n + h.hdr + Mini(h.align) {
      SplitCoalesced(h.ring, h.used, i, h.ring[i] + n + h.hdr);
      InsertIndex(h.ring, i, h.ring[i] + n + h.hdr, 0);
    }
  }

  lemma SplitCoalesced(ring: seq<nat>, used: set<nat>, i: nat, x: nat)
    requires i + 1 < |ring| && ring[i] !in used && ring[|ring| - 1] in used && forall a :: a in used ==> a in ring
    requires forall j :: 0 <= j < |ring| - 1 ==> ring[j] in used || ring[j + 1] in used
    ensures var r := InsertAfter<nat>(ring, i, x); var u := used + {ring[i]};
            && r[|r| - 1] in u && (forall a :: a in u ==> a in r)
            && (forall j :: 0 <= j < |r| - 1 ==> r[j] in u || r[j + 1] in u)
  {
    hide InsertAfter;
    var r, u := InsertAfter<nat>(ring, i, x), used + {ring[i]};
    InsertMembership(ring, i, x);
    InsertIndex(ring, i, x, |ring|);
    forall j | 0 <= j < |r| - 1 ensures r[j] in u || r[j + 1] in u {
      InsertIndex(ring, i, x, j);
      InsertIndex(ring, i, x, j + 1);
      assert ring[i + 1] in used;
      if j < i {
        assert ring[j] in used || ring[j + 1] in used;
      } else if j > i + 1 {
        assert ring[j - 1] in used || ring[j - 1 + 1] in used;
      }
    }
  }

  /** An address strictly inside a block is no header. */
  lemma Inside(h: Heap, i: nat, x: nat)
    requires Tiled(h) && i + 1 < |h.ring| && h.ring[i] < x < h.ring[i + 1]
    ensures x !in h.ring
  {
    if j :| 0 <= j < |h.ring| && h.ring[j] == x {
      if j < i {
        Ascending(h, j, i);
      } else if j > i + 1 {
        Ascending(h, i + 1, j);
      }
    }
  }

  lemma CarveListed(h: Heap, i: nat, n: nat)
    requires Tiled(h) && Coalesced(h) && Listed(h) && Carvable(h, i, n)
    ensures Listed(Carve(h, i, n))
  {
    hide Tiled, Coalesced, Listed, InsertAfter, Mini, Remove;
    var a, x, r := h.ring[i], h.ring[i] + n + h.hdr, Carve(h, i, n);
    UseListed(h, i, r.used, Remove<nat>(h.free, a));
    if SizeAt(h, i) >= n + h.hdr + Mini(h.align) {
      InsideOf(h, i, n);
      NewListed(h.(used := r.used, free := Remove<nat>(h.free, a)), i, x, r);
    } else {
      SameListed(h.(used := r.used, free := Remove<nat>(h.free, a)), r);
    }
  }

  lemma InsideOf(h: Heap, i: nat, n: nat)
    requires Tiled(h) && Coalesced(h) && Carvable(h, i, n) && SizeAt(h, i) >= n + h.hdr + Mini(h.align)
    ensures var x := h.ring[i] + n + h.hdr; x !in h.ring && x !in h.used && x > h.ring[i]
  {
    Inside(h, i, h.ring[i] + n + h.hdr);
  }

  lemma UseListed(h: Heap, i: nat, used: set<nat>, free: seq<nat>)
    requires Listed(h) && i < |h.ring| && used == h.used + {h.ring[i]} && free == Remove(h.free, h.ring[i])
    ensures Listed(h.(used := used, free := free))
  {
    RemoveMembers(h.free, h.ring[i]);
  }

  lemma NewListed(h: Heap, i: nat, x: nat, r: Heap)
    requires Listed(h) && i < |h.ring| && x !in h.ring && x !in h.used
    requires r.ring == InsertAfter<nat>(h.ring, i, x) && r.used == h.used && r.free == [x] + h.free
    ensures Listed(r)
  {
    InsertMembership(h.ring, i, x);
  }

  lemma SameListed(h: Heap, r: Heap)
    requires Listed(h) && r.ring == h.ring && r.used == h.used && r.free == h.free
    ensures Listed(r)
  {
  }

  lemma CarveAccounted(h: Heap, i: nat, n: nat)
    requires Tiled(h) && Coalesced(h) && Accounted(h) && Carvable(h, i, n)
    ensures Accounted(Carve(h, i, n))
  {
    hide InsertAfter, Mini, FreeBytes, NoDup, Remove;
    var x, r := h.ring[i] + n + h.hdr, Carve(h, i, n);
    RingNoDup(h);
    SumFlip(h.hdr, h.ring, h.used, r.used, i);
    if SizeAt(h, i) >= n + h.hdr + Mini(h.align) {
      InsideOf(h, i, n);
      SumInsert(h.hdr, h.ring, r.used, i, x);
    }
  }

  lemma CarveKeeps(h: Heap, i: nat, n: nat)
    requires Inv(h) && Carvable(h, i, n)
    ensures Inv(Carve(h, i, n))
  {
    hide Tiled, Coalesced, Listed, Accounted, Carve;
    CarveTiled(h, i, n);
    CarveCoalesced(h, i, n);
    CarveListed(h, i, n);
    CarveAccounted(h, i, n);
  }

  // ---------------------------------------------------------------- releasing

  /** Neighbours are not both free, except perhaps around block `k`, on the sides named. */
  ghost predicate PairsBut(h: Heap, k: nat, left: bool, right: bool) {
    && k < |h.ring| && h.ring[|h.ring| - 1] in h.used && (forall a :: a in h.used ==> a in h.ring)
    && forall j :: 0 <= j < |h.ring| - 1 && !(left && j + 1 == k) && !(right && j == k) ==>
         h.ring[j] in h.used || h.ring[j + 1] in h.used
  }

  /** The free list lacks at most `x`. */
  ghost predicate ListedBut(h: Heap, x: nat) {
    && NoDup(h.free) && x !in h.free
    && (forall a :: a in h.free ==> a in h.ring && a !in h.used)
    && (forall a :: a in h.ring && a !in h.used && a != x ==> a in h.free)
  }

  lemma DropIndex(ring: seq<nat>, k: nat, j: nat)
    requires k < |ring| && j < |ring| - 1
    ensures |Drop<nat>(ring, k)| == |ring| - 1
    ensures Drop<nat>(ring, k)[j] == if j < k then ring[j] else ring[j + 1]
  {
  }

  lemma DropMembership(ring: seq<nat>, k: nat)
    requires k < |ring| && NoDup(ring)
    ensures forall a :: a in Drop<nat>(ring, k) <==> a in ring && a != ring[k]
  {
    assert ring == ring[..k] + [ring[k]] + ring[k + 1..];
  }

  lemma DropTiled(h: Heap, k: nat)
    requires Tiled(h) && 0 < k < |h.ring| - 1
    ensures Tiled(Merge(h, k))
  {
    var r := Merge(h, k);
    forall j | 0 <= j < |r.ring| - 1 ensures r.ring[j] + r.hdr + Mini(r.align) <= r.ring[j + 1] {
      DropIndex(h.ring, k, j);
      DropIndex(h.ring, k, j + 1);
    }
    DropIndex(h.ring, k, 0);
    DropIndex(h.ring, k, |h.ring| - 2);
  }

  lemma DropSum(h: Heap, k: nat)
    requires 0 < k < |h.ring| - 1 && h.ring[k] !in h.used && h.ring[k - 1] !in h.used
    ensures FreeBytes(h.hdr, Drop<nat>(h.ring, k), h.used) == FreeBytes(h.hdr, h.ring, h.used) + h.hdr
  {
    var d := Drop<nat>(h.ring, k);
    DropIndex(h.ring, k, k - 1);
    DropIndex(h.ring, k, k);
    assert InsertAfter<nat>(d, k - 1, h.ring[k]) == h.ring;
    SumInsert(h.hdr, d, h.used, k - 1, h.ring[k]);
  }

  lemma DropPairs(h: Heap, k: nat, left: bool)
    requires Tiled(h) && 0 < k < |h.ring| - 1 && h.ring[k] !in h.used && h.ring[k - 1] !in h.used
    requires if left then PairsBut(h, k, true, true) else PairsBut(h, k - 1, false, true)
    ensures PairsBut(Merge(h, k), k - 1, false, left)
  {
    hide Drop;
    var r := Merge(h, k);
    RingNoDup(h);
    DropMembership(h.ring, k);
    DropIndex(h.ring, k, |h.ring| - 2);
    forall j | 0 <= j < |r.ring| - 1 && !(left && j == k - 1) ensures r.ring[j] in h.used || r.ring[j + 1] in h.used {
      DropIndex(h.ring, k, j);
      DropIndex(h.ring, k, j + 1);
      if j < k - 1 {
        assert h.ring[j] in h.used || h.ring[j + 1] in h.used;
      } else if j == k - 1 {
        assert h.ring[k] in h.used || h.ring[k + 1] in h.used;
      } else {
        assert h.ring[j + 1] in h.used || h.ring[j + 1 + 1] in h.used;
      }
    }
  }

  lemma MarkFreeKeeps(h: Heap, i: nat)
    requires Inv(h) && i + 1 < |h.ring| && h.ring[i] in h.used
    ensures var r := MarkFree(h, i);
            && Tiled(r) && PairsBut(r, i, true, true) && ListedBut(r, h.ring[i])
            && r.avail == FreeBytes(r.hdr, r.ring, r.used) && r.pool - r.avail <= r.maxUsed
  {
    hide FreeBytes, Mini;
    var r := MarkFree(h, i);
    RingNoDup(h);
    SumFlip(h.hdr, h.ring, h.used, r.used, i);
    forall j | 0 <= j < |r.ring| - 1 && j + 1 != i && j != i ensures r.ring[j] in r.used || r.ring[j + 1] in r.used {
      assert h.ring[j] in h.used || h.ring[j + 1] in h.used;
    }
  }

  /** What holds before the right-hand merge of block `j`; `x` is missing from the free list. */
  ghost predicate Half(h: Heap, j: nat, x: nat) {
    && Tiled(h) && PairsBut(h, j, false, true) && ListedBut(h, x) && j + 1 < |h.ring| && h.ring[j] !in h.used
    && h.avail == FreeBytes(h.hdr, h.ring, h.used) && h.pool - h.avail <= h.maxUsed
  }

  lemma MergeLeftHalf(h: Heap, i: nat)
    requires Inv(h) && 0 < i && i + 1 < |h.ring| && h.ring[i] in h.used && h.ring[i - 1] !in h.used
    ensures Half(Merge(MarkFree(h, i), i), i - 1, h.ring[i])
    ensures h.ring[i] !in Merge(MarkFree(h, i), i).ring
  {
    hide Drop, FreeBytes, Mini;
    var h1 := MarkFree(h, i);
    MarkFreeKeeps(h, i);
    RingNoDup(h);
    DropTiled(h1, i);
    DropSum(h1, i);
    DropPairs(h1, i, true);
    DropMembership(h.ring, i);
    DropIndex(h.ring, i, i - 1);
  }

  lemma MergeRightShape(h: Heap, j: nat)
    requires Tiled(h) && PairsBut(h, j, false, true) && j + 1 < |h.ring| && h.ring[j] !in h.used
    requires h.avail == FreeBytes(h.hdr, h.ring, h.used)
    ensures var r := MergeRight(h, j);
            && Tiled(r) && Coalesced(r) && r.avail == FreeBytes(r.hdr, r.ring, r.used) && r.avail >= h.avail
  {
    hide Tiled, FreeBytes, Drop, Remove;
    var b := h.ring[j + 1];
    if b !in h.used {
      var h1 := h.(free := Remove<nat>(h.free, b));
      TiledSame(h, h1);
      DropTiled(h1, j + 1);
      DropSum(h1, j + 1);
      DropPairs(h1, j + 1, false);
    }
  }

  lemma TiledSame(h: Heap, r: Heap)
    requires Tiled(h) && r.hdr == h.hdr && r.align == h.align && r.pool == h.pool
    requires r.ring == h.ring && |r.bytes| == |h.bytes|
    ensures Tiled(r)
  {
  }

  lemma MergeRightListed(h: Heap, j: nat, x: nat)
    requires Tiled(h) && ListedBut(h, x) && j + 1 < |h.ring|
    ensures var r := MergeRight(h, j);
            && ListedBut(r, x) && r.used == h.used && h.ring[j] in r.ring && (forall a :: a in r.ring ==> a in h.ring)
  {
    var b := h.ring[j + 1];
    RingNoDup(h);
    DropMembership(h.ring, j + 1);
    RemoveMembers(h.free, b);
  }

  lemma MergeRightKeeps(h: Heap, j: nat, x: nat)
    requires Half(h, j, x)
    ensures var r := MergeRight(h, j);
            && Tiled(r) && Coalesced(r) && ListedBut(r, x) && Accounted(r)
            && h.ring[j] in r.ring && r.used == h.used && (forall a :: a in r.ring ==> a in h.ring)
  {
    hide Tiled, PairsBut, ListedBut, Coalesced, FreeBytes, Drop, Remove;
    MergeRightShape(h, j);
    MergeRightListed(h, j, x);
  }

  /** The block joins the free list when it was not merged to the left. */
  lemma JoinsList(h: Heap, x: nat)
    requires ListedBut(h, x) && x in h.ring && x !in h.used
    ensures Listed(h.(free := [x] + h.free))
  {
  }

  lemma MarkFreeHalf(h: Heap, i: nat)
    requires Inv(h) && i + 1 < |h.ring| && h.ring[i] in h.used && (i > 0 ==> h.ring[i - 1] in h.used)
    ensures Half(MarkFree(h, i), i, h.ring[i])
  {
    var r := MarkFree(h, i);
    MarkFreeKeeps(h, i);
    RingNoDup(h);
    assert i > 0 ==> r.ring[i - 1] in r.used;
  }

  /** Releasing a block merges it with whatever is free beside it. */
  lemma ReleaseKeeps(h: Heap, i: nat)
    requires Inv(h) && i + 1 < |h.ring| && h.ring[i] in h.used
    ensures Inv(Release(h, i)) && Release(h, i).used == h.used - {h.ring[i]}
  {
    hide Half, FreeBytes, Drop, MergeRight, PairsBut, ListedBut;
    var h1, a := MarkFree(h, i), h.ring[i];
    if i > 0 && h.ring[i - 1] !in h.used {
      MergeLeftHalf(h, i);
      MergeRightKeeps(Merge(h1, i), i - 1, a);
      AllListed(Release(h, i), a);
    } else {
      MarkFreeHalf(h, i);
      MergeRightKeeps(h1, i, a);
      JoinsList(MergeRight(h1, i), a);
    }
  }

  lemma AllListed(h: Heap, x: nat)
    requires ListedBut(h, x) && x !in h.ring
    ensures Listed(h)
  {
  }
}
