/** The ordered lists of the kernel (waiting threads by priority, timers by deadline): removal
    of one entry, and insertion behind everything that is not later. */
module OrderedList {

  ghost predicate NoDup<T>(ws: seq<T>) {
    forall i, j :: 0 <= i < j < |ws| ==> ws[i] != ws[j]
  }

  ghost predicate SortedBy<T>(key: T -> nat, ws: seq<T>) {
    forall i, j :: 0 <= i < j < |ws| ==> key(ws[i]) <= key(ws[j])
  }

  /** The first position whose key is strictly greater than `p`. */
  function FindPos<T>(key: T -> nat, ws: seq<T>, p: nat): (k: nat)
    ensures k <= |ws|
    ensures forall i :: 0 <= i < k ==> key(ws[i]) <= p
    ensures k < |ws| ==> p < key(ws[k])
  {
    if ws == [] || p < key(ws[0]) then 0 else 1 + FindPos(key, ws[1..], p)
  }

  /** The position is the only one with these properties in a sorted list. */
  lemma {:induction false} FindPosIs<T>(key: T -> nat, ws: seq<T>, p: nat, k: nat)
    requires k <= |ws| && (forall i :: 0 <= i < k ==> key(ws[i]) <= p) && (k < |ws| ==> p < key(ws[k]))
    ensures FindPos(key, ws, p) == k
  {
    if k > 0 {
      FindPosIs(key, ws[1..], p, k - 1);
    }
  }

  /** Ordered insertion: behind every entry whose key is not greater. */
  function InsertOrdered<T>(key: T -> nat, ws: seq<T>, t: T): (r: seq<T>) {
    var k := FindPos(key, ws, key(t));
    ws[..k] + [t] + ws[k..]
  }

  /** Unlinks the first occurrence of `t`; a list without `t` is left as it is. */
  function Remove<T(==)>(ws: seq<T>, t: T): (r: seq<T>) {
    if ws == [] then []
    else if ws[0] == t then ws[1..]
    else [ws[0]] + Remove(ws[1..], t)
  }

  lemma {:induction false} RemoveOnce<T>(ws: seq<T>, t: T, k: nat)
    requires NoDup(ws) && k < |ws| && ws[k] == t
    ensures Remove(ws, t) == ws[..k] + ws[k + 1..]
  {
    if k == 0 {
    } else {
      RemoveOnce(ws[1..], t, k - 1);
      assert ws[0] != t;
      assert ws[..k] == [ws[0]] + ws[1..][..k - 1];
    }
  }

  lemma {:induction false} RemoveAbsent<T>(ws: seq<T>, t: T)
    requires t !in ws
    ensures Remove(ws, t) == ws
  {
    if ws != [] {
      RemoveAbsent(ws[1..], t);
    }
  }

  /** The position of an entry. */
  function IndexOf<T(==)>(ws: seq<T>, t: T): (k: nat)
    requires t in ws
    ensures k < |ws| && ws[k] == t
  {
    if ws[0] == t then 0 else 1 + IndexOf(ws[1..], t)
  }

  /** Linking `t` behind entry `i`. */
  function InsertAfter<T>(ws: seq<T>, i: nat, t: T): (r: seq<T>)
    requires i < |ws|
  {
    ws[..i + 1] + [t] + ws[i + 1..]
  }

  /** Unlinking entry `i`. */
  function Drop<T>(ws: seq<T>, i: nat): (r: seq<T>)
    requires i < |ws|
  {
    ws[..i] + ws[i + 1..]
  }

  /** The list is sorted when `t` is overlooked. */
  ghost predicate SortedBut<T>(key: T -> nat, ws: seq<T>, t: T) {
    forall i, j :: 0 <= i < j < |ws| && ws[i] != t && ws[j] != t ==> key(ws[i]) <= key(ws[j])
  }

  lemma {:induction false} RemoveMembers<T>(ws: seq<T>, t: T)
    requires NoDup(ws)
    ensures NoDup(Remove(ws, t)) && t !in Remove(ws, t)
    ensures forall x :: x in Remove(ws, t) ==> x in ws
    ensures forall x :: x in ws && x != t ==> x in Remove(ws, t)
  {
    if ws != [] {
      RemoveMembers(ws[1..], t);
      assert ws[0] !in ws[1..];
      assert ws == [ws[0]] + ws[1..];
    }
  }

  /** Removal keeps the other entries, their order and their distinctness. */
  lemma {:induction false} RemoveKeeps<T>(key: T -> nat, ws: seq<T>, t: T)
    requires NoDup(ws) && SortedBut(key, ws, t)
    ensures SortedBy(key, Remove(ws, t))
  {
    if ws != [] && ws[0] != t {
      var rest := Remove(ws[1..], t);
      RemoveKeeps(key, ws[1..], t);
      RemoveMembers(ws[1..], t);
      forall j | 0 <= j < |rest| ensures key(ws[0]) <= key(rest[j]) {
        assert rest[j] in ws[1..];
      }
    } else if ws != [] {
      assert forall i :: 0 <= i < |ws| - 1 ==> ws[1..][i] == ws[i + 1] && ws[i + 1] != t;
    }
  }

  lemma InsertMembers<T>(key: T -> nat, ws: seq<T>, t: T)
    requires NoDup(ws) && t !in ws
    ensures var r := InsertOrdered(key, ws, t);
            NoDup(r) && r != [] && forall x :: x in r <==> x in ws || x == t
  {
    var k := FindPos(key, ws, key(t));
    var r := InsertOrdered(key, ws, t);
    assert r[k] == t;
    assert forall i :: 0 <= i < k ==> r[i] == ws[i];
    assert forall i :: k < i < |r| ==> r[i] == ws[i - 1];
    forall x | x in ws ensures x in r {
      var i :| 0 <= i < |ws| && ws[i] == x;
      assert r[if i < k then i else i + 1] == x;
    }
  }

  /** Ordered insertion keeps a sorted list sorted and adds exactly `t`. */
  lemma InsertKeeps<T>(key: T -> nat, ws: seq<T>, t: T)
    requires NoDup(ws) && SortedBy(key, ws) && t !in ws
    ensures var r := InsertOrdered(key, ws, t);
            && NoDup(r) && SortedBy(key, r) && |r| == |ws| + 1
            && (forall x :: x in r <==> x in ws || x == t)
            && (key(r[0]) == if ws == [] || key(t) < key(ws[0]) then key(t) else key(ws[0]))
  {
    hide FindPos, NoDup, SortedBy;
    InsertMembers(key, ws, t);
    InsertSorted(key, ws, t);
  }

  lemma InsertSorted<T>(key: T -> nat, ws: seq<T>, t: T)
    requires SortedBy(key, ws)
    ensures var r := InsertOrdered(key, ws, t);
            && SortedBy(key, r) && |r| == |ws| + 1
            && (key(r[0]) == if ws == [] || key(t) < key(ws[0]) then key(t) else key(ws[0]))
  {
    var k := FindPos(key, ws, key(t));
    var r := InsertOrdered(key, ws, t);
    assert r[k] == t;
    assert forall i :: 0 <= i < k ==> r[i] == ws[i];
    assert forall i :: k < i < |r| ==> r[i] == ws[i - 1];
  }

  /** Insertion is stable: `t` stands behind exactly the entries that are not later, equal ones
      included, and the others keep their order. */
  lemma InsertStable<T>(key: T -> nat, ws: seq<T>, t: T) returns (k: nat)
    requires SortedBy(key, ws) && t !in ws
    ensures var r := InsertOrdered(key, ws, t);
            && k < |r| && r[k] == t && r[..k] + r[k + 1..] == ws && Remove(r, t) == ws
            && (forall x :: x in r[..k] ==> key(x) <= key(t)) && (forall x :: x in r[k + 1..] ==> key(x) > key(t))
  {
    k := FindPos(key, ws, key(t));
    var r := InsertOrdered(key, ws, t);
    assert r[..k] == ws[..k] && r[k + 1..] == ws[k..];
    forall x | x in ws[k..] ensures key(x) > key(t) {
      var i :| k <= i < |ws| && ws[i] == x;
      assert k < i ==> key(ws[k]) <= key(ws[i]);
    }
    RemoveBehind(ws[..k], t, ws[k..]);
    assert r == ws[..k] + [t] + ws[k..] && ws[..k] + ws[k..] == ws;
  }

  lemma {:induction false} RemoveBehind<T>(a: seq<T>, t: T, b: seq<T>)
    requires t !in a
    ensures Remove(a + [t] + b, t) == a + b
  {
    if a == [] {
      assert [] + [t] + b == [t] + b && ([t] + b)[1..] == b && [] + b == b;
    } else {
      RemoveBehind(a[1..], t, b);
      assert (a + [t] + b)[1..] == a[1..] + [t] + b && a[0] != t;
      assert [a[0]] + (a[1..] + b) == a + b;
    }
  }

  /** An entry whose key changed is moved to its new place in a sorted list. */
  lemma MoveKeeps<T>(key: T -> nat, ws: seq<T>, t: T)
    requires NoDup(ws) && SortedBut(key, ws, t) && t in ws
    ensures var r := InsertOrdered(key, Remove(ws, t), t);
            && NoDup(r) && SortedBy(key, r) && r != []
            && (forall x :: x in r ==> x in ws) && (forall x :: x in ws ==> x in r)
  {
    RemoveMembers(ws, t);
    RemoveKeeps(key, ws, t);
    InsertKeeps(key, Remove(ws, t), t);
  }

  /** Insertion depends on the keys only. */
  lemma InsertSame<T>(key: T -> nat, other: T -> nat, ws: seq<T>, t: T)
    requires key(t) == other(t) && forall i :: 0 <= i < |ws| ==> key(ws[i]) == other(ws[i])
    ensures InsertOrdered(key, ws, t) == InsertOrdered(other, ws, t)
  {
    FindPosIs(other, ws, other(t), FindPos(key, ws, key(t)));
  }
}
