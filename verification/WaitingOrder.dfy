/** The order in which threads wait: by priority or by arrival, and among equals by arrival. */
module WaitingOrder {

  import opened KernelTypes
  import opened OrderedList

  /** `_ipc_list_suspend`: at the end of a FIFO list, by priority in the other kind. */
  function Suspend<T>(flag: Flag, prio: T -> nat, ws: seq<T>, t: T): (r: seq<T>) {
    match flag
    case Fifo => ws + [t]
    case Prio => InsertOrdered(prio, ws, t)
  }

  /** The same with the search loop of the code; it does not suppose that the list is sorted. */
  method ListSuspend<T>(flag: Flag, prio: T -> nat, ws: seq<T>, t: T) returns (r: seq<T>)
    ensures r == Suspend(flag, prio, ws, t)
  {
    match flag
    case Fifo =>
      r := ws + [t];
    case Prio =>
      var n := 0;
      while n < |ws| && prio(t) >= prio(ws[n])
        invariant n <= |ws| && forall i :: 0 <= i < n ==> prio(ws[i]) <= prio(t)
      {
        n := n + 1;
      }
      r := ws[..n] + [t] + ws[n..];
      FindPosIs(prio, ws, prio(t), n);
  }

  /** `x` is to be resumed before `y`: it is more urgent, where that matters, or has waited longer. */
  ghost predicate First<T>(flag: Flag, prio: T -> nat, arrived: T -> nat, x: T, y: T) {
    || (flag == Prio && prio(x) < prio(y))
    || ((flag == Fifo || prio(x) == prio(y)) && arrived(x) < arrived(y))
  }

  ghost predicate InOrder<T>(flag: Flag, prio: T -> nat, arrived: T -> nat, ws: seq<T>) {
    forall i, j :: 0 <= i < j < |ws| ==> First(flag, prio, arrived, ws[i], ws[j])
  }

  /** Whoever arrives last finds his place. */
  lemma SuspendKeeps<T>(flag: Flag, prio: T -> nat, arrived: T -> nat, ws: seq<T>, t: T)
    requires InOrder(flag, prio, arrived, ws) && forall i :: 0 <= i < |ws| ==> arrived(ws[i]) < arrived(t)
    ensures InOrder(flag, prio, arrived, Suspend(flag, prio, ws, t))
  {
    var r := Suspend(flag, prio, ws, t);
    if flag == Prio {
      SortedByPrio(prio, arrived, ws);
      var k := FindPos(prio, ws, prio(t));
      SortedBehind(prio, ws, k, prio(t));
      forall i, j | 0 <= i < j < |r| ensures First(flag, prio, arrived, r[i], r[j]) {
        InsertedAt(ws, k, t, i);
        InsertedAt(ws, k, t, j);
      }
    }
  }

  lemma InsertedAt<T>(ws: seq<T>, k: nat, t: T, i: nat)
    requires k <= |ws| && i <= |ws|
    ensures var r := ws[..k] + [t] + ws[k..]; r[i] == if i < k then ws[i] else if i == k then t else ws[i - 1]
  {
  }

  lemma SortedByPrio<T>(prio: T -> nat, arrived: T -> nat, ws: seq<T>)
    requires InOrder(Prio, prio, arrived, ws)
    ensures SortedBy(prio, ws)
  {
    forall i, j | 0 <= i < j < |ws| ensures prio(ws[i]) <= prio(ws[j]) {
      assert First(Prio, prio, arrived, ws[i], ws[j]);
    }
  }

  lemma SortedBehind<T>(key: T -> nat, ws: seq<T>, k: nat, p: nat)
    requires SortedBy(key, ws) && k == FindPos(key, ws, p)
    ensures forall i :: k <= i < |ws| ==> p < key(ws[i])
  {
    forall i | k <= i < |ws| ensures p < key(ws[i]) {
      assert k < i ==> key(ws[k]) <= key(ws[i]);
    }
  }

  lemma RestKeeps<T>(flag: Flag, prio: T -> nat, arrived: T -> nat, ws: seq<T>)
    requires InOrder(flag, prio, arrived, ws) && ws != []
    ensures InOrder(flag, prio, arrived, ws[1..])
  {
  }

  /** Whoever leaves does not disturb the others. */
  lemma {:induction false} LeaveKeeps<T>(flag: Flag, prio: T -> nat, arrived: T -> nat, ws: seq<T>, t: T)
    requires InOrder(flag, prio, arrived, ws)
    ensures InOrder(flag, prio, arrived, Remove(ws, t))
    ensures forall x :: x in Remove(ws, t) ==> x in ws
  {
    if ws != [] {
      LeaveKeeps(flag, prio, arrived, ws[1..], t);
      var rest := Remove(ws[1..], t);
      if ws[0] != t {
        forall j | 0 <= j < |rest| ensures First(flag, prio, arrived, ws[0], rest[j]) {
          assert rest[j] in ws[1..];
          var k :| 0 <= k < |ws[1..]| && ws[1..][k] == rest[j];
          assert First(flag, prio, arrived, ws[0], ws[k + 1]);
        }
      }
    }
  }

  /** Only the arrivals of those who wait matter. */
  lemma SameArrivals<T>(flag: Flag, prio: T -> nat, arrived: T -> nat, other: T -> nat, ws: seq<T>)
    requires InOrder(flag, prio, arrived, ws) && forall i :: 0 <= i < |ws| ==> other(ws[i]) == arrived(ws[i])
    ensures InOrder(flag, prio, other, ws)
  {
    forall i, j | 0 <= i < j < |ws| ensures First(flag, prio, other, ws[i], ws[j]) {
      assert First(flag, prio, arrived, ws[i], ws[j]);
    }
  }
}
