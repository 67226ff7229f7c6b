/** The mutex operations as functions on the state, each proved to restore the invariant,
    and runs of any length built from them. */
module MutexProtocol {

  import opened KernelTypes
  import opened OrderedList
  import opened PriorityInheritance

  datatype Outcome = Done | Full | Busy | Blocked | NotOwner

  // ---------------------------------------------------------------- the operations

  ghost predicate CanRun(s: State, t: Thread) {
    t in s.th && s.th[t].stat == Runnable
  }

  ghost function Acquire(s: State, t: Thread, m: Mutex): (r: State)
    requires t in s.th && m in s.mx
  {
    State(s.th[t := s.th[t].(taken := [m] + s.th[t].taken)],
          s.mx[m := s.mx[m].(owner := t, priority := NO_WAITER, hold := 1)])
  }

  /** `t` goes to sleep in the queue of `m`; no priority has been passed on yet. */
  ghost function Enqueue(s: State, t: Thread, m: Mutex): (r: State)
    requires t in s.th && m in s.mx
  {
    State(s.th[t := s.th[t].(stat := Suspended, pending := m)],
          s.mx[m := s.mx[m].(waiters := InsertOrdered(CurOf(s.th), s.mx[m].waiters, t))])
  }

  /** The queue entry of `t`, with the priority of the mutex brought up to date. */
  ghost function Queued(s: State, t: Thread, m: Mutex): (r: State)
    requires t in s.th && m in s.mx
  {
    var p := s.th[t].cur;
    SetMutexPriority(Enqueue(s, t, m), m, if p < s.mx[m].priority then p else s.mx[m].priority)
  }

  /** The blocking branch of a take. */
  ghost function Block(s: State, t: Thread, m: Mutex): (r: State)
    requires Inv(s) && CanRun(s, t) && m in s.mx && s.mx[m].owner != null && s.mx[m].owner != t
  {
    BlockRaises(s, t, m);
    var p, r, o := s.th[t].cur, Queued(s, t, m), s.mx[m].owner;
    if p < s.mx[m].priority && p < r.th[o].cur then UpdatePriority(r, o, p) else r
  }

  ghost function Take(s: State, t: Thread, m: Mutex, wait: bool): (r: (State, Outcome))
    requires Inv(s) && CanRun(s, t) && m in s.mx
  {
    if s.mx[m].owner == t then
      if s.mx[m].hold < HOLD_MAX then (s.(mx := s.mx[m := s.mx[m].(hold := s.mx[m].hold + 1)]), Done)
      else (s, Full)
    else if s.mx[m].owner == null then (Acquire(s, t, m), Done)
    else if !wait then (s, Busy)
    else (Block(s, t, m), Blocked)
  }

  /** `t` has given up `m`: the mutex leaves the taken list and takes its priority along. */
  ghost function GiveUp(s: State, t: Thread, m: Mutex): (r: State)
    requires t in s.th && m in s.mx && ThreadOk(s, t)
    ensures r.th.Keys == s.th.Keys && r.mx == s.mx
  {
    var s1 := s.(th := s.th[t := s.th[t].(taken := Remove(s.th[t].taken, m))]);
    GiveUpTaken(s, t, m);
    if s.th[t].cur == s.mx[m].priority then SetCur(s1, t, Deserved(s1, t)) else s1
  }

  /** The mutex goes to the head of its queue, or becomes free. */
  ghost function HandOver(s: State, m: Mutex): (r: State)
    requires m in s.mx && forall w :: w in s.mx[m].waiters ==> w in s.th
  {
    var ws := s.mx[m].waiters;
    if ws == [] then
      s.(mx := s.mx[m := s.mx[m].(owner := null, priority := NO_WAITER, hold := 0)])
    else
      var n := ws[0];
      State(s.th[n := s.th[n].(taken := [m] + s.th[n].taken, pending := null, stat := Runnable)],
            s.mx[m := Mcb(n, HeadPriority(s, ws[1..]), 1, ws[1..])])
  }

  ghost function Released(s: State, t: Thread, m: Mutex): (r: State)
    requires t in s.th && m in s.mx && ThreadOk(s, t) && LinksOk(s, m)
    ensures r.th.Keys == s.th.Keys && r.mx.Keys == s.mx.Keys
  {
    HandOver(GiveUp(s, t, m), m)
  }

  ghost function Release(s: State, t: Thread, m: Mutex): (r: (State, Outcome))
    requires Inv(s) && CanRun(s, t) && m in s.mx
  {
    if s.mx[m].owner != t then (s, NotOwner)
    else if s.mx[m].hold > 1 then (s.(mx := s.mx[m := s.mx[m].(hold := s.mx[m].hold - 1)]), Done)
    else
      assert ThreadOk(s, t) && LinksOk(s, m);
      (Released(s, t, m), Done)
  }

  /** The closing thread `t` is out of the queue of `m`, and the mutex is refreshed. */
  ghost function Dropped(s: State, t: Thread, m: Mutex): (r: State)
    requires t in s.th && m in s.mx
  {
    var ws := Remove(s.mx[m].waiters, t);
    State(s.th[t := s.th[t].(stat := Closed)],
          s.mx[m := s.mx[m].(waiters := ws, priority := HeadPriority(s, ws))])
  }

  /** `rt_mutex_drop_thread`: the owner is reconsidered when it ran at the priority of `t`. */
  ghost function DropThread(s: State, t: Thread, m: Mutex): (r: State)
    requires Inv(s) && Waits(s, t, m)
  {
    DropLowers(s, t, m);
    var s1 := Dropped(s, t, m);
    var o := s.mx[m].owner;
    var q := Deserved(s1, o);
    if s1.th[o].cur == s1.th[t].cur && q != s1.th[o].cur then UpdatePriority(s1, o, q) else s1
  }

  /** A thread is detached, perhaps while it waits for a mutex; what it holds stays taken. */
  ghost function Close(s: State, t: Thread): (r: State)
    requires Inv(s) && t in s.th && s.th[t].stat != Closed
  {
    var m := s.th[t].pending;
    assert ThreadOk(s, t);
    var s1 := if m == null then s.(th := s.th[t := s.th[t].(stat := Closed)]) else DropThread(s, t, m);
    if t in s1.th then s1.(th := s1.th[t := s1.th[t].(pending := null)]) else s1
  }

  // ---------------------------------------------------------------- taking

  lemma AcquireKeeps(s: State, t: Thread, m: Mutex)
    requires Inv(s) && CanRun(s, t) && m in s.mx && s.mx[m].owner == null
    ensures Inv(Acquire(s, t, m))
  {
    var r := Acquire(s, t, m);
    forall x | x in r.mx ensures LinksOk(r, x) && QueueOk(r, x) {
      AcquireMutex(s, t, m, x);
    }
    forall u | u in r.th ensures ThreadOk(r, u) && Settled(r, u) {
      AcquireThread(s, t, m, u);
    }
  }

  lemma AcquireMutex(s: State, t: Thread, m: Mutex, x: Mutex)
    requires CanRun(s, t) && m in s.mx && s.mx[m].owner == null && x in s.mx
    requires LinksOk(s, x) && QueueOk(s, x)
    ensures LinksOk(Acquire(s, t, m), x) && QueueOk(Acquire(s, t, m), x)
  {
    if x != m {
      QueueUnmoved(s, Acquire(s, t, m), x);
    }
  }

  lemma AcquireThread(s: State, t: Thread, m: Mutex, u: Thread)
    requires CanRun(s, t) && m in s.mx && LinksOk(s, m) && s.mx[m].owner == null && u in s.th
    requires ThreadOk(s, u) && Settled(s, u)
    ensures ThreadOk(Acquire(s, t, m), u) && Settled(Acquire(s, t, m), u)
  {
    AcquireLinks(s, t, m, u);
    AcquireSettled(s, t, m, u);
  }

  lemma AcquireLinks(s: State, t: Thread, m: Mutex, u: Thread)
    requires CanRun(s, t) && m in s.mx && LinksOk(s, m) && s.mx[m].owner == null && u in s.th && ThreadOk(s, u)
    ensures ThreadOk(Acquire(s, t, m), u)
  {
    assert m !in s.th[u].taken;
  }

  lemma AcquireSettled(s: State, t: Thread, m: Mutex, u: Thread)
    requires t in s.th && m in s.mx && s.mx[m].owner == null && u in s.th && ThreadOk(s, u) && Settled(s, u)
    requires ThreadOk(Acquire(s, t, m), u)
    ensures Settled(Acquire(s, t, m), u)
  {
    hide TakenMin, NoDup;
    var r := Acquire(s, t, m);
    SameTakenMin(s.mx, r.mx, s.th[u].taken, s.th[u].init);
    if u == t {
      TakenMinCons(r.mx, s.th[t].taken, m, s.th[t].init);
    }
  }

  lemma SameTakenMin(a: map<Mutex, Mcb>, b: map<Mutex, Mcb>, taken: seq<Mutex>, p: Priority)
    requires forall m :: m in taken ==> m in a && m in b && a[m].priority == b[m].priority
    ensures TakenMin(a, taken, p) == TakenMin(b, taken, p)
  {
    TakenMinMonotone(a, b, taken, p);
    TakenMinMonotone(b, a, taken, p);
  }

  lemma QueuedMutex(s: State, t: Thread, m: Mutex, x: Mutex)
    requires CanRun(s, t) && m in s.mx && s.mx[m].owner != null && s.mx[m].owner != t && x in s.mx
    requires LinksOk(s, x) && QueueOk(s, x)
    ensures LinksOk(Queued(s, t, m), x) && QueueOk(Queued(s, t, m), x)
  {
    if x == m {
      QueuedLinks(s, t, m);
      QueuedOrder(s, t, m);
    } else {
      QueuedElsewhere(s, t, m, x);
    }
  }

  lemma QueuedLinks(s: State, t: Thread, m: Mutex)
    requires CanRun(s, t) && m in s.mx && s.mx[m].owner != null && s.mx[m].owner != t && LinksOk(s, m)
    ensures LinksOk(Queued(s, t, m), m)
  {
    hide FindPos, NoDup;
    var r, ws := Queued(s, t, m), s.mx[m].waiters;
    assert t !in ws;
    InsertMembers(CurOf(s.th), ws, t);
    var vs := InsertOrdered(CurOf(s.th), ws, t);
    assert r.mx[m].waiters == vs;
    forall w | w in vs ensures Waits(r, w, m) && w != s.mx[m].owner {
      assert w == t || w in ws;
    }
  }

  lemma QueuedOrder(s: State, t: Thread, m: Mutex)
    requires CanRun(s, t) && m in s.mx && LinksOk(s, m) && QueueOk(s, m)
    ensures QueueOk(Queued(s, t, m), m)
  {
    hide InsertOrdered, NoDup, SortedBy;
    var r, ws := Queued(s, t, m), s.mx[m].waiters;
    assert t !in ws;
    InsertKeeps(CurOf(s.th), ws, t);
    assert ws != [] ==> ws[0] in ws;
    var vs := r.mx[m].waiters;
    assert vs[0] in vs;
    SameCurSorted(s, r, vs);
  }

  lemma QueuedElsewhere(s: State, t: Thread, m: Mutex, x: Mutex)
    requires CanRun(s, t) && m in s.mx && x in s.mx && x != m && LinksOk(s, x) && QueueOk(s, x)
    ensures LinksOk(Queued(s, t, m), x) && QueueOk(Queued(s, t, m), x)
  {
    hide InsertOrdered, SortedBy;
    QueueUnmoved(s, Queued(s, t, m), x);
  }

  lemma SameCurSorted(s: State, r: State, ws: seq<Thread>)
    requires forall u :: u in ws ==> CurOf(s.th)(u) == CurOf(r.th)(u)
    ensures SortedBy(CurOf(s.th), ws) ==> SortedBy(CurOf(r.th), ws)
    ensures HeadPriority(s, ws) == HeadPriority(r, ws)
  {
    assert ws != [] ==> CurOf(s.th)(ws[0]) == CurOf(r.th)(ws[0]);
  }

  lemma QueuedThread(s: State, t: Thread, m: Mutex, u: Thread)
    requires CanRun(s, t) && m in s.mx && s.mx[m].owner != null && s.mx[m].owner != t
    requires LinksOk(s, m) && QueueOk(s, m) && u in s.th && ThreadOk(s, u)
    ensures ThreadOk(Queued(s, t, m), u)
  {
    InsertKeeps(CurOf(s.th), s.mx[m].waiters, t);
  }

  lemma QueuedSettled(s: State, t: Thread, m: Mutex, u: Thread)
    requires t in s.th && m in s.mx && u in s.th && ThreadOk(s, u) && Settled(s, u)
    requires ThreadOk(Queued(s, t, m), u)
    ensures var r := Queued(s, t, m);
            Deserved(r, u) == if u == s.mx[m].owner && m in s.th[u].taken && r.mx[m].priority < s.th[u].cur
                              then r.mx[m].priority else s.th[u].cur
  {
    var r := Queued(s, t, m);
    if m !in s.th[u].taken {
      SameTakenMin(s.mx, r.mx, s.th[u].taken, s.th[u].init);
    } else if r.mx[m].priority >= s.th[u].cur {
      TakenMinMonotone(r.mx, s.mx, s.th[u].taken, s.th[u].init);
    }
  }

  lemma QueuedStructured(s: State, t: Thread, m: Mutex)
    requires Inv(s) && CanRun(s, t) && m in s.mx && s.mx[m].owner != null && s.mx[m].owner != t
    ensures Structured(Queued(s, t, m))
  {
    var r := Queued(s, t, m);
    forall x | x in r.mx ensures LinksOk(r, x) && QueueOk(r, x) {
      QueuedMutex(s, t, m, x);
    }
    forall u | u in r.th ensures ThreadOk(r, u) {
      assert LinksOk(s, m) && QueueOk(s, m) && ThreadOk(s, u);
      QueuedThread(s, t, m, u);
    }
  }

  lemma QueuedOthers(s: State, t: Thread, m: Mutex)
    requires Inv(s) && CanRun(s, t) && m in s.mx && s.mx[m].owner != null && s.mx[m].owner != t
    requires Structured(Queued(s, t, m))
    ensures SettledBut(Queued(s, t, m), s.mx[m].owner)
  {
    var r := Queued(s, t, m);
    forall u | u in r.th && u != s.mx[m].owner ensures ThreadOk(r, u) && Settled(r, u) {
      assert ThreadOk(s, u) && Settled(s, u) && ThreadOk(r, u);
      QueuedSettled(s, t, m, u);
    }
  }

  lemma BlockRaises(s: State, t: Thread, m: Mutex)
    requires Inv(s) && CanRun(s, t) && m in s.mx && s.mx[m].owner != null && s.mx[m].owner != t
    ensures var o, p, r := s.mx[m].owner, s.th[t].cur, Queued(s, t, m);
            && o in s.th && r.th[o].cur == s.th[o].cur
            && (p >= s.mx[m].priority || p >= s.th[o].cur ==> Inv(r))
            && (p < s.mx[m].priority && p < s.th[o].cur ==> UpdateDue(r, o, p))
  {
    var r, o := Queued(s, t, m), s.mx[m].owner;
    QueuedStructured(s, t, m);
    QueuedOthers(s, t, m);
    QueuedOwner(s, t, m);
    if Settled(r, o) {
      AllSettled(r, o);
    }
  }

  lemma QueuedOwner(s: State, t: Thread, m: Mutex)
    requires Inv(s) && CanRun(s, t) && m in s.mx && s.mx[m].owner != null && s.mx[m].owner != t
    requires Structured(Queued(s, t, m))
    ensures var o, p, r := s.mx[m].owner, s.th[t].cur, Queued(s, t, m);
            && o in s.th && ThreadOk(r, o) && r.th[o].cur == s.th[o].cur
            && Deserved(r, o) == if p < s.mx[m].priority && p < s.th[o].cur then p else s.th[o].cur
  {
    var r, o := Queued(s, t, m), s.mx[m].owner;
    assert LinksOk(s, m);
    assert ThreadOk(s, o) && Settled(s, o) && ThreadOk(r, o);
    QueuedSettled(s, t, m, o);
  }

  lemma AllSettled(r: State, o: Thread)
    requires Structured(r) && SettledBut(r, o) && o in r.th && ThreadOk(r, o) && Settled(r, o)
    ensures Inv(r)
  {
    assert forall u :: u in r.th ==> ThreadOk(r, u) && Settled(r, u);
  }

  // ---------------------------------------------------------------- releasing

  lemma GiveUpTaken(s: State, t: Thread, m: Mutex)
    requires t in s.th && ThreadOk(s, t)
    ensures forall x :: x in Remove(s.th[t].taken, m) ==> x in s.mx
  {
    RemoveMembers(s.th[t].taken, m);
  }

  lemma TakenMinRemove(mx: map<Mutex, Mcb>, taken: seq<Mutex>, m: Mutex, p: Priority)
    requires NoDup(taken) && forall x :: x in taken ==> x in mx
    requires m in mx && mx[m].priority != TakenMin(mx, taken, p)
    ensures forall x :: x in Remove(taken, m) ==> x in mx
    ensures TakenMin(mx, Remove(taken, m), p) == TakenMin(mx, taken, p)
  {
    RemoveMembers(taken, m);
  }

  lemma TakenMinCons(mx: map<Mutex, Mcb>, taken: seq<Mutex>, m: Mutex, p: Priority)
    requires m in mx && forall x :: x in taken ==> x in mx
    ensures TakenMin(mx, [m] + taken, p) ==
            if mx[m].priority < TakenMin(mx, taken, p) then mx[m].priority else TakenMin(mx, taken, p)
  {
    var all := [m] + taken;
    assert forall x :: x in all ==> x == m || x in taken;
    assert m in all && forall x :: x in taken ==> x in all;
  }

  /** `t` holds `m` for the last time and is about to release it. */
  ghost predicate Releasing(s: State, t: Thread, m: Mutex) {
    CanRun(s, t) && m in s.mx && s.mx[m].owner == t && ThreadOk(s, t) && LinksOk(s, m) && QueueOk(s, m)
  }

  /** Field by field, what a last release changes. */
  lemma ReleasedFields(s: State, t: Thread, m: Mutex)
    requires Releasing(s, t, m)
    ensures var r, ws := Released(s, t, m), s.mx[m].waiters;
            && r.th[t] == s.th[t].(cur := r.th[t].cur, taken := Remove(s.th[t].taken, m))
            && (forall u :: u in s.th && u != t && (ws == [] || u != ws[0]) ==> r.th[u] == s.th[u])
            && (forall x :: x in s.mx && x != m ==> r.mx[x] == s.mx[x])
            && (ws == [] ==> r.mx[m] == Mcb(null, NO_WAITER, 0, []))
            && (ws != [] ==>
                  && ws[0] != t && ws[0] in s.th && Waits(s, ws[0], m)
                  && r.th[ws[0]] == s.th[ws[0]].(taken := [m] + s.th[ws[0]].taken, pending := null, stat := Runnable)
                  && r.mx[m] == Mcb(ws[0], HeadPriority(s, ws[1..]), 1, ws[1..]))
  {
    var ws := s.mx[m].waiters;
    if ws != [] {
      assert Waits(s, ws[0], m) && ws[0] != t;
      assert |ws| > 1 ==> Waits(s, ws[1], m) && ws[1] != t;
    }
  }

  lemma ReleasedMutex(s: State, t: Thread, m: Mutex)
    requires Releasing(s, t, m)
    ensures LinksOk(Released(s, t, m), m) && QueueOk(Released(s, t, m), m)
  {
    hide Released, SortedBy;
    var r, ws := Released(s, t, m), s.mx[m].waiters;
    ReleasedFields(s, t, m);
    if ws != [] {
      forall u | u in ws[1..] ensures u != ws[0] && Waits(s, u, m) && u != t {
        var i :| 1 <= i < |ws| && ws[i] == u;
      }
      TailSorted(CurOf(s.th), ws);
      SameCurSorted(s, r, ws[1..]);
    } else {
      NoneSorted(CurOf(r.th));
    }
  }

  lemma NoneSorted<T>(key: T -> nat)
    ensures SortedBy(key, [])
  {
  }

  lemma TailSorted<T>(key: T -> nat, ws: seq<T>)
    requires SortedBy(key, ws) && ws != []
    ensures SortedBy(key, ws[1..])
  {
  }

  lemma ReleasedOtherMutex(s: State, t: Thread, m: Mutex, x: Mutex)
    requires Releasing(s, t, m) && x in s.mx && x != m && LinksOk(s, x) && QueueOk(s, x)
    ensures LinksOk(Released(s, t, m), x) && QueueOk(Released(s, t, m), x)
  {
    var r, ws := Released(s, t, m), s.mx[m].waiters;
    ReleasedFields(s, t, m);
    hide Released;
    RemoveMembers(s.th[t].taken, m);
    assert forall w :: w in s.mx[x].waiters ==> Waits(s, w, x) && r.th[w] == s.th[w];
    QueueUnmoved(s, r, x);
  }

  /** The priority of the caller is settled before the mutex is handed on. */
  lemma ReleasedCaller(s: State, t: Thread, m: Mutex)
    requires Releasing(s, t, m)
    ensures Released(s, t, m).th[t].cur == GiveUp(s, t, m).th[t].cur
  {
    var ws := s.mx[m].waiters;
    assert ws != [] ==> Waits(s, ws[0], m) && ws[0] != t;
  }

  lemma ReleasedThread(s: State, t: Thread, m: Mutex)
    requires Releasing(s, t, m) && Settled(s, t)
    ensures ThreadOk(Released(s, t, m), t) && Settled(Released(s, t, m), t)
  {
    hide Released, HandOver, QueueOk, LinksOk, NoDup, Remove, TakenMin;
    var r := Released(s, t, m);
    var taken := Remove(s.th[t].taken, m);
    ReleasedFields(s, t, m);
    ReleasedCaller(s, t, m);
    GiveUpTaken(s, t, m);
    RemoveMembers(s.th[t].taken, m);
    SameTakenMin(s.mx, r.mx, taken, s.th[t].init);
    if s.th[t].cur != s.mx[m].priority {
      TakenMinRemove(s.mx, s.th[t].taken, m, s.th[t].init);
    }
  }

  lemma ReleasedHeadLinks(s: State, t: Thread, m: Mutex, u: Thread)
    requires Releasing(s, t, m) && s.mx[m].waiters != [] && u == s.mx[m].waiters[0]
    requires u in s.th && u != t && ThreadOk(s, u)
    ensures ThreadOk(Released(s, t, m), u)
  {
    var r := Released(s, t, m);
    ReleasedFields(s, t, m);
    hide Released, QueueOk;
    assert m !in s.th[u].taken;
    assert forall x :: x in r.th[u].taken ==> x == m || x in s.th[u].taken;
  }

  lemma ReleasedHead(s: State, t: Thread, m: Mutex, u: Thread)
    requires Releasing(s, t, m) && s.mx[m].waiters != [] && u == s.mx[m].waiters[0]
    requires u in s.th && u != t && ThreadOk(s, u) && Settled(s, u)
    ensures ThreadOk(Released(s, t, m), u) && Settled(Released(s, t, m), u)
  {
    var r, ws := Released(s, t, m), s.mx[m].waiters;
    ReleasedHeadLinks(s, t, m, u);
    ReleasedFields(s, t, m);
    assert m !in s.th[u].taken;
    assert r.mx[m].priority >= s.th[u].cur by {
      assert |ws| > 1 ==> CurOf(s.th)(ws[0]) <= CurOf(s.th)(ws[1]);
    }
    hide Released, QueueOk, LinksOk;
    SameTakenMin(s.mx, r.mx, s.th[u].taken, s.th[u].init);
    TakenMinCons(r.mx, s.th[u].taken, m, s.th[u].init);
  }

  lemma ReleasedOtherThread(s: State, t: Thread, m: Mutex, u: Thread)
    requires Releasing(s, t, m) && (s.mx[m].waiters == [] || u != s.mx[m].waiters[0])
    requires u in s.th && u != t && ThreadOk(s, u) && Settled(s, u)
    ensures ThreadOk(Released(s, t, m), u) && Settled(Released(s, t, m), u)
  {
    var r, ws := Released(s, t, m), s.mx[m].waiters;
    ReleasedFields(s, t, m);
    hide Released;
    assert m !in s.th[u].taken;
    SameTakenMin(s.mx, r.mx, s.th[u].taken, s.th[u].init);
    if s.th[u].stat == Suspended && s.th[u].pending == m {
      assert u in ws && u != ws[0];
      assert u in ws[1..];
    }
  }

  lemma ReleasedMutexes(s: State, t: Thread, m: Mutex)
    requires Structured(s) && Releasing(s, t, m)
    ensures var r := Released(s, t, m); forall x :: x in r.mx ==> LinksOk(r, x) && QueueOk(r, x)
  {
    var r := Released(s, t, m);
    forall x | x in r.mx ensures LinksOk(r, x) && QueueOk(r, x) {
      assert LinksOk(s, x) && QueueOk(s, x);
      if x == m { ReleasedMutex(s, t, m); } else { ReleasedOtherMutex(s, t, m, x); }
    }
  }

  lemma ReleasedThreads(s: State, t: Thread, m: Mutex)
    requires Structured(s) && SettledBut(s, null) && Releasing(s, t, m)
    ensures var r := Released(s, t, m); forall u :: u in r.th ==> ThreadOk(r, u) && Settled(r, u)
  {
    var r, ws := Released(s, t, m), s.mx[m].waiters;
    assert ws != [] ==> Waits(s, ws[0], m) && ws[0] != t;
    forall u | u in r.th ensures ThreadOk(r, u) && Settled(r, u) {
      assert ThreadOk(s, u) && Settled(s, u);
      hide Released, LinksOk;
      if u == t {
        ReleasedThread(s, t, m);
      } else if ws != [] && u == ws[0] {
        ReleasedHead(s, t, m, u);
      } else {
        ReleasedOtherThread(s, t, m, u);
      }
    }
  }

  lemma ReleaseKeeps(s: State, t: Thread, m: Mutex)
    requires Inv(s) && CanRun(s, t) && m in s.mx && s.mx[m].owner == t
    ensures ThreadOk(s, t) && LinksOk(s, m) && Inv(Released(s, t, m))
  {
    assert Releasing(s, t, m) by {
      assert ThreadOk(s, t) && LinksOk(s, m) && QueueOk(s, m);
    }
    ReleasedMutexes(s, t, m);
    ReleasedThreads(s, t, m);
  }

  // ---------------------------------------------------------------- dropping a waiter

  /** `t` waits for `m`. */
  ghost predicate Dropping(s: State, t: Thread, m: Mutex) {
    && Waits(s, t, m) && m in s.mx && t in s.mx[m].waiters
    && LinksOk(s, m) && QueueOk(s, m)
  }

  lemma DroppedMutex(s: State, t: Thread, m: Mutex, x: Mutex)
    requires Dropping(s, t, m) && x in s.mx && LinksOk(s, x) && QueueOk(s, x)
    ensures LinksOk(Dropped(s, t, m), x) && QueueOk(Dropped(s, t, m), x)
  {
    var r := Dropped(s, t, m);
    if x == m {
      DroppedQueue(s, t, m);
    } else {
      QueueUnmoved(s, r, x);
    }
  }

  lemma DroppedQueue(s: State, t: Thread, m: Mutex)
    requires Dropping(s, t, m)
    ensures LinksOk(Dropped(s, t, m), m) && QueueOk(Dropped(s, t, m), m)
  {
    var r, ws := Dropped(s, t, m), s.mx[m].waiters;
    RemoveMembers(ws, t);
    assert LinksOk(r, m);
    hide LinksOk;
    RemoveKeeps(CurOf(s.th), ws, t);
    SameCurSorted(s, r, Remove(ws, t));
  }

  lemma DroppedThread(s: State, t: Thread, m: Mutex, u: Thread)
    requires Dropping(s, t, m) && u in s.th && ThreadOk(s, u)
    ensures ThreadOk(Dropped(s, t, m), u)
  {
    RemoveMembers(s.mx[m].waiters, t);
  }

  lemma DroppedSettled(s: State, t: Thread, m: Mutex, u: Thread)
    requires Dropping(s, t, m) && u in s.th && ThreadOk(s, u) && Settled(s, u)
    requires ThreadOk(Dropped(s, t, m), u)
    ensures Deserved(Dropped(s, t, m), u) >= s.th[u].cur
    ensures u != s.mx[m].owner || s.th[u].cur != s.th[t].cur ==> Settled(Dropped(s, t, m), u)
  {
    var r, ws := Dropped(s, t, m), s.mx[m].waiters;
    DroppedPriority(s, t, m);
    hide Dropped, LinksOk, QueueOk;
    if r.mx[m].priority == s.mx[m].priority || m !in s.th[u].taken {
      SameTakenMin(s.mx, r.mx, s.th[u].taken, s.th[u].init);
    } else {
      TakenMinMonotone(s.mx, r.mx, s.th[u].taken, s.th[u].init);
    }
  }

  /** Only the head of the queue has a say in the priority of the mutex. */
  lemma DroppedPriority(s: State, t: Thread, m: Mutex)
    requires Dropping(s, t, m)
    ensures var r := Dropped(s, t, m);
            && r.mx.Keys == s.mx.Keys && r.th.Keys == s.th.Keys
            && r.mx[m].priority >= s.mx[m].priority
            && (r.mx[m].priority != s.mx[m].priority ==> s.mx[m].priority == s.th[t].cur)
            && (forall x :: x in s.mx && x != m ==> r.mx[x] == s.mx[x])
            && (forall u :: u in s.th ==> r.th[u].cur == s.th[u].cur && r.th[u].taken == s.th[u].taken
                                          && r.th[u].init == s.th[u].init)
  {
    var ws := s.mx[m].waiters;
    var vs := Remove(ws, t);
    RemoveMembers(ws, t);
    if vs != [] {
      assert vs[0] in ws;
      var i :| 0 <= i < |ws| && ws[i] == vs[0];
      assert CurOf(s.th)(ws[0]) <= CurOf(s.th)(ws[i]);
    }
  }

  lemma DroppedStructured(s: State, t: Thread, m: Mutex)
    requires Structured(s) && Dropping(s, t, m)
    ensures Structured(Dropped(s, t, m))
  {
    var r := Dropped(s, t, m);
    forall x | x in r.mx ensures LinksOk(r, x) && QueueOk(r, x) {
      assert LinksOk(s, x) && QueueOk(s, x);
      DroppedMutex(s, t, m, x);
    }
    forall u | u in r.th ensures ThreadOk(r, u) {
      assert ThreadOk(s, u);
      DroppedThread(s, t, m, u);
    }
  }

  lemma DroppedOthers(s: State, t: Thread, m: Mutex)
    requires Inv(s) && Dropping(s, t, m) && Structured(Dropped(s, t, m))
    ensures SettledBut(Dropped(s, t, m), s.mx[m].owner)
  {
    var r := Dropped(s, t, m);
    DroppedPriority(s, t, m);
    forall u | u in r.th && u != s.mx[m].owner ensures ThreadOk(r, u) && Settled(r, u) {
      assert ThreadOk(s, u) && Settled(s, u) && ThreadOk(r, u);
      DroppedSettled(s, t, m, u);
    }
  }

  /** Reconsidering the owner only when it runs at the priority of `t` misses nothing. */
  lemma DropLowers(s: State, t: Thread, m: Mutex)
    requires Inv(s) && Waits(s, t, m)
    ensures m in s.mx && s.mx[m].owner != null
    ensures var r, o := Dropped(s, t, m), s.mx[m].owner;
      && o in r.th && ThreadOk(r, o) && Deserved(r, o) >= r.th[o].cur
      && (if r.th[o].cur == r.th[t].cur && Deserved(r, o) != r.th[o].cur
          then UpdateDue(r, o, Deserved(r, o)) else Inv(r))
  {
    assert ThreadOk(s, t) && LinksOk(s, m) && QueueOk(s, m);
    var r, o := Dropped(s, t, m), s.mx[m].owner;
    DroppedStructured(s, t, m);
    DroppedOthers(s, t, m);
    DroppedPriority(s, t, m);
    assert ThreadOk(s, o) && Settled(s, o) && ThreadOk(r, o);
    DroppedSettled(s, t, m, o);
    hide Dropped, LinksOk, QueueOk;
    if Settled(r, o) {
      AllSettled(r, o);
    }
  }

  // ---------------------------------------------------------------- the operations keep the invariant

  /** A take restores the inheritance equation everywhere, never makes a thread less urgent and
      never disturbs who owns or waits for what, except for the caller itself. */
  lemma TakeKeeps(s: State, t: Thread, m: Mutex, wait: bool)
    requires Inv(s) && CanRun(s, t) && m in s.mx
    ensures var (r, out) := Take(s, t, m, wait);
            && Inv(r) && r.th.Keys == s.th.Keys && r.mx.Keys == s.mx.Keys && Moved(s, r, true)
            && (out == Done <==> r.mx[m].owner == t && r != s)
            && (out == Blocked <==> Waits(r, t, m))
            && (out == Blocked ==> s.mx[m].owner != null && r.mx[m].owner == s.mx[m].owner
                                   && r.mx[m].owner in r.th && r.th[r.mx[m].owner].cur <= r.th[t].cur)
            && (out in {Full, Busy} ==> r == s)
            && (forall u :: u in s.th && u != t ==> r.th[u] == s.th[u].(cur := r.th[u].cur))
  {
    var (r, out) := Take(s, t, m, wait);
    assert LinksOk(s, m) && ThreadOk(s, t);
    if s.mx[m].owner == t {
      if s.mx[m].hold < HOLD_MAX {
        HoldKeeps(s, m, s.mx[m].hold + 1);
      }
    } else if s.mx[m].owner == null {
      AcquireKeeps(s, t, m);
    } else if wait {
      BlockKeeps(s, t, m);
    }
  }

  /** Which outcome a take has, by the state before the call, and what a successful one leaves. */
  lemma TakeOutcomes(s: State, t: Thread, m: Mutex, wait: bool)
    requires Inv(s) && CanRun(s, t) && m in s.mx
    ensures var (r, out) := Take(s, t, m, wait); var o := s.mx[m].owner;
            && (out == Done <==> o == null || (o == t && s.mx[m].hold < HOLD_MAX))
            && (out == Full <==> o == t && s.mx[m].hold == HOLD_MAX)
            && (out == Busy <==> o != null && o != t && !wait)
            && (out == Blocked <==> o != null && o != t && wait)
            && (out == Done ==>
                  && r.mx[m].owner == t && m in r.th[t].taken && r.mx[m].waiters == s.mx[m].waiters
                  && r.mx[m].hold == (if o == null then 1 else s.mx[m].hold + 1)
                  && r.mx == s.mx[m := r.mx[m]] && forall u :: u in s.th && u != t ==> r.th[u] == s.th[u])
  {
    hide ThreadOk, QueueOk, Block;
    OwnedIsTaken(s, t, m);
  }

  /** A caller that has to wait joins the queue; no other thread or mutex changes but for its
      priority and the order of a queue. */
  lemma TakeWaits(s: State, t: Thread, m: Mutex)
    requires Inv(s) && CanRun(s, t) && m in s.mx && Take(s, t, m, true).1 == Blocked
    ensures var r := Take(s, t, m, true).0;
            && r.th.Keys == s.th.Keys && r.mx.Keys == s.mx.Keys
            && r.th[t] == s.th[t].(stat := Suspended, pending := m, cur := r.th[t].cur)
            && (forall x :: x in s.mx ==> r.mx[x].owner == s.mx[x].owner && r.mx[x].hold == s.mx[x].hold)
            && (forall x, u :: x in s.mx ==> (u in r.mx[x].waiters <==> u in s.mx[x].waiters || (x == m && u == t)))
  {
    BlockShape(s, t, m);
    EnqueueAdds(s, t, m);
    hide Inv, Block, Queued;
  }

  lemma EnqueueAdds(s: State, t: Thread, m: Mutex)
    requires t in s.th && m in s.mx
    ensures var q := Queued(s, t, m);
            && q.th == s.th[t := s.th[t].(stat := Suspended, pending := m)]
            && q.mx == s.mx[m := s.mx[m].(priority := q.mx[m].priority, waiters := q.mx[m].waiters)]
            && forall u :: u in q.mx[m].waiters <==> u in s.mx[m].waiters || u == t
  {
    hide InsertOrdered, CurOf;
    InsertAdds(CurOf(s.th), s.mx[m].waiters, t);
  }

  lemma InsertAdds<T>(key: T -> nat, ws: seq<T>, t: T)
    ensures forall u :: u in InsertOrdered(key, ws, t) <==> u in ws || u == t
  {
    var k := FindPos(key, ws, key(t));
    assert ws == ws[..k] + ws[k..];
  }

  lemma OwnedIsTaken(s: State, t: Thread, m: Mutex)
    requires Inv(s) && t in s.th && m in s.mx
    ensures s.mx[m].hold <= HOLD_MAX && (s.mx[m].owner == t ==> m in s.th[t].taken)
  {
    assert LinksOk(s, m);
  }

  /** A blocked caller stands behind all waiters that are not less urgent, equal ones included, and
      the others keep their order. */
  lemma QueuedBehind(s: State, t: Thread, m: Mutex) returns (k: nat)
    requires Inv(s) && CanRun(s, t) && m in s.mx && s.mx[m].owner != null && s.mx[m].owner != t
    ensures var ws := Queued(s, t, m).mx[m].waiters;
            && k < |ws| && ws[k] == t && ws[..k] + ws[k + 1..] == s.mx[m].waiters
            && (forall u :: u in ws[..k] ==> u in s.th && s.th[u].cur <= s.th[t].cur)
            && (forall u :: u in ws[k + 1..] ==> u in s.th && s.th[u].cur > s.th[t].cur)
  {
    hide InsertOrdered, Inv, CurOf, SortedBy, NoDup;
    QueueKnown(s, t, m);
    k := InsertStable(CurOf(s.th), s.mx[m].waiters, t);
    var ws := InsertOrdered(CurOf(s.th), s.mx[m].waiters, t);
    CursKnown(s.th, t, s.mx[m].waiters, ws[..k], ws[k + 1..]);
  }

  lemma QueueKnown(s: State, t: Thread, m: Mutex)
    requires Inv(s) && CanRun(s, t) && m in s.mx
    ensures SortedBy(CurOf(s.th), s.mx[m].waiters) && t !in s.mx[m].waiters
    ensures forall u :: u in s.mx[m].waiters ==> u in s.th
    ensures Queued(s, t, m).mx[m].waiters == InsertOrdered(CurOf(s.th), s.mx[m].waiters, t)
  {
    assert LinksOk(s, m) && QueueOk(s, m);
  }

  lemma CursKnown(th: map<Thread, Tcb>, t: Thread, was: seq<Thread>, before: seq<Thread>, behind: seq<Thread>)
    requires t in th && (forall u :: u in was ==> u in th) && before + behind == was
    requires forall u :: u in before ==> CurOf(th)(u) <= CurOf(th)(t)
    requires forall u :: u in behind ==> CurOf(th)(u) > CurOf(th)(t)
    ensures forall u :: u in before ==> u in th && th[u].cur <= th[t].cur
    ensures forall u :: u in behind ==> u in th && th[u].cur > th[t].cur
  {
    assert forall u :: u in before ==> u in before + behind;
    assert forall u :: u in behind ==> u in before + behind;
  }

  lemma HoldKeeps(s: State, m: Mutex, h: nat)
    requires Inv(s) && m in s.mx && s.mx[m].owner != null && 0 < h <= HOLD_MAX
    ensures Inv(s.(mx := s.mx[m := s.mx[m].(hold := h)]))
  {
    var r := s.(mx := s.mx[m := s.mx[m].(hold := h)]);
    forall x | x in r.mx ensures LinksOk(r, x) && QueueOk(r, x) {
      assert LinksOk(s, x) && QueueOk(s, x);
      HoldMutex(s, m, h, x);
    }
    forall u | u in r.th ensures ThreadOk(r, u) && Settled(r, u) {
      InvThread(s, u);
      HoldThread(s, m, h, u);
    }
  }

  lemma HoldMutex(s: State, m: Mutex, h: nat, x: Mutex)
    requires m in s.mx && s.mx[m].owner != null && 0 < h <= HOLD_MAX && x in s.mx && LinksOk(s, x) && QueueOk(s, x)
    ensures var r := s.(mx := s.mx[m := s.mx[m].(hold := h)]); LinksOk(r, x) && QueueOk(r, x)
  {
  }

  lemma HoldThread(s: State, m: Mutex, h: nat, u: Thread)
    requires m in s.mx && u in s.th && ThreadOk(s, u) && Settled(s, u)
    ensures var r := s.(mx := s.mx[m := s.mx[m].(hold := h)]); ThreadOk(r, u) && Settled(r, u)
  {
    var r := s.(mx := s.mx[m := s.mx[m].(hold := h)]);
    SameTakenMin(s.mx, r.mx, s.th[u].taken, s.th[u].init);
  }

  lemma InvThread(s: State, t: Thread)
    requires Inv(s) && t in s.th
    ensures ThreadOk(s, t) && Settled(s, t)
  {
  }

  lemma BlockKeeps(s: State, t: Thread, m: Mutex)
    requires Inv(s) && CanRun(s, t) && m in s.mx && s.mx[m].owner != null && s.mx[m].owner != t
    ensures var r, o := Block(s, t, m), s.mx[m].owner;
            && Inv(r) && r.th.Keys == s.th.Keys && r.mx.Keys == s.mx.Keys && Moved(s, r, true)
            && Waits(r, t, m) && r.mx[m].owner == o && o in r.th && r.th[o].cur <= r.th[t].cur
            && (forall u :: u in s.th && u != t ==> r.th[u] == s.th[u].(cur := r.th[u].cur))
  {
    var q, r := Queued(s, t, m), Block(s, t, m);
    BlockShape(s, t, m);
    hide Inv, Block;
    assert r.mx[m] == q.mx[m].(priority := r.mx[m].priority, waiters := r.mx[m].waiters);
    assert Waits(r, t, m);
    OwnerUrgent(r, t, m);
  }

  /** After the queue entry, only priorities and queue orders change. */
  lemma BlockShape(s: State, t: Thread, m: Mutex)
    requires Inv(s) && CanRun(s, t) && m in s.mx && s.mx[m].owner != null && s.mx[m].owner != t
    ensures var q, r := Queued(s, t, m), Block(s, t, m);
            Inv(r) && SameShape(q, r) && Moved(q, r, true)
  {
    var p, q, o := s.th[t].cur, Queued(s, t, m), s.mx[m].owner;
    BlockRaises(s, t, m);
    hide Inv, UpdateDue, Queued;
    if p < s.mx[m].priority && p < q.th[o].cur {
      UpdateRestores(q, o, p);
    }
  }

  /** Releasing hands the mutex to the head of the queue, who is the most urgent waiter; only
      the caller's priority can change, and only towards its own. */
  lemma ReleaseHandsOver(s: State, t: Thread, m: Mutex)
    requires Inv(s) && CanRun(s, t) && m in s.mx
    ensures var (r, out) := Release(s, t, m);
            && Inv(r) && r.th.Keys == s.th.Keys && r.mx.Keys == s.mx.Keys && Moved(s, r, false)
            && (out == NotOwner <==> s.mx[m].owner != t) && (out == Done <==> s.mx[m].owner == t)
            && (out == NotOwner ==> r == s)
            && (out == Done && s.mx[m].hold > 1 ==>
                  r.th == s.th && r.mx == s.mx[m := s.mx[m].(hold := s.mx[m].hold - 1)])
            && (forall u :: u in s.th && u != t ==> r.th[u].cur == s.th[u].cur)
    ensures s.mx[m].owner == t && s.mx[m].hold == 1 ==>
              var r, ws := Release(s, t, m).0, s.mx[m].waiters;
              && (ws == [] ==> r.mx[m].owner == null)
              && (ws != [] ==>
                    && r.mx[m].owner == ws[0] && r.mx[m].hold == 1 && r.mx[m].waiters == ws[1..] && CanRun(r, ws[0])
                    && forall w :: w in ws ==> w in s.th && s.th[ws[0]].cur <= s.th[w].cur)
  {
    assert ThreadOk(s, t) && LinksOk(s, m) && QueueOk(s, m);
    if s.mx[m].owner == t {
      if s.mx[m].hold > 1 {
        HoldKeeps(s, m, s.mx[m].hold - 1);
      } else {
        ReleaseKeeps(s, t, m);
        LastRelease(s, t, m);
      }
    }
  }

  lemma LastRelease(s: State, t: Thread, m: Mutex)
    requires Inv(s) && CanRun(s, t) && m in s.mx && s.mx[m].owner == t && ThreadOk(s, t) && LinksOk(s, m)
    ensures var r, ws := Released(s, t, m), s.mx[m].waiters;
            && Moved(s, r, false)
            && (forall u :: u in s.th && u != t ==> r.th[u].cur == s.th[u].cur)
            && (ws == [] ==> r.mx[m].owner == null)
            && (ws != [] ==>
                  && r.mx[m].owner == ws[0] && r.mx[m].hold == 1 && r.mx[m].waiters == ws[1..] && CanRun(r, ws[0])
                  && forall w :: w in ws ==> w in s.th && s.th[ws[0]].cur <= s.th[w].cur)
  {
    var r, ws := Released(s, t, m), s.mx[m].waiters;
    assert QueueOk(s, m) && Settled(s, t);
    ReleasedFields(s, t, m);
    ReleasedUp(s, t, m);
    hide Released;
    forall w | w in ws ensures w in s.th && s.th[ws[0]].cur <= s.th[w].cur {
      var i :| 0 <= i < |ws| && ws[i] == w;
      assert CurOf(s.th)(ws[0]) <= CurOf(s.th)(ws[i]);
    }
  }

  lemma ReleasedUp(s: State, t: Thread, m: Mutex)
    requires Releasing(s, t, m) && Settled(s, t)
    ensures Released(s, t, m).th[t].cur >= s.th[t].cur
  {
    hide Released, HandOver;
    ReleasedFields(s, t, m);
    ReleasedCaller(s, t, m);
    GiveUpTaken(s, t, m);
    RemoveMembers(s.th[t].taken, m);
    var taken := Remove(s.th[t].taken, m);
    assert TakenMin(s.mx, taken, s.th[t].init) >= TakenMin(s.mx, s.th[t].taken, s.th[t].init);
  }

  /** A take that succeeds, of a free mutex or once more of one's own, is undone exactly by a
      release. */
  lemma TakeReleaseRoundTrip(s: State, t: Thread, m: Mutex, wait: bool)
    requires Inv(s) && CanRun(s, t) && m in s.mx && Take(s, t, m, wait).1 == Done
    ensures var r := Take(s, t, m, wait).0; Inv(r) && CanRun(r, t) && Release(r, t, m) == (s, Done)
  {
    InvThread(s, t);
    assert LinksOk(s, m) && QueueOk(s, m);
    if s.mx[m].owner == null {
      AcquireKeeps(s, t, m);
      assert ThreadOk(Acquire(s, t, m), t) && LinksOk(Acquire(s, t, m), m);
      ReleaseAcquired(s, t, m);
    } else {
      HoldKeeps(s, m, s.mx[m].hold + 1);
      HoldBack(s, m);
    }
  }

  lemma HoldBack(s: State, m: Mutex)
    requires m in s.mx
    ensures var c := s.mx[m]; s.mx[m := c.(hold := c.hold + 1)][m := c] == s.mx
  {
  }

  lemma ReleaseAcquired(s: State, t: Thread, m: Mutex)
    requires CanRun(s, t) && m in s.mx && ThreadOk(s, t) && Settled(s, t) && LinksOk(s, m) && QueueOk(s, m)
    requires s.mx[m].owner == null
    requires var r := Acquire(s, t, m); ThreadOk(r, t) && LinksOk(r, m)
    ensures Released(Acquire(s, t, m), t, m) == s
  {
    var r := Acquire(s, t, m);
    GiveUpAcquired(s, t, m);
    assert r.mx[m].waiters == [];
    assert s.mx[m] == Mcb(null, NO_WAITER, 0, []);
    hide GiveUp, ThreadOk, LinksOk, QueueOk;
    assert HandOver(GiveUp(r, t, m), m).mx == s.mx;
  }

  lemma GiveUpAcquired(s: State, t: Thread, m: Mutex)
    requires t in s.th && m in s.mx && ThreadOk(s, t) && Settled(s, t) && ThreadOk(Acquire(s, t, m), t)
    requires s.mx[m].owner == null
    ensures GiveUp(Acquire(s, t, m), t, m).th == s.th
  {
    hide Remove, TakenMin, NoDup;
    var r := Acquire(s, t, m);
    RemoveFirst(m, s.th[t].taken);
    SameTakenMin(s.mx, r.mx, s.th[t].taken, s.th[t].init);
  }

  lemma RemoveFirst<T>(x: T, rest: seq<T>)
    ensures Remove([x] + rest, x) == rest
  {
  }

  // ---------------------------------------------------------------- closing a thread

  /** A thread that waits for no mutex can change its scheduling state freely. */
  lemma RetagKeeps(s: State, t: Thread, c: Tcb)
    requires Inv(s) && t in s.th && (forall m :: m in s.mx ==> !Waits(s, t, m))
    requires c == s.th[t].(stat := c.stat, pending := c.pending) && (c.stat != Closed ==> c.pending == null)
    ensures Inv(s.(th := s.th[t := c]))
  {
    hide LinksOk, QueueOk, NoDup, TakenMin, SortedBy;
    var r := s.(th := s.th[t := c]);
    forall x | x in r.mx ensures LinksOk(r, x) && QueueOk(r, x) {
      RetagMutex(s, t, c, x);
    }
    forall u | u in r.th ensures ThreadOk(r, u) && Settled(r, u) {
      InvThread(s, u);
      RetagThread(s, t, c, u);
    }
  }

  lemma RetagThread(s: State, t: Thread, c: Tcb, u: Thread)
    requires t in s.th && u in s.th && ThreadOk(s, u) && Settled(s, u)
    requires c == s.th[t].(stat := c.stat, pending := c.pending) && (c.stat != Closed ==> c.pending == null)
    ensures var r := s.(th := s.th[t := c]); ThreadOk(r, u) && Settled(r, u)
  {
    hide NoDup, TakenMin;
  }

  lemma RetagMutex(s: State, t: Thread, c: Tcb, x: Mutex)
    requires Inv(s) && t in s.th && x in s.mx && !Waits(s, t, x)
    requires c == s.th[t].(stat := c.stat, pending := c.pending)
    ensures var r := s.(th := s.th[t := c]); LinksOk(r, x) && QueueOk(r, x)
  {
    var r := s.(th := s.th[t := c]);
    assert LinksOk(s, x) && QueueOk(s, x);
    hide Inv;
    assert forall w :: w in s.mx[x].waiters ==> Waits(s, w, x) && w != t;
    SameCurSorted(s, r, s.mx[x].waiters);
  }

  lemma DropKeeps(s: State, t: Thread, m: Mutex)
    requires Inv(s) && Waits(s, t, m)
    ensures var r := DropThread(s, t, m);
            && Inv(r) && r.th.Keys == s.th.Keys && r.mx.Keys == s.mx.Keys && Moved(s, r, false)
            && r.th[t].stat == Closed
            && (forall u :: u in s.th ==> r.th[u] == s.th[u].(cur := r.th[u].cur, stat := r.th[u].stat)
                                          && (u != t ==> r.th[u].stat == s.th[u].stat))
            && (forall x :: x in s.mx ==> r.mx[x].owner == s.mx[x].owner)
  {
    hide LinksOk, QueueOk, TakenMin, NoDup, Remove, SortedBy;
    PendingLinks(s, t, m);
    DropLowers(s, t, m);
    DroppedPriority(s, t, m);
    var d, o := Dropped(s, t, m), s.mx[m].owner;
    if d.th[o].cur == d.th[t].cur && Deserved(d, o) != d.th[o].cur {
      UpdateRestores(d, o, Deserved(d, o));
    }
  }

  /** A waiter can be taken away at any time: everyone it had made more urgent is reconsidered. */
  lemma CloseKeeps(s: State, t: Thread)
    requires Inv(s) && t in s.th && s.th[t].stat != Closed
    ensures var r := Close(s, t);
            && Inv(r) && r.th.Keys == s.th.Keys && r.mx.Keys == s.mx.Keys && Moved(s, r, false)
            && r.th[t].stat == Closed && (forall m :: m in r.mx ==> t !in r.mx[m].waiters)
            && r.th[t].taken == s.th[t].taken && (forall m :: m in s.mx ==> r.mx[m].owner == s.mx[m].owner)
            && (forall u :: u in s.th && u != t ==> r.th[u] == s.th[u].(cur := r.th[u].cur))
  {
    var m, r := s.th[t].pending, Close(s, t);
    assert ThreadOk(s, t);
    if m == null {
      RetagKeeps(s, t, s.th[t].(stat := Closed));
      assert r == s.(th := s.th[t := s.th[t].(stat := Closed)]);
    } else {
      DropKeeps(s, t, m);
      var d := DropThread(s, t, m);
      RetagKeeps(d, t, d.th[t].(pending := null));
    }
    assert r.th[t].stat == Closed;
    forall x | x in r.mx ensures t !in r.mx[x].waiters {
      assert LinksOk(r, x);
      assert !Waits(r, t, x);
    }
  }

  // ---------------------------------------------------------------- runs

  /** What a thread can do; `Sleep` and `Wake` stand for every other way to be suspended. */
  datatype Op =
    | OpTake(t: Thread, m: Mutex, wait: bool)
    | OpRelease(t: Thread, m: Mutex)
    | OpClose(t: Thread)
    | OpSleep(t: Thread)
    | OpWake(t: Thread)

  ghost predicate Enabled(s: State, op: Op) {
    match op
    case OpTake(t, m, _) => CanRun(s, t) && m in s.mx
    case OpRelease(t, m) => CanRun(s, t) && m in s.mx
    case OpClose(t) => t in s.th && s.th[t].stat != Closed
    case OpSleep(t) => CanRun(s, t)
    case OpWake(t) => t in s.th && s.th[t].stat == Suspended && s.th[t].pending == null
  }

  ghost function Step(s: State, op: Op): (r: State)
    requires Inv(s) && Enabled(s, op)
  {
    match op
    case OpTake(t, m, wait) => Take(s, t, m, wait).0
    case OpRelease(t, m) => Release(s, t, m).0
    case OpClose(t) => Close(s, t)
    case OpSleep(t) => s.(th := s.th[t := s.th[t].(stat := Suspended)])
    case OpWake(t) => s.(th := s.th[t := s.th[t].(stat := Runnable)])
  }

  lemma StepKeeps(s: State, op: Op)
    requires Inv(s) && Enabled(s, op)
    ensures Inv(Step(s, op)) && Step(s, op).th.Keys == s.th.Keys && Step(s, op).mx.Keys == s.mx.Keys
  {
    hide Inv;
    match op
    case OpTake(t, m, wait) => TakeKeeps(s, t, m, wait);
    case OpRelease(t, m) => ReleaseHandsOver(s, t, m);
    case OpClose(t) => CloseKeeps(s, t);
    case OpSleep(t) =>
      assert ThreadOk(s, t) by { InvThread(s, t); }
      RetagKeeps(s, t, s.th[t].(stat := Suspended));
    case OpWake(t) =>
      RetagKeeps(s, t, s.th[t].(stat := Runnable));
  }

  /** `r` is reached from `s` by enabled operations. */
  ghost predicate Reaches(s: State, ops: seq<Op>, r: State)
    requires Inv(s)
    decreases |ops|
  {
    if ops == [] then r == s
    else
      && Enabled(s, ops[0])
      && (StepKeeps(s, ops[0]); Reaches(Step(s, ops[0]), ops[1..], r))
  }

  /** All mutexes free, every thread at its own priority. */
  ghost predicate Initial(s: State) {
    && (forall t :: t in s.th ==> s.th[t].cur == s.th[t].init && s.th[t].taken == []
                                  && s.th[t].pending == null && s.th[t].stat != Closed)
    && (forall m :: m in s.mx ==> s.mx[m] == Mcb(null, NO_WAITER, 0, []))
  }

  lemma InitialInv(s: State)
    requires Initial(s)
    ensures Inv(s)
  {
    forall m | m in s.mx ensures LinksOk(s, m) && QueueOk(s, m) {
    }
    forall t | t in s.th ensures ThreadOk(s, t) && Settled(s, t) {
    }
  }

  /** The inheritance equation and all links hold after any sequence of operations. */
  lemma {:induction false} RunKeeps(s: State, ops: seq<Op>, r: State)
    requires Inv(s) && Reaches(s, ops, r)
    ensures Inv(r)
    decreases |ops|
  {
    if ops != [] {
      StepKeeps(s, ops[0]);
      RunKeeps(Step(s, ops[0]), ops[1..], r);
    }
  }
}
