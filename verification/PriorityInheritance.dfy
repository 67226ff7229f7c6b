/** The state of all threads and mutexes as a value, the invariant that the mutex code
    restores, and the priority update that walks a chain of blocked threads. */
module PriorityInheritance {

  import opened KernelTypes
  import opened OrderedList

  /** Scheduling state of a thread, as far as mutexes can see it. */
  datatype Stat = Runnable | Suspended | Closed

  /** A thread control block. */
  class Thread {
    const initPriority: Priority
    var currentPriority: Priority
    var stat: Stat
    var pendingObject: Mutex?
    var taken: seq<Mutex>

    constructor (priority: Priority)
      ensures initPriority == currentPriority == priority
      ensures stat == Runnable && pendingObject == null && taken == []
    {
      initPriority, currentPriority := priority, priority;
      stat, pendingObject, taken := Runnable, null, [];
    }
  }

  /** A mutex; `waiters` is its suspended-thread list. */
  class Mutex {
    var owner: Thread?
    var priority: Priority
    var hold: nat
    var waiters: seq<Thread>

    constructor ()
      ensures owner == null && priority == NO_WAITER && hold == 0 && waiters == []
    {
      owner, priority, hold, waiters := null, NO_WAITER, 0, [];
    }
  }

  /** The values held by one thread and by one mutex. */
  datatype Tcb = Tcb(init: Priority, cur: Priority, stat: Stat, pending: Mutex?, taken: seq<Mutex>)
  datatype Mcb = Mcb(owner: Thread?, priority: Priority, hold: nat, waiters: seq<Thread>)

  datatype State = State(th: map<Thread, Tcb>, mx: map<Mutex, Mcb>)

  // ---------------------------------------------------------------- reading the state

  ghost function CurOf(th: map<Thread, Tcb>): (r: Thread -> nat) {
    t => if t in th then th[t].cur as nat else NO_WAITER as nat
  }

  ghost predicate Waits(s: State, t: Thread, m: Mutex) {
    t in s.th && s.th[t].stat == Suspended && s.th[t].pending == m
  }

  /** The most urgent of `p` and the priorities of the mutexes in `taken`. */
  ghost function TakenMin(mx: map<Mutex, Mcb>, taken: seq<Mutex>, p: Priority): (r: Priority)
    requires forall m :: m in taken ==> m in mx
    ensures r <= p && forall m :: m in taken ==> r <= mx[m].priority
    ensures r == p || exists m :: m in taken && mx[m].priority == r
  {
    if taken == [] then p
    else TakenMin(mx, taken[1..], if p > mx[taken[0]].priority then mx[taken[0]].priority else p)
  }

  /** What thread `t` should run at: its own priority or that of a mutex it holds. */
  ghost function Deserved(s: State, t: Thread): (r: Priority)
    requires t in s.th && forall m :: m in s.th[t].taken ==> m in s.mx
  {
    TakenMin(s.mx, s.th[t].taken, s.th[t].init)
  }

  ghost function HeadPriority(s: State, ws: seq<Thread>): (r: Priority) {
    if ws == [] || ws[0] !in s.th then NO_WAITER else s.th[ws[0]].cur
  }

  // ---------------------------------------------------------------- the invariant

  ghost predicate ThreadOk(s: State, t: Thread)
    requires t in s.th
  {
    var c := s.th[t];
    && NoDup(c.taken)
    && (forall m :: m in c.taken ==> m in s.mx && s.mx[m].owner == t)
    && (c.stat == Suspended && c.pending != null ==>
          c.pending in s.mx && t in s.mx[c.pending].waiters)
    && (c.stat == Runnable ==> c.pending == null)
  }

  /** Everything about a mutex except the order of its queue and its priority field. */
  ghost predicate LinksOk(s: State, m: Mutex)
    requires m in s.mx
  {
    var c := s.mx[m];
    && (c.owner != null ==> c.owner in s.th && m in s.th[c.owner].taken)
    && (c.owner == null ==> c.waiters == [])
    && (c.hold == 0 <==> c.owner == null) && c.hold <= HOLD_MAX
    && NoDup(c.waiters)
    && (forall w :: w in c.waiters ==> Waits(s, w, m) && w != c.owner)
  }

  ghost predicate QueueOk(s: State, m: Mutex)
    requires m in s.mx
  {
    SortedBy(CurOf(s.th), s.mx[m].waiters) && s.mx[m].priority == HeadPriority(s, s.mx[m].waiters)
  }

  ghost predicate Links(s: State) {
    && (forall t {:trigger ThreadOk(s, t)} :: t in s.th ==> ThreadOk(s, t))
    && (forall m {:trigger LinksOk(s, m)} :: m in s.mx ==> LinksOk(s, m))
  }

  ghost predicate Structured(s: State) {
    Links(s) && forall m {:trigger QueueOk(s, m)} :: m in s.mx ==> QueueOk(s, m)
  }

  ghost predicate Settled(s: State, t: Thread)
    requires t in s.th && forall m :: m in s.th[t].taken ==> m in s.mx
  {
    s.th[t].cur == Deserved(s, t)
  }

  /** The inheritance equation holds for every thread but possibly `x`. */
  ghost predicate SettledBut(s: State, x: Thread?)
    requires Links(s)
  {
    forall t {:trigger Settled(s, t)} :: t in s.th && t != x ==> ThreadOk(s, t) && Settled(s, t)
  }

  ghost predicate Inv(s: State) {
    Structured(s) && SettledBut(s, null)
  }

  // ---------------------------------------------------------------- single-field updates

  ghost function SetCur(s: State, t: Thread, p: Priority): (r: State)
    requires t in s.th
  {
    s.(th := s.th[t := s.th[t].(cur := p)])
  }

  ghost function SetWaiters(s: State, m: Mutex, ws: seq<Thread>): (r: State)
    requires m in s.mx
  {
    s.(mx := s.mx[m := s.mx[m].(waiters := ws)])
  }

  ghost function SetMutexPriority(s: State, m: Mutex, p: Priority): (r: State)
    requires m in s.mx
  {
    s.(mx := s.mx[m := s.mx[m].(priority := p)])
  }

  /** Takes `t` out of the queue of `m`, puts it back by its new priority and refreshes the
      mutex priority from the head of the queue. */
  ghost function Requeue(s: State, t: Thread, m: Mutex): (r: State)
    requires m in s.mx
  {
    var ws := InsertOrdered(CurOf(s.th), Remove(s.mx[m].waiters, t), t);
    SetMutexPriority(SetWaiters(s, m, ws), m, HeadPriority(s, ws))
  }

  // ---------------------------------------------------------------- the recursive update

  /** What only the priority fields and queue orders may differ in. */
  ghost predicate SameShape(s: State, r: State) {
    && s.th.Keys == r.th.Keys && s.mx.Keys == r.mx.Keys
    && (forall t :: t in s.th ==> r.th[t] == s.th[t].(cur := r.th[t].cur))
    && (forall m :: m in s.mx ==>
          && r.mx[m] == s.mx[m].(priority := r.mx[m].priority, waiters := r.mx[m].waiters)
          && (forall t :: t in r.mx[m].waiters ==> t in s.mx[m].waiters)
          && (forall t :: t in s.mx[m].waiters ==> t in r.mx[m].waiters))
  }

  /** A call of the update is due: `t` is the only unsettled thread and `p` settles it. */
  ghost predicate UpdateDue(s: State, t: Thread, p: Priority) {
    && Structured(s) && SettledBut(s, t)
    && t in s.th && ThreadOk(s, t) && p == Deserved(s, t) && p != s.th[t].cur
  }

  /** The room left for priorities to move in: a finite set that every call shrinks. */
  ghost function Room(s: State, up: bool): (r: set<(Thread, int)>) {
    if up then set t, k | t in s.th && 0 <= k < s.th[t].cur :: (t, k)
    else set t, k | t in s.th && s.th[t].cur < k <= NO_WAITER :: (t, k)
  }

  /** `_thread_update_priority`: set the priority of `t`; when `t` waits for a mutex, move it
      within the queue, refresh the mutex and go on with the owner. */
  ghost function UpdatePriority(s: State, t: Thread, p: Priority): (r: State)
    requires UpdateDue(s, t, p)
    decreases Room(s, p < s.th[t].cur)
  {
    var s1 := SetCur(s, t, p);
    var m := s.th[t].pending;
    if s.th[t].stat == Suspended && m != null then
      UpdateStep(s, t, p);
      var s2 := Requeue(s1, t, m);
      var o := s.mx[m].owner;
      var q := Deserved(s2, o);
      if q != s2.th[o].cur then UpdatePriority(s2, o, q) else s2
    else
      s1
  }

  /** Direction of a change of priorities. */
  ghost predicate Moved(s: State, r: State, up: bool)
    requires s.th.Keys == r.th.Keys
  {
    forall t :: t in s.th ==> if up then r.th[t].cur <= s.th[t].cur else r.th[t].cur >= s.th[t].cur
  }

  // ---------------------------------------------------------------- proof of the update

  lemma UpdateLast(s: State, t: Thread, p: Priority)
    requires UpdateDue(s, t, p)
    requires s.th[t].stat != Suspended || s.th[t].pending == null
    ensures Inv(SetCur(s, t, p))
  {
    var r := SetCur(s, t, p);
    forall m | m in r.mx ensures LinksOk(r, m) && QueueOk(r, m) {
      assert LinksOk(s, m) && QueueOk(s, m);
      assert t !in s.mx[m].waiters;
    }
    forall u | u in r.th ensures ThreadOk(r, u) && Settled(r, u) {
      assert ThreadOk(s, u) && (u != t ==> Settled(s, u));
    }
  }

  /** One level of the recursion: afterwards only the owner of the mutex can be unsettled. */
  lemma UpdateStep(s: State, t: Thread, p: Priority)
    requires UpdateDue(s, t, p)
    requires s.th[t].stat == Suspended && s.th[t].pending != null
    ensures var m := s.th[t].pending; m in s.mx && s.mx[m].owner != null && s.mx[m].owner in s.th
    ensures var m := s.th[t].pending; var o := s.mx[m].owner;
            var r := Requeue(SetCur(s, t, p), t, m);
            && SameShape(s, r) && Moved(s, r, p < s.th[t].cur)
            && o in r.th && ThreadOk(r, o)
            && (Settled(r, o) ==> Inv(r))
            && (!Settled(r, o) ==>
                  && UpdateDue(r, o, Deserved(r, o))
                  && (Deserved(r, o) < r.th[o].cur <==> p < s.th[t].cur)
                  && Room(r, p < s.th[t].cur) < Room(s, p < s.th[t].cur))
  {
    hide Requeue, LinksOk, QueueOk, TakenMin, NoDup, Room;
    var m := s.th[t].pending;
    PendingLinks(s, t, m);
    var o := s.mx[m].owner;
    var r := Requeue(SetCur(s, t, p), t, m);
    RequeueKeeps(s, t, m, p);
    RequeueFields(s, t, m, p);
    RoomShrinks(s, r, t, p < s.th[t].cur);
    StepSettles(s, t, m, r);
    StepOwner(s, r, m, p < s.th[t].cur);
    assert Settled(s, o);
  }

  lemma RequeueFields(s: State, t: Thread, m: Mutex, p: Priority)
    requires t in s.th && m in s.mx
    ensures var r := Requeue(SetCur(s, t, p), t, m);
            r.th == SetCur(s, t, p).th && forall x :: x in s.mx && x != m ==> r.mx[x] == s.mx[x]
  {
    hide InsertOrdered, Remove;
  }

  lemma PendingLinks(s: State, t: Thread, m: Mutex)
    requires Structured(s) && Waits(s, t, m)
    ensures ThreadOk(s, t) && m in s.mx && LinksOk(s, m) && QueueOk(s, m) && t in s.mx[m].waiters
    ensures s.mx[m].owner != null && s.mx[m].owner in s.th && s.mx[m].owner != t
  {
    assert ThreadOk(s, t) && LinksOk(s, m);
  }

  /** Threads other than the owner hold none of the mutexes whose priority moved. */
  lemma StepSettles(s: State, t: Thread, m: Mutex, r: State)
    requires Structured(s) && Structured(r) && SettledBut(s, t) && SameShape(s, r)
    requires t in s.th && m in s.mx && ThreadOk(s, t) && r.th[t].cur == Deserved(s, t)
    requires forall u :: u in s.th && u != t ==> r.th[u].cur == s.th[u].cur
    requires forall x :: x in s.mx && x != m ==> r.mx[x] == s.mx[x]
    ensures SettledBut(r, s.mx[m].owner)
  {
    hide TakenMin, NoDup, LinksOk, QueueOk;
    forall u | u in r.th && u != s.mx[m].owner ensures ThreadOk(r, u) && Settled(r, u) {
      assert ThreadOk(s, u) && ThreadOk(r, u) && (u != t ==> Settled(s, u));
      TakenMinMonotone(s.mx, r.mx, s.th[u].taken, s.th[u].init);
      TakenMinMonotone(r.mx, s.mx, s.th[u].taken, s.th[u].init);
    }
  }

  /** What the owner deserves moves the same way. */
  lemma StepOwner(s: State, r: State, m: Mutex, up: bool)
    requires Structured(s) && Structured(r) && SameShape(s, r) && Moved(s, r, up)
    requires m in s.mx && s.mx[m].owner != null && s.mx[m].owner in s.th
    requires forall x :: x in s.mx && x != m ==> r.mx[x] == s.mx[x]
    ensures var o := s.mx[m].owner;
            ThreadOk(s, o) && ThreadOk(r, o)
            && if up then Deserved(r, o) <= Deserved(s, o) else Deserved(r, o) >= Deserved(s, o)
  {
    var o := s.mx[m].owner;
    HeadMoves(s, r, m, up);
    assert ThreadOk(s, o) && ThreadOk(r, o);
    if up {
      TakenMinMonotone(r.mx, s.mx, s.th[o].taken, s.th[o].init);
    } else {
      TakenMinMonotone(s.mx, r.mx, s.th[o].taken, s.th[o].init);
    }
  }

  lemma TakenMinMonotone(a: map<Mutex, Mcb>, b: map<Mutex, Mcb>, taken: seq<Mutex>, p: Priority)
    requires forall m :: m in taken ==> m in a && m in b && a[m].priority <= b[m].priority
    ensures TakenMin(a, taken, p) <= TakenMin(b, taken, p)
  {
  }

  /** The priority of a mutex moves the way the priorities of its waiters moved. */
  lemma HeadMoves(s: State, r: State, m: Mutex, up: bool)
    requires Structured(s) && Structured(r) && SameShape(s, r) && Moved(s, r, up) && m in s.mx
    ensures if up then r.mx[m].priority <= s.mx[m].priority else r.mx[m].priority >= s.mx[m].priority
  {
    assert LinksOk(s, m) && QueueOk(s, m) && LinksOk(r, m) && QueueOk(r, m);
    var ws, vs := s.mx[m].waiters, r.mx[m].waiters;
    assert ws != [] ==> ws[0] in vs;
    assert vs != [] ==> vs[0] in ws;
    if ws != [] && vs != [] {
      var i :| 0 <= i < |vs| && vs[i] == ws[0];
      var j :| 0 <= j < |ws| && ws[j] == vs[0];
    }
  }

  lemma RoomShrinks(s: State, r: State, t: Thread, up: bool)
    requires SameShape(s, r) && Moved(s, r, up) && t in s.th && r.th[t].cur != s.th[t].cur
    ensures Room(r, up) < Room(s, up)
  {
    if up {
      assert (t, r.th[t].cur) in Room(s, up) && (t, r.th[t].cur) !in Room(r, up);
    } else {
      assert (t, r.th[t].cur) in Room(s, up) && (t, r.th[t].cur) !in Room(r, up);
    }
  }

  /** The re-queued list holds the same threads, in order of their new priorities. */
  lemma RequeuedList(s: State, t: Thread, m: Mutex, p: Priority)
    requires t in s.th && m in s.mx && LinksOk(s, m) && QueueOk(s, m) && t in s.mx[m].waiters
    ensures var s1 := SetCur(s, t, p); var ws := Requeue(s1, t, m).mx[m].waiters;
            && NoDup(ws) && SortedBy(CurOf(s1.th), ws)
            && (forall x :: x in ws ==> x in s.mx[m].waiters)
            && (forall x :: x in s.mx[m].waiters ==> x in ws)
  {
    var s1, ws := SetCur(s, t, p), s.mx[m].waiters;
    MoveKeeps(CurOf(s1.th), ws, t);
  }

  /** Links say nothing about priorities and the order of queues. */
  lemma LinksTransfer(s: State, r: State)
    requires Links(s) && SameShape(s, r)
    requires forall m :: m in r.mx ==> NoDup(r.mx[m].waiters)
    ensures Links(r)
  {
    forall x | x in r.mx ensures LinksOk(r, x) {
      assert LinksOk(s, x);
      forall w | w in r.mx[x].waiters ensures Waits(r, w, x) && w != r.mx[x].owner {
        assert w in s.mx[x].waiters;
        assert Waits(s, w, x);
      }
      assert r.mx[x].waiters != [] ==> r.mx[x].waiters[0] in s.mx[x].waiters;
    }
    forall u | u in r.th ensures ThreadOk(r, u) {
      assert ThreadOk(s, u);
    }
  }

  /** Re-queueing repairs the only queue that the new priority of `t` can have disturbed. */
  lemma RequeueKeeps(s: State, t: Thread, m: Mutex, p: Priority)
    requires Structured(s) && Waits(s, t, m)
    ensures m in s.mx && t in s.mx[m].waiters
    ensures var r := Requeue(SetCur(s, t, p), t, m); Structured(r) && SameShape(s, r)
  {
    hide InsertOrdered, Remove, SortedBy, NoDup;
    assert ThreadOk(s, t) && LinksOk(s, m) && QueueOk(s, m);
    var r := Requeue(SetCur(s, t, p), t, m);
    RequeuedList(s, t, m, p);
    assert SameShape(s, r);
    forall x | x in r.mx ensures NoDup(r.mx[x].waiters) && QueueOk(r, x) {
      assert LinksOk(s, x) && QueueOk(s, x);
      if x != m {
        QueueUnmoved(s, r, x);
      }
    }
    LinksTransfer(s, r);
  }

  /** A queue none of whose threads changed priority is still in order. */
  lemma QueueUnmoved(s: State, r: State, x: Mutex)
    requires x in s.mx && x in r.mx && r.mx[x] == s.mx[x] && QueueOk(s, x)
    requires forall w :: w in s.mx[x].waiters ==> CurOf(s.th)(w) == CurOf(r.th)(w)
    ensures QueueOk(r, x)
  {
    var ws := s.mx[x].waiters;
    assert ws != [] ==> CurOf(s.th)(ws[0]) == CurOf(r.th)(ws[0]);
  }

  lemma ShapeTransitive(a: State, b: State, c: State, up: bool)
    requires SameShape(a, b) && SameShape(b, c) && Moved(a, b, up) && Moved(b, c, up)
    ensures SameShape(a, c) && Moved(a, c, up)
  {
  }

  /** The update restores the inheritance equation of every thread, along chains of any length,
      changes nothing but priorities and queue orders, and moves priorities one way only. */
  lemma {:induction false} UpdateRestores(s: State, t: Thread, p: Priority)
    requires UpdateDue(s, t, p)
    ensures var r := UpdatePriority(s, t, p);
            Inv(r) && SameShape(s, r) && Moved(s, r, p < s.th[t].cur)
    decreases Room(s, p < s.th[t].cur)
  {
    var m := s.th[t].pending;
    if s.th[t].stat == Suspended && m != null {
      UpdateStep(s, t, p);
      var s2 := Requeue(SetCur(s, t, p), t, m);
      var o := s.mx[m].owner;
      var q := Deserved(s2, o);
      if q != s2.th[o].cur {
        UpdateRestores(s2, o, q);
        ShapeTransitive(s, s2, UpdatePriority(s2, o, q), p < s.th[t].cur);
      }
    } else {
      UpdateLast(s, t, p);
    }
  }

  /** Whoever owns a mutex is at least as urgent as everyone who waits for it. */
  lemma OwnerUrgent(s: State, t: Thread, m: Mutex)
    requires Inv(s) && Waits(s, t, m)
    ensures m in s.mx && s.mx[m].owner != null && s.mx[m].owner in s.th && s.mx[m].owner != t
    ensures s.th[s.mx[m].owner].cur <= s.mx[m].priority <= s.th[t].cur
  {
    assert ThreadOk(s, t) && LinksOk(s, m) && QueueOk(s, m);
    var o := s.mx[m].owner;
    assert ThreadOk(s, o) && Settled(s, o);
    var ws := s.mx[m].waiters;
    var i :| 0 <= i < |ws| && ws[i] == t;
    assert CurOf(s.th)(ws[0]) <= CurOf(s.th)(ws[i]);
  }
}
