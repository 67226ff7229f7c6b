/** The mutex code itself: thread and mutex objects updated in place, every method proved
    against the functions on the state. */
module MutexCode {

  import opened KernelTypes
  import opened OrderedList
  import opened PriorityInheritance
  import opened MutexProtocol

  class Kernel {
    ghost const threads: set<Thread>
    ghost const mutexes: set<Mutex>

    ghost constructor (ts: set<Thread>, ms: set<Mutex>)
      ensures threads == ts && mutexes == ms
    {
      threads, mutexes := ts, ms;
    }

    /** The values held by all objects. */
    ghost function Abs(): (r: State)
      reads threads, mutexes
    {
      State(map t: Thread | t in threads ::
              Tcb(t.initPriority, t.currentPriority, t.stat, t.pendingObject, t.taken),
            map m: Mutex | m in mutexes :: Mcb(m.owner, m.priority, m.hold, m.waiters))
    }

    /** `rt_thread_control` with RT_THREAD_CTRL_CHANGE_PRIORITY. */
    method ChangePriority(t: Thread, p: Priority)
      requires t in threads
      modifies t`currentPriority
      ensures Abs() == SetCur(old(Abs()), t, p)
    {
      t.currentPriority := p;
    }

    /** `rt_list_remove` on the list node of a waiting thread. */
    method ListRemove(m: Mutex, t: Thread)
      requires m in mutexes
      modifies m`waiters
      ensures Abs() == SetWaiters(old(Abs()), m, Remove(old(m.waiters), t))
    {
      m.waiters := Remove(m.waiters, t);
    }

    /** The search of `_ipc_list_suspend` for the first waiter that is less urgent than `t`. */
    method FindPosition(m: Mutex, t: Thread) returns (n: nat)
      requires m in mutexes && t in threads && forall w :: w in m.waiters ==> w in threads
      ensures n == FindPos(CurOf(Abs().th), m.waiters, t.currentPriority)
    {
      n := 0;
      while n < |m.waiters| && t.currentPriority >= m.waiters[n].currentPriority
        invariant n <= |m.waiters|
        invariant forall i :: 0 <= i < n ==> m.waiters[i].currentPriority <= t.currentPriority
      {
        n := n + 1;
      }
      ghost var cur := CurOf(Abs().th);
      assert forall w :: w in threads ==> cur(w) == w.currentPriority;
      FindPosIs(cur, m.waiters, t.currentPriority, n);
    }

    /** `rt_thread_suspend_with_flag`, as far as mutexes can see it. */
    method ThreadSuspend(t: Thread)
      requires t in threads
      modifies t`stat
      ensures Abs() == SetStat(old(Abs()), t, Suspended)
    {
      t.stat := Suspended;
    }

    /** `rt_list_insert_before` at position `n` of the queue. */
    method ListInsert(m: Mutex, n: nat, t: Thread)
      requires m in mutexes && n <= |m.waiters|
      modifies m`waiters
      ensures Abs() == SetWaiters(old(Abs()), m, old(m.waiters[..n] + [t] + m.waiters[n..]))
    {
      m.waiters := m.waiters[..n] + [t] + m.waiters[n..];
    }

    /** `_ipc_list_suspend` for a queue ordered by priority. */
    method ListSuspend(m: Mutex, t: Thread)
      requires m in mutexes && t in threads && forall w :: w in m.waiters ==> w in threads
      modifies m`waiters, t`stat
      ensures Abs() == Suspend(old(Abs()), t, m)
    {
      ghost var s := Abs();
      Fields(s);
      var n := FindPosition(m, t);
      if t.stat != Suspended {
        ThreadSuspend(t);
      }
      assert Abs() == SetStat(s, t, Suspended);
      hide Abs;
      ListInsert(m, n, t);
    }

    /** `_mutex_update_priority`. */
    method MutexUpdatePriority(m: Mutex) returns (p: Priority)
      requires m in mutexes && forall w :: w in m.waiters ==> w in threads
      modifies m`priority
      ensures p == HeadPriority(old(Abs()), old(m.waiters))
      ensures Abs() == SetMutexPriority(old(Abs()), m, p)
    {
      m.priority := if m.waiters != [] then m.waiters[0].currentPriority else NO_WAITER;
      p := m.priority;
    }

    /** `_thread_get_mutex_priority`. */
    method ThreadGetMutexPriority(t: Thread) returns (p: Priority)
      requires t in threads && forall m :: m in t.taken ==> m in mutexes
      ensures p == Deserved(Abs(), t)
    {
      p := t.initPriority;
      var i := 0;
      while i < |t.taken|
        invariant i <= |t.taken|
        invariant TakenMin(Abs().mx, t.taken[i..], p) == Deserved(Abs(), t)
      {
        if p > t.taken[i].priority {
          p := t.taken[i].priority;
        }
        i := i + 1;
      }
    }

    /** Reading one thread or one mutex. */
    lemma Fields(s: State)
      requires s == Abs()
      ensures s.th.Keys == threads && s.mx.Keys == mutexes
      ensures forall t :: t in threads ==>
                s.th[t] == Tcb(t.initPriority, t.currentPriority, t.stat, t.pendingObject, t.taken)
      ensures forall m :: m in mutexes ==> s.mx[m] == Mcb(m.owner, m.priority, m.hold, m.waiters)
    {
    }

    /** The middle of `_thread_update_priority`: re-insert a waiter and refresh its mutex. */
    method RequeueInPlace(m: Mutex, t: Thread)
      requires Waits(Abs(), t, m) && m in mutexes && NoDup(m.waiters) && forall w :: w in m.waiters ==> w in threads
      modifies m`waiters, m`priority, t`stat
      ensures Abs() == Requeue(old(Abs()), t, m)
    {
      hide Abs, NoDup, Remove, FindPos, Requeue;
      ghost var s := Abs();
      Fields(s);
      RemoveMembers(m.waiters, t);
      ListRemove(m, t);
      Fields(Abs());
      ListSuspend(m, t);
      Fields(Abs());
      RequeuedIs(s, t, m);
      var mp := MutexUpdatePriority(m);
    }

    /** `_thread_update_priority`. */
    method ThreadUpdatePriority(t: Thread, p: Priority)
      requires UpdateDue(Abs(), t, p)
      modifies threads, mutexes
      ensures Abs() == UpdatePriority(old(Abs()), t, p)
      decreases Room(Abs(), p < Abs().th[t].cur)
    {
      hide Requeue, Deserved, UpdatePriority, NoDup, Room, Structured, SettledBut, ThreadOk, Waits;
      ghost var s := Abs();
      Fields(s);
      UpdateEnds(s, t, p);
      ChangePriority(t, p);
      if t.stat == Suspended && t.pendingObject != null {
        var m := t.pendingObject;
        UpdateReady(s, t, p);
        Fields(Abs());
        RequeueInPlace(m, t);
        Fields(Abs());
        var q := ThreadGetMutexPriority(m.owner);
        if q != m.owner.currentPriority {
          ThreadUpdatePriority(m.owner, q);
        }
      }
    }

    /** The branch of `_rt_mutex_take` that finds the mutex free. */
    method TakeFree(t: Thread, m: Mutex)
      requires t in threads && m in mutexes
      modifies m`owner, m`priority, m`hold, t`taken
      ensures Abs() == Acquire(old(Abs()), t, m)
    {
      m.owner := t;
      m.priority := NO_WAITER;
      m.hold := 1;
      t.taken := [m] + t.taken;
    }

    method SetPending(t: Thread, m: Mutex?)
      requires t in threads
      modifies t`pendingObject
      ensures Abs() == SetPendingOf(old(Abs()), t, m)
    {
      t.pendingObject := m;
    }

    /** The branch of `_rt_mutex_take` that waits, up to the call of the scheduler. */
    method TakeBlocked(t: Thread, m: Mutex)
      requires Inv(Abs()) && CanRun(Abs(), t) && m in mutexes && m.owner != null && m.owner != t
      modifies threads, mutexes
      ensures Abs() == Block(old(Abs()), t, m)
    {
      ghost var s := Abs();
      var priority := t.currentPriority;
      BlockReady(s, t, m);
      Fields(s);
      ListSuspend(m, t);
      SetPending(t, m);
      hide Inv, UpdateDue;
      Fields(Abs());
      if priority < m.priority {
        MutexSetPriority(m, priority);
        Fields(Abs());
        if m.priority < m.owner.currentPriority {
          ThreadUpdatePriority(m.owner, priority);
        }
      }
    }

    method MutexSetPriority(m: Mutex, p: Priority)
      requires m in mutexes
      modifies m`priority
      ensures Abs() == SetMutexPriority(old(Abs()), m, p)
    {
      m.priority := p;
    }

    method SetHold(m: Mutex, h: nat)
      requires m in mutexes
      modifies m`hold
      ensures Abs() == old(Abs()).(mx := old(Abs()).mx[m := old(Abs()).mx[m].(hold := h)])
    {
      m.hold := h;
    }

    /** `_rt_mutex_take`, up to the call of the scheduler; `wait` is `timeout != 0`. */
    method MutexTake(t: Thread, m: Mutex, wait: bool) returns (out: Outcome)
      requires Inv(Abs()) && CanRun(Abs(), t) && m in mutexes
      modifies threads, mutexes
      ensures (Abs(), out) == Take(old(Abs()), t, m, wait)
    {
      Fields(Abs());
      if m.owner == t {
        if m.hold < HOLD_MAX {
          SetHold(m, m.hold + 1);
          out := Done;
        } else {
          out := Full;
        }
      } else if m.owner == null {
        TakeFree(t, m);
        out := Done;
      } else if !wait {
        out := Busy;
      } else {
        TakeBlocked(t, m);
        out := Blocked;
      }
    }

    /** The first half of a last `rt_mutex_release`: the caller gives up the mutex. */
    method ReleaseGiveUp(t: Thread, m: Mutex)
      requires t in threads && m in mutexes && ThreadOk(Abs(), t)
      modifies t`taken, t`currentPriority
      ensures Abs() == GiveUp(old(Abs()), t, m)
    {
      hide Abs, Remove, NoDup, TakenMin;
      ghost var s := Abs();
      Fields(s);
      GiveUpTaken(s, t, m);
      TakenRemove(t, m);
      Fields(Abs());
      if t.currentPriority == m.priority {
        var priority := ThreadGetMutexPriority(t);
        ChangePriority(t, priority);
      }
    }

    method TakenRemove(t: Thread, m: Mutex)
      requires t in threads
      modifies t`taken
      ensures Abs() == old(Abs()).(th := old(Abs()).th[t := old(Abs()).th[t].(taken := Remove(old(t.taken), m))])
    {
      t.taken := Remove(t.taken, m);
    }

    /** The new owner gets the mutex and is resumed. */
    method Grant(m: Mutex, n: Thread)
      requires m in mutexes && n in threads
      modifies m`owner, m`hold, n`taken, n`pendingObject, n`stat
      ensures Abs() == GrantTo(old(Abs()), m, n)
    {
      m.owner := n;
      m.hold := 1;
      n.taken := [m] + n.taken;
      n.pendingObject := null;
      n.stat := Runnable;
    }

    method MakeFree(m: Mutex)
      requires m in mutexes
      modifies m`owner, m`hold, m`priority
      ensures Abs() == old(Abs()).(mx := old(Abs()).mx[m := old(Abs()).mx[m].(owner := null, priority := NO_WAITER, hold := 0)])
    {
      m.owner := null;
      m.priority := NO_WAITER;
      m.hold := 0;
    }

    /** The second half: the head of the queue becomes the owner, or nobody does. */
    method ReleaseHandOver(m: Mutex)
      requires m in mutexes && NoDup(m.waiters) && forall w :: w in m.waiters ==> w in threads
      modifies m, m.waiters
      ensures Abs() == HandOver(old(Abs()), m)
    {
      ghost var s := Abs();
      Fields(s);
      if m.waiters != [] {
        var next := m.waiters[0];
        ListRemove(m, next);
        Fields(Abs());
        Grant(m, next);
        Fields(Abs());
        HandOverIs(s, m);
        hide Abs;
        var p := MutexUpdatePriority(m);
      } else {
        MakeFree(m);
      }
    }

    /** `rt_mutex_release`, up to the call of the scheduler. */
    method MutexRelease(t: Thread, m: Mutex) returns (out: Outcome)
      requires Inv(Abs()) && CanRun(Abs(), t) && m in mutexes
      modifies threads, mutexes
      ensures (Abs(), out) == Release(old(Abs()), t, m)
    {
      ghost var s := Abs();
      Fields(s);
      if m.owner != t {
        return NotOwner;
      }
      assert ThreadOk(s, t) && LinksOk(s, m);
      if m.hold > 1 {
        SetHold(m, m.hold - 1);
      } else {
        ReleaseGiveUp(t, m);
        Fields(Abs());
        assert forall w :: w in m.waiters ==> Waits(s, w, m) && w in threads;
        ReleaseHandOver(m);
      }
      out := Done;
    }

    /** The first half of `rt_mutex_drop_thread`: unlink the thread and refresh the mutex. */
    method DropRefresh(t: Thread, m: Mutex) returns (needUpdate: bool)
      requires t in threads && t.stat == Closed && m in mutexes && m.owner != null
      requires NoDup(m.waiters) && forall w :: w in m.waiters ==> w in threads
      modifies m`waiters, m`priority
      ensures Abs() == Dropped(old(Abs()), t, m)
      ensures needUpdate <==> m.owner.currentPriority == t.currentPriority
    {
      ghost var s := Abs();
      Fields(s);
      RemoveMembers(m.waiters, t);
      ListRemove(m, t);
      Fields(Abs());
      assert SetStat(s, t, Closed) == s;
      needUpdate := m.owner.currentPriority == t.currentPriority;
      var p := MutexUpdatePriority(m);
    }

    /** `rt_mutex_drop_thread`; `s` is the state before `t` was marked closed. */
    method MutexDropThread(t: Thread, m: Mutex, ghost s: State)
      requires Inv(s) && Waits(s, t, m) && Abs() == SetStat(s, t, Closed)
      modifies threads, mutexes
      ensures Abs() == DropThread(s, t, m)
    {
      DropReady(s, t, m);
      hide Inv, UpdateDue, Dropped;
      Fields(Abs());
      var needUpdate := DropRefresh(t, m);
      Fields(Abs());
      hide Abs;
      if needUpdate {
        var priority := ThreadGetMutexPriority(m.owner);
        if priority != m.owner.currentPriority {
          ThreadUpdatePriority(m.owner, priority);
        }
      }
    }

    /** the mutex part of `rt_thread_detach`. */
    method ThreadClose(t: Thread)
      requires Inv(Abs()) && t in threads && t.stat != Closed
      modifies threads, mutexes
      ensures Abs() == Close(old(Abs()), t)
    {
      ghost var s := Abs();
      Fields(s);
      assert ThreadOk(s, t);
      ThreadStop(t);
      Fields(Abs());
      if t.pendingObject != null {
        DropKeeps(s, t, t.pendingObject);
        MutexDropThread(t, t.pendingObject, s);
        SetPending(t, null);
      }
    }

    method ThreadStop(t: Thread)
      requires t in threads
      modifies t`stat
      ensures Abs() == SetStat(old(Abs()), t, Closed)
    {
      t.stat := Closed;
    }
  }

  ghost function GrantTo(s: State, m: Mutex, n: Thread): (r: State)
    requires m in s.mx && n in s.th
  {
    State(s.th[n := s.th[n].(taken := [m] + s.th[n].taken, pending := null, stat := Runnable)],
          s.mx[m := s.mx[m].(owner := n, hold := 1)])
  }

  lemma HandOverIs(s: State, m: Mutex)
    requires m in s.mx && NoDup(s.mx[m].waiters) && s.mx[m].waiters != []
    requires forall w :: w in s.mx[m].waiters ==> w in s.th
    ensures var n := s.mx[m].waiters[0];
            var r := GrantTo(SetWaiters(s, m, Remove(s.mx[m].waiters, n)), m, n);
            HandOver(s, m) == SetMutexPriority(r, m, HeadPriority(r, r.mx[m].waiters))
  {
    assert Remove(s.mx[m].waiters, s.mx[m].waiters[0]) == s.mx[m].waiters[1..];
  }

  lemma DropReady(s: State, t: Thread, m: Mutex)
    requires Inv(s) && Waits(s, t, m)
    ensures m in s.mx && s.mx[m].owner != null && s.mx[m].owner in s.th
    ensures NoDup(s.mx[m].waiters) && forall w :: w in s.mx[m].waiters ==> w in s.th
    ensures Dropped(SetStat(s, t, Closed), t, m) == Dropped(s, t, m)
    ensures var r, o := Dropped(s, t, m), s.mx[m].owner;
            && r.th.Keys == s.th.Keys && r.mx.Keys == s.mx.Keys && r.mx[m].owner == o
            && r.th[o].cur == s.th[o].cur && r.th[t].cur == s.th[t].cur
            && (forall x :: x in r.th[o].taken ==> x in r.mx)
            && (var q := Deserved(r, o);
                && (r.th[o].cur == r.th[t].cur && q != r.th[o].cur ==> UpdateDue(r, o, q))
                && DropThread(s, t, m) == if r.th[o].cur == r.th[t].cur && q != r.th[o].cur && UpdateDue(r, o, q)
                                          then UpdatePriority(r, o, q) else r)
  {
    assert ThreadOk(s, t) && LinksOk(s, m);
    DropLowers(s, t, m);
    RemoveMembers(s.mx[m].waiters, t);
    var s1 := SetStat(s, t, Closed);
    assert HeadPriority(s1, Remove(s.mx[m].waiters, t)) == HeadPriority(s, Remove(s.mx[m].waiters, t));
    assert ThreadOk(Dropped(s, t, m), s.mx[m].owner);
  }

  ghost function SetPendingOf(s: State, t: Thread, m: Mutex?): (r: State)
    requires t in s.th
  {
    s.(th := s.th[t := s.th[t].(pending := m)])
  }

  /** What the blocking branch needs to know before it starts. */
  lemma BlockReady(s: State, t: Thread, m: Mutex)
    requires Inv(s) && CanRun(s, t) && m in s.mx && s.mx[m].owner != null && s.mx[m].owner != t
    ensures s.mx[m].owner in s.th && forall w :: w in s.mx[m].waiters ==> w in s.th
    ensures var o, p := s.mx[m].owner, s.th[t].cur;
            var r := SetPendingOf(Suspend(s, t, m), t, m);
            var q := SetMutexPriority(r, m, p);
            && r == Enqueue(s, t, m)
            && Block(s, t, m) == (if p >= s.mx[m].priority then r
                                  else if p >= s.th[o].cur then q
                                  else if UpdateDue(q, o, p) then UpdatePriority(q, o, p) else q)
            && (p < s.mx[m].priority && p < s.th[o].cur ==> UpdateDue(q, o, p))
  {
    assert LinksOk(s, m);
    BlockRaises(s, t, m);
    var r := SetPendingOf(Suspend(s, t, m), t, m);
    assert r == Enqueue(s, t, m);
    if s.th[t].cur >= s.mx[m].priority {
      assert SetMutexPriority(r, m, s.mx[m].priority) == r;
    }
  }

  /** What `_ipc_list_suspend` does to the state. */
  ghost function Suspend(s: State, t: Thread, m: Mutex): (r: State)
    requires t in s.th && m in s.mx
  {
    SetWaiters(SetStat(s, t, Suspended), m, InsertOrdered(CurOf(s.th), s.mx[m].waiters, t))
  }

  ghost function SetStat(s: State, t: Thread, c: Stat): (r: State)
    requires t in s.th
  {
    s.(th := s.th[t := s.th[t].(stat := c)])
  }

  /** Taking a suspended thread out and putting it back is a re-queueing, but for the mutex priority. */
  lemma RequeuedIs(s: State, t: Thread, m: Mutex)
    requires Waits(s, t, m) && m in s.mx
    ensures var r := Suspend(SetWaiters(s, m, Remove(s.mx[m].waiters, t)), t, m);
            Requeue(s, t, m) == SetMutexPriority(r, m, HeadPriority(r, r.mx[m].waiters))
  {
    assert s.th[t := s.th[t].(stat := Suspended)] == s.th;
  }

  lemma UpdateEnds(s: State, t: Thread, p: Priority)
    requires UpdateDue(s, t, p)
    ensures s.th[t].stat != Suspended || s.th[t].pending == null ==> UpdatePriority(s, t, p) == SetCur(s, t, p)
  {
  }

  /** What one level of the update needs to know before it starts. */
  lemma UpdateReady(s: State, t: Thread, p: Priority)
    requires UpdateDue(s, t, p)
    requires s.th[t].stat == Suspended && s.th[t].pending != null
    ensures var m := s.th[t].pending; var s1 := SetCur(s, t, p); var o := s.mx[m].owner;
            && m in s.mx && Waits(s1, t, m) && NoDup(s.mx[m].waiters)
            && (forall w :: w in s.mx[m].waiters ==> w in s.th)
            && o != null && o in s.th
            && (var r := Requeue(s1, t, m);
                && r.th.Keys == s.th.Keys && r.mx.Keys == s.mx.Keys && r.mx[m].owner == o
                && (forall x :: x in r.th[o].taken ==> x in r.mx)
                && (Deserved(r, o) != r.th[o].cur ==>
                      && UpdateDue(r, o, Deserved(r, o))
                      && (Deserved(r, o) < r.th[o].cur <==> p < s.th[t].cur)
                      && Room(r, p < s.th[t].cur) < Room(s, p < s.th[t].cur))
                && UpdatePriority(s, t, p) == (if Deserved(r, o) != r.th[o].cur
                     then UpdatePriority(r, o, Deserved(r, o)) else r))
  {
    assert ThreadOk(s, t);
    var m := s.th[t].pending;
    assert LinksOk(s, m);
    UpdateStep(s, t, p);
    assert ThreadOk(Requeue(SetCur(s, t, p), t, m), s.mx[m].owner);
  }
}
