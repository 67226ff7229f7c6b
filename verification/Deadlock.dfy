/** Priorities inside a deadlock: every operation keeps them exact, but closing a blocked thread
    can leave a boost behind that nothing justifies any more; when, exactly. */
module Deadlock {

  import opened KernelTypes
  import opened OrderedList
  import opened PriorityInheritance
  import opened MutexProtocol
  import opened Inversion

  /** `t` runs at the base priority of somebody in the chain behind it. */
  ghost predicate ExactAt(s: State, t: Thread)
    requires t in s.th
  {
    exists c :: ChainTo(s, c, t) && s.th[c[0]].init == s.th[t].cur
  }

  ghost predicate Exact(s: State) {
    forall t :: t in s.th ==> ExactAt(s, t)
  }

  // ---------------------------------------------------------------- chains in two states

  /** Edges of the wait-for relation survive, except perhaps those into `x`. */
  ghost predicate EdgesKept(s: State, r: State, x: Thread?) {
    && s.th.Keys == r.th.Keys
    && forall u, v :: u in s.th && v in s.th && v != x && WaitsOn(s, u, v) ==> WaitsOn(r, u, v)
  }

  lemma ChainKept(s: State, r: State, c: seq<Thread>)
    requires Chain(s, c) && EdgesKept(s, r, null)
    ensures Chain(r, c)
  {
    hide WaitsOn;
  }

  /** Nothing that matters to exactness changed. */
  lemma StillExact(s: State, r: State)
    requires Exact(s) && EdgesKept(s, r, null)
    requires forall u :: u in s.th ==> r.th[u].cur == s.th[u].cur && r.th[u].init == s.th[u].init
    ensures Exact(r)
  {
    forall t | t in r.th ensures ExactAt(r, t) {
      assert ExactAt(s, t);
      var c :| ChainTo(s, c, t) && s.th[c[0]].init == s.th[t].cur;
      ChainKept(s, r, c);
      assert ChainTo(r, c, t);
    }
  }

  lemma ShapeEdges(s: State, r: State)
    requires SameShape(s, r)
    ensures EdgesKept(s, r, null) && EdgesKept(r, s, null)
  {
  }

  // ---------------------------------------------------------------- raising

  /** When the owner is raised in its turn, then to the same priority. */
  lemma RaiseSame(s: State, t: Thread, p: Priority)
    requires UpdateDue(s, t, p) && p < s.th[t].cur && s.th[t].stat == Suspended && s.th[t].pending != null
    ensures var m := s.th[t].pending; m in s.mx && s.mx[m].owner != null && s.mx[m].owner in s.th
    ensures var m := s.th[t].pending; var o, r := s.mx[m].owner, Requeue(SetCur(s, t, p), t, m);
            o in r.th && ThreadOk(r, o) && (Settled(r, o) || Deserved(r, o) == p)
  {
    hide Requeue, NoDup;
    var m := s.th[t].pending;
    UpdateStep(s, t, p);
    PendingLinks(s, t, m);
    var o, r := s.mx[m].owner, Requeue(SetCur(s, t, p), t, m);
    RequeueKeeps(s, t, m, p);
    RequeueFields(s, t, m, p);
    assert LinksOk(r, m) && QueueOk(r, m);
    assert ThreadOk(s, o) && Settled(s, o);
    if !Settled(r, o) {
      NewHead(s, r, t, m, p);
      assert forall x :: x in s.th[o].taken ==> s.th[o].cur <= s.mx[x].priority;
    }
  }

  /** A mutex becomes more urgent only through `t` at the head of its queue. */
  lemma NewHead(s: State, r: State, t: Thread, m: Mutex, p: Priority)
    requires m in s.mx && m in r.mx && LinksOk(s, m) && QueueOk(s, m) && LinksOk(r, m) && QueueOk(r, m)
    requires SameShape(s, r) && t in s.th && r.th == SetCur(s, t, p).th
    ensures r.mx[m].priority < s.mx[m].priority ==> r.mx[m].priority == p
  {
    hide NoDup;
    var ws, vs := s.mx[m].waiters, r.mx[m].waiters;
    if vs != [] {
      assert vs[0] in ws;
      var i :| 0 <= i < |ws| && ws[i] == vs[0];
      assert CurOf(s.th)(ws[0]) <= CurOf(s.th)(ws[i]);
    }
  }

  /** Whoever an upward update reaches waits behind nobody but those it started from, and gets
      their priority. */
  lemma {:induction false} UpdateRaises(s: State, t: Thread, p: Priority, u: Thread)
    requires UpdateDue(s, t, p) && p < s.th[t].cur && u in s.th
    ensures var r := UpdatePriority(s, t, p);
            u in r.th && (r.th[u].cur == s.th[u].cur
                          || (r.th[u].cur == p && exists c :: ChainTo(s, c, u) && c[0] == t))
    decreases Room(s, true)
  {
    hide Requeue, Structured, TakenMin, NoDup;
    UpdateRestores(s, t, p);
    assert ChainTo(s, [t], t);
    var m := s.th[t].pending;
    if s.th[t].stat == Suspended && m != null {
      UpdateStep(s, t, p);
      RaiseSame(s, t, p);
      var s2 := Requeue(SetCur(s, t, p), t, m);
      RequeuedFrame(s, t, m, p);
      var o := s.mx[m].owner;
      if !Settled(s2, o) {
        UpdateRaises(s2, o, p, u);
        RaisedChain(s, s2, t, o, u);
      }
    }
  }

  lemma RequeuedFrame(s: State, t: Thread, m: Mutex, p: Priority)
    requires t in s.th && m in s.mx
    ensures var r := Requeue(SetCur(s, t, p), t, m);
            r.th.Keys == s.th.Keys && r.th[t].cur == p && forall u :: u in s.th && u != t ==> r.th[u] == s.th[u]
  {
    RequeueFields(s, t, m, p);
  }

  lemma RaisedChain(s: State, s2: State, t: Thread, o: Thread, u: Thread)
    requires SameShape(s, s2) && WaitsOn(s, t, o)
    ensures (exists c :: ChainTo(s2, c, u) && c[0] == o) ==> exists c :: ChainTo(s, c, u) && c[0] == t
  {
    ShapeEdges(s, s2);
    if c :| ChainTo(s2, c, u) && c[0] == o {
      ChainKept(s2, s, c);
      ChainPair(s, [t], c);
      assert ChainTo(s, [t] + c, u);
    }
  }

  /** A blocking take keeps all priorities exact: whoever it raises gets the caller's priority,
      and the caller now waits behind him. */
  lemma BlockExact(s: State, t: Thread, m: Mutex)
    requires Inv(s) && Exact(s) && CanRun(s, t) && m in s.mx && s.mx[m].owner != null && s.mx[m].owner != t
    ensures Exact(Block(s, t, m))
  {
    hide Inv, Block, Queued, Exact;
    var q, r, o := Queued(s, t, m), Block(s, t, m), s.mx[m].owner;
    BlockShape(s, t, m);
    BlockedFrame(s, t, m);
    forall u | u in r.th ensures ExactAt(r, u) {
      ExactHolds(s, u);
      ExactHolds(s, t);
      BlockRaised(s, t, m, u);
      if r.th[u].cur == s.th[u].cur {
        var c :| ChainTo(s, c, u) && s.th[c[0]].init == s.th[u].cur;
        ChainKept(s, r, c);
        assert ChainTo(r, c, u);
      } else {
        var c :| ChainTo(s, c, t) && s.th[c[0]].init == s.th[t].cur;
        var d :| ChainTo(q, d, u) && d[0] == o;
        ChainKept(s, r, c);
        ShapeEdges(q, r);
        ChainKept(q, r, d);
        ChainPair(r, c, d);
        assert ChainTo(r, c + d, u);
      }
    }
    ExactAll(r);
  }

  lemma ExactHolds(s: State, u: Thread)
    requires Exact(s) && u in s.th
    ensures ExactAt(s, u)
  {
  }

  lemma ExactAll(s: State)
    requires forall u :: u in s.th ==> ExactAt(s, u)
    ensures Exact(s)
  {
  }

  lemma BlockedFrame(s: State, t: Thread, m: Mutex)
    requires Inv(s) && CanRun(s, t) && m in s.mx && s.mx[m].owner != null && s.mx[m].owner != t
    ensures var r := Block(s, t, m);
            && EdgesKept(s, r, null) && WaitsOn(r, t, s.mx[m].owner)
            && forall u :: u in s.th ==> r.th[u].init == s.th[u].init
  {
    hide Inv, Block;
    assert Take(s, t, m, true).0 == Block(s, t, m);
    BlockShape(s, t, m);
    forall u, v ensures WaitsOn(Block(s, t, m), u, v) <==> WaitsOn(s, u, v) || (u == t && v == s.mx[m].owner) {
      BlockEdges(s, t, m, u, v);
    }
  }

  lemma BlockRaised(s: State, t: Thread, m: Mutex, u: Thread)
    requires Inv(s) && CanRun(s, t) && m in s.mx && s.mx[m].owner != null && s.mx[m].owner != t && u in s.th
    ensures var q, r, o := Queued(s, t, m), Block(s, t, m), s.mx[m].owner;
            u in r.th && (r.th[u].cur == s.th[u].cur
                          || (r.th[u].cur == s.th[t].cur && exists c :: ChainTo(q, c, u) && c[0] == o))
  {
    var p, q, o := s.th[t].cur, Queued(s, t, m), s.mx[m].owner;
    BlockRaises(s, t, m);
    assert q.th[u].cur == s.th[u].cur;
    hide Inv, UpdateDue, Queued;
    if p < s.mx[m].priority && p < q.th[o].cur {
      UpdateRaises(q, o, p, u);
    }
  }

  // ---------------------------------------------------------------- releasing

  /** A last release keeps all priorities exact: chains that end elsewhere never led through the
      releasing thread, and that thread waits for nobody. */
  lemma ReleaseExact(s: State, t: Thread, m: Mutex)
    requires Inv(s) && Exact(s) && CanRun(s, t) && m in s.mx && s.mx[m].owner == t
    requires ThreadOk(s, t) && LinksOk(s, m)
    ensures Exact(Released(s, t, m))
  {
    hide Inv, Released, ThreadOk, LinksOk, ExactAt, WaitsOn;
    ReleaseKeeps(s, t, m);
    LastRelease(s, t, m);
    ReleaseEdges(s, t, m);
    var r := Released(s, t, m);
    forall u | u in r.th ensures ExactAt(r, u) {
      if u == t {
        OffCycle(r, t);
        OffCycleExact(r, t);
      } else {
        ChainElsewhere(s, r, t, u);
      }
    }
  }

  /** A chain to somebody else cannot lead through a thread that runs. */
  lemma ChainElsewhere(s: State, r: State, t: Thread, u: Thread)
    requires EdgesKept(s, r, t) && CanRun(s, t) && u in s.th && u != t && ExactAt(s, u)
    requires forall x :: x in s.th ==> r.th[x].init == s.th[x].init
    requires r.th[u].cur == s.th[u].cur
    ensures ExactAt(r, u)
  {
    var c :| ChainTo(s, c, u) && s.th[c[0]].init == s.th[u].cur;
    forall i | 0 <= i < |c| - 1 ensures WaitsOn(r, c[i], c[i + 1]) {
      assert WaitsOn(s, c[i], c[i + 1]);
      assert i + 1 < |c| - 1 ==> WaitsOn(s, c[i + 1], c[i + 2]);
    }
    assert ChainTo(r, c, u);
  }

  lemma ReleaseEdges(s: State, t: Thread, m: Mutex)
    requires Inv(s) && CanRun(s, t) && m in s.mx && s.mx[m].owner == t && ThreadOk(s, t) && LinksOk(s, m)
    ensures var r := Released(s, t, m);
            && EdgesKept(s, r, t) && CanRun(r, t)
            && forall u :: u in s.th ==> r.th[u].init == s.th[u].init
  {
    assert QueueOk(s, m);
    ReleasedFields(s, t, m);
    hide Inv, Released;
  }

  // ---------------------------------------------------------------- lowering

  /** What a thread deserves is at least as urgent as everyone who waits for it. */
  lemma DeservedBelow(s: State, x: Thread, y: Thread)
    requires Structured(s) && WaitsOn(s, x, y)
    ensures y in s.th && ThreadOk(s, y) && Deserved(s, y) <= s.th[x].cur
  {
    var m := s.th[x].pending;
    PendingLinks(s, x, m);
    var ws := s.mx[m].waiters;
    var i :| 0 <= i < |ws| && ws[i] == x;
    assert CurOf(s.th)(ws[0]) <= CurOf(s.th)(ws[i]);
    assert ThreadOk(s, y) && m in s.th[y].taken;
  }

  /** Along a chain that starts at a thread about to be lowered, nobody deserves less than it has. */
  lemma {:induction false} DeservedAlong(s: State, t: Thread, p: Priority, c: seq<Thread>, i: nat)
    requires UpdateDue(s, t, p) && p > s.th[t].cur && Chain(s, c) && c[0] == t && 1 <= i < |c|
    ensures ThreadOk(s, c[i]) && Deserved(s, c[i]) <= s.th[t].cur
    decreases i
  {
    hide TakenMin, LinksOk, QueueOk;
    assert WaitsOn(s, c[i - 1], c[i]);
    DeservedBelow(s, c[i - 1], c[i]);
    if i > 1 {
      DeservedAlong(s, t, p, c, i - 1);
      assert c[i - 1] != t && Settled(s, c[i - 1]);
    }
  }

  /** Nobody who waits for himself is ever lowered: his predecessors on the cycle keep him up. */
  lemma LoweredOffCycle(s: State, t: Thread, p: Priority)
    requires UpdateDue(s, t, p) && p > s.th[t].cur
    ensures !OnCycle(s, t)
  {
    forall c | ChainTo(s, c, t) && |c| > 1 ensures c[0] != t {
      if c[0] == t {
        DeservedAlong(s, t, p, c, |c| - 1);
      }
    }
  }

  lemma CycleKept(s: State, r: State, u: Thread)
    requires EdgesKept(s, r, null) && OnCycle(s, u)
    ensures OnCycle(r, u)
  {
    var c :| ChainTo(s, c, u) && |c| > 1 && c[0] == u;
    ChainKept(s, r, c);
    assert ChainTo(r, c, u);
  }

  lemma {:induction false} UpdateLowers(s: State, t: Thread, p: Priority, u: Thread)
    requires UpdateDue(s, t, p) && p > s.th[t].cur && u in s.th && OnCycle(s, u)
    ensures var r := UpdatePriority(s, t, p); u in r.th && r.th[u].cur == s.th[u].cur
    decreases Room(s, false)
  {
    hide Requeue, Structured, TakenMin, NoDup, OnCycle;
    UpdateRestores(s, t, p);
    LoweredOffCycle(s, t, p);
    var m := s.th[t].pending;
    if s.th[t].stat == Suspended && m != null {
      UpdateStep(s, t, p);
      var s2 := Requeue(SetCur(s, t, p), t, m);
      RequeuedFrame(s, t, m, p);
      ShapeEdges(s, s2);
      CycleKept(s, s2, u);
      var o := s.mx[m].owner;
      if !Settled(s2, o) {
        UpdateLowers(s2, o, Deserved(s2, o), u);
      }
    }
  }

  // ---------------------------------------------------------------- closing

  lemma PendingWaits(s: State, w: Thread, m: Mutex)
    requires Inv(s) && Enabled(s, OpClose(w)) && s.th[w].pending == m
    ensures Waits(s, w, m)
  {
    InvThread(s, w);
  }

  /** Closing a thread takes its own edge out of the wait-for relation and no other. */
  lemma CloseEdges(s: State, w: Thread, u: Thread, v: Thread)
    requires Inv(s) && Enabled(s, OpClose(w))
    ensures WaitsOn(Close(s, w), u, v) <==> WaitsOn(s, u, v) && u != w
  {
    hide Inv, Close;
    CloseKeeps(s, w);
    var r := Close(s, w);
    if u in s.th && u != w {
      assert r.th[u] == s.th[u].(cur := r.th[u].cur);
    }
  }

  /** A chain to `u` that does not lead through `w`. */
  ghost predicate Avoids(s: State, older c: seq<Thread>, u: Thread, w: Thread) {
    ChainTo(s, c, u) && w !in c
  }

  lemma ClosedChain(s: State, w: Thread, c: seq<Thread>, u: Thread)
    requires Inv(s) && Enabled(s, OpClose(w)) && u != w
    ensures ChainTo(Close(s, w), c, u) <==> Avoids(s, c, u, w)
  {
    hide Inv, Close, WaitsOn;
    CloseKeeps(s, w);
    var r := Close(s, w);
    forall i | 0 <= i < |c| - 1 ensures WaitsOn(r, c[i], c[i + 1]) <==> WaitsOn(s, c[i], c[i + 1]) && c[i] != w {
      CloseEdges(s, w, c[i], c[i + 1]);
    }
    if ChainTo(r, c, u) {
      forall i | 0 <= i < |c| ensures c[i] != w {
        assert i < |c| - 1 ==> WaitsOn(r, c[i], c[i + 1]);
      }
      assert Chain(s, c);
    }
    if Avoids(s, c, u, w) {
      assert Chain(r, c);
    }
  }

  /** Priorities on cycles that stay closed do not change. */
  lemma CycleCur(s: State, w: Thread, u: Thread)
    requires Inv(s) && Enabled(s, OpClose(w)) && OnCycle(Close(s, w), u)
    ensures u in s.th && Close(s, w).th[u].cur == s.th[u].cur
  {
    hide OnCycle, WaitsOn, TakenMin, NoDup, Remove;
    CloseKeeps(s, w);
    CycleMember(Close(s, w), u);
    var m := s.th[w].pending;
    if m != null {
      PendingWaits(s, w, m);
      DropLowers(s, w, m);
      DroppedEdges(s, w, m);
      var d, o := Dropped(s, w, m), s.mx[m].owner;
      CycleKept(Close(s, w), d, u);
      if d.th[o].cur == d.th[w].cur && Deserved(d, o) != d.th[o].cur {
        UpdateRestores(d, o, Deserved(d, o));
        UpdateLowers(d, o, Deserved(d, o), u);
      }
    }
  }

  lemma CycleMember(s: State, u: Thread)
    requires OnCycle(s, u)
    ensures u in s.th
  {
  }

  lemma DroppedEdges(s: State, w: Thread, m: Mutex)
    requires Inv(s) && Enabled(s, OpClose(w)) && Waits(s, w, m) && m in s.mx
    ensures EdgesKept(Close(s, w), Dropped(s, w, m), null)
  {
    hide Inv, Close, Remove;
    CloseKeeps(s, w);
    var r, d := Close(s, w), Dropped(s, w, m);
    forall u, v | WaitsOn(r, u, v) ensures WaitsOn(d, u, v) {
      CloseEdges(s, w, u, v);
    }
  }

  /** `u` waits for itself without the help of `w`. */
  ghost predicate CycleWithout(s: State, u: Thread, w: Thread) {
    exists c :: Avoids(s, c, u, w) && |c| > 1 && c[0] == u
  }

  /** Somebody behind `u`, not by way of `w`, has the base priority `u` runs at. */
  ghost predicate Justified(s: State, u: Thread, w: Thread)
    requires u in s.th
  {
    exists c :: Avoids(s, c, u, w) && s.th[c[0]].init == s.th[u].cur
  }

  lemma CloseJustified(s: State, w: Thread, u: Thread)
    requires Inv(s) && Enabled(s, OpClose(w)) && u in s.th && u != w
    ensures u in Close(s, w).th && (OnCycle(Close(s, w), u) <==> CycleWithout(s, u, w))
    ensures CycleWithout(s, u, w) ==> (ExactAt(Close(s, w), u) <==> Justified(s, u, w))
  {
    hide Inv, Close, Chain;
    var r := Close(s, w);
    CloseKeeps(s, w);
    if c :| Avoids(s, c, u, w) && |c| > 1 && c[0] == u {
      ClosedChain(s, w, c, u);
      assert ChainTo(r, c, u);
    }
    if c :| ChainTo(r, c, u) && |c| > 1 && c[0] == u {
      ClosedChain(s, w, c, u);
      assert Avoids(s, c, u, w);
      SourcesKept(s, w, u);
    }
  }

  lemma SourcesKept(s: State, w: Thread, u: Thread)
    requires Inv(s) && Enabled(s, OpClose(w)) && u in s.th && u != w && OnCycle(Close(s, w), u)
    ensures u in Close(s, w).th && (ExactAt(Close(s, w), u) <==> Justified(s, u, w))
  {
    hide Inv, Close, WaitsOn, OnCycle;
    var r := Close(s, w);
    CloseKeeps(s, w);
    CycleCur(s, w, u);
    if c :| ChainTo(r, c, u) && r.th[c[0]].init == r.th[u].cur {
      ClosedChain(s, w, c, u);
      assert Avoids(s, c, u, w);
    }
    if c :| Avoids(s, c, u, w) && s.th[c[0]].init == s.th[u].cur {
      ClosedChain(s, w, c, u);
      assert ChainTo(r, c, u);
    }
  }

  /** Exactly when closing a thread leaves every priority exact, for any state at all: every
      thread on a cycle that does not need the closed one must have its priority from elsewhere. */
  lemma CloseExactWhen(s: State, w: Thread)
    requires Inv(s) && Enabled(s, OpClose(w))
    ensures Exact(Close(s, w)) <==> forall u :: u in s.th && CycleWithout(s, u, w) ==> Justified(s, u, w)
  {
    hide Inv, Close, ExactAt, Justified;
    var r := Close(s, w);
    CloseKeeps(s, w);
    OffCycle(r, w);
    forall u | u in s.th && u != w
      ensures OnCycle(r, u) <==> CycleWithout(s, u, w)
      ensures CycleWithout(s, u, w) ==> (ExactAt(r, u) <==> Justified(s, u, w))
    {
      CloseJustified(s, w, u);
    }
    assert !CycleWithout(s, w, w);
    hide OnCycle, CycleWithout;
    forall u | u in r.th && !OnCycle(r, u) ensures ExactAt(r, u) {
      OffCycleExact(r, u);
    }
  }

  lemma OffCycleExact(s: State, u: Thread)
    requires Inv(s) && u in s.th && !OnCycle(s, u)
    ensures ExactAt(s, u)
  {
    ExactPriority(s, u);
  }

  // ---------------------------------------------------------------- one operation, and runs

  /** `w` is blocked behind `u`, directly or through others. */
  ghost predicate Behind(s: State, w: Thread, u: Thread) {
    exists c :: ChainTo(s, c, u) && c[0] == w
  }

  /** What to check before an operation: a thread to be closed is not the only reason for the
      priority of a deadlocked thread in front of it. */
  ghost predicate Harmless(s: State, op: Op) {
    op.OpClose? ==> forall u :: u in s.th && CycleWithout(s, u, op.t) && Behind(s, op.t, u) ==> Justified(s, u, op.t)
  }

  /** Every operation but the closing of a blocked thread is harmless. */
  lemma MostlyHarmless(s: State, op: Op)
    requires op.OpClose? ==> op.t in s.th && s.th[op.t].stat != Suspended
    ensures Harmless(s, op)
  {
    if op.OpClose? {
      forall u | u in s.th && CycleWithout(s, u, op.t) ensures !Behind(s, op.t, u) {
        forall c | ChainTo(s, c, u) ensures c[0] != op.t {
          assert |c| > 1 ==> WaitsOn(s, c[0], c[1]);
        }
      }
    }
  }

  /** In an exact state, an operation leaves every priority exact if and only if it is harmless. */
  lemma StepExact(s: State, op: Op)
    requires Inv(s) && Exact(s) && Enabled(s, op)
    ensures Exact(Step(s, op)) <==> Harmless(s, op)
  {
    hide Inv, Exact, Take, Release, Close, Harmless;
    match op
    case OpTake(t, m, wait) =>
      TakeExact(s, t, m, wait);
      MostlyHarmless(s, op);
    case OpRelease(t, m) =>
      AnyReleaseExact(s, t, m);
      MostlyHarmless(s, op);
    case OpClose(w) =>
      CloseExactWhen(s, w);
      HarmlessClose(s, w);
    case OpSleep(t) =>
      InvThread(s, t);
      StillExact(s, Step(s, op));
      MostlyHarmless(s, op);
    case OpWake(t) =>
      StillExact(s, Step(s, op));
      MostlyHarmless(s, op);
  }

  /** Cycles that the closed thread is not behind keep the chains they have. */
  lemma HarmlessClose(s: State, w: Thread)
    requires Inv(s) && Exact(s)
    ensures Harmless(s, OpClose(w)) <==> forall u :: u in s.th && CycleWithout(s, u, w) ==> Justified(s, u, w)
  {
    hide Inv, Exact, CycleWithout, Justified, Behind;
    forall u | u in s.th && !Behind(s, w, u) ensures Justified(s, u, w) {
      StillJustified(s, w, u);
    }
  }

  /** Whom `w` is not behind has his priority from a chain without `w`. */
  lemma StillJustified(s: State, w: Thread, u: Thread)
    requires Exact(s) && u in s.th && !Behind(s, w, u)
    ensures Justified(s, u, w)
  {
    hide WaitsOn, Behind, Avoids;
    assert ExactAt(s, u);
    var c :| ChainTo(s, c, u) && s.th[c[0]].init == s.th[u].cur;
    forall i | 0 <= i < |c| ensures c[i] != w {
      NotBehind(s, c, u, w, i);
    }
    Avoided(s, c, u, w);
  }

  lemma NotBehind(s: State, c: seq<Thread>, u: Thread, w: Thread, i: nat)
    requires ChainTo(s, c, u) && !Behind(s, w, u) && i < |c|
    ensures c[i] != w
  {
    hide WaitsOn;
    ChainPart(s, c, i, |c|);
    assert ChainTo(s, c[i..|c|], u);
  }

  lemma Avoided(s: State, c: seq<Thread>, u: Thread, w: Thread)
    requires ChainTo(s, c, u) && forall i :: 0 <= i < |c| ==> c[i] != w
    ensures Avoids(s, c, u, w)
  {
    hide Chain;
  }

  lemma TakeExact(s: State, t: Thread, m: Mutex, wait: bool)
    requires Inv(s) && Exact(s) && CanRun(s, t) && m in s.mx
    ensures Exact(Take(s, t, m, wait).0)
  {
    hide Inv, Exact, Block;
    var r := Take(s, t, m, wait).0;
    if s.mx[m].owner != null && s.mx[m].owner != t {
      if wait {
        BlockExact(s, t, m);
      }
    } else {
      FreeUnwanted(s, m);
      StillExact(s, r);
    }
  }

  /** Nobody waits for a free mutex. */
  lemma FreeUnwanted(s: State, m: Mutex)
    requires Inv(s) && m in s.mx
    ensures s.mx[m].owner == null ==> forall u :: u in s.th ==> !Waits(s, u, m)
  {
    assert LinksOk(s, m);
    forall u | u in s.th && Waits(s, u, m) ensures s.mx[m].owner != null {
      assert ThreadOk(s, u);
    }
  }

  lemma AnyReleaseExact(s: State, t: Thread, m: Mutex)
    requires Inv(s) && Exact(s) && CanRun(s, t) && m in s.mx
    ensures Exact(Release(s, t, m).0)
  {
    if s.mx[m].owner == t {
      InvThread(s, t);
      assert LinksOk(s, m);
      if s.mx[m].hold > 1 {
        StillExact(s, Release(s, t, m).0);
      } else {
        ReleaseExact(s, t, m);
      }
    }
  }

  /** The operations of a run are harmless when their turn comes. */
  ghost predicate AllHarmless(s: State, ops: seq<Op>)
    requires Inv(s)
    decreases |ops|
  {
    ops != [] && Enabled(s, ops[0]) ==>
      Harmless(s, ops[0]) && (StepKeeps(s, ops[0]); AllHarmless(Step(s, ops[0]), ops[1..]))
  }

  /** Priorities are exact after any harmless run, deadlocks or not. */
  lemma {:induction false} RunExact(s: State, ops: seq<Op>, r: State)
    requires Inv(s) && Exact(s) && Reaches(s, ops, r) && AllHarmless(s, ops)
    ensures Exact(r)
    decreases |ops|
  {
    hide Inv, Exact, Step, Enabled, Harmless;
    if ops != [] {
      StepKeeps(s, ops[0]);
      StepExact(s, ops[0]);
      RunExact(Step(s, ops[0]), ops[1..], r);
    }
  }

  lemma InitialExact(s: State)
    requires Initial(s)
    ensures Exact(s)
  {
    forall t | t in s.th ensures ExactAt(s, t) {
      assert ChainTo(s, [t], t);
    }
  }

  /** The same from a fresh start, where all priorities are exact. */
  lemma ReachableExactInDeadlock(s: State, ops: seq<Op>, r: State)
    requires Initial(s) && Inv(s) && Reaches(s, ops, r) && AllHarmless(s, ops)
    ensures Inv(r) && Exact(r)
  {
    InitialExact(s);
    RunKeeps(s, ops, r);
    RunExact(s, ops, r);
  }

  // ---------------------------------------------------------------- a boost that outlives its cause

  /** Three threads and two mutexes. */
  datatype Cast = Cast(a: Thread, b: Thread, w: Thread, x: Mutex, y: Mutex)

  ghost predicate Apart(c: Cast) {
    c.a != c.b && c.a != c.w && c.b != c.w && c.x != c.y
  }

  ghost function Scene(c: Cast, ta: Tcb, tb: Tcb, tw: Tcb, mx: Mcb, my: Mcb): (r: State) {
    State(map[c.a := ta, c.b := tb, c.w := tw], map[c.x := mx, c.y := my])
  }

  /** Everybody at rest: `w` has base priority `p`, the others `q`. */
  ghost function AtRest(c: Cast, p: Priority, q: Priority): (r: State) {
    Scene(c, Tcb(q, q, Runnable, null, []), Tcb(q, q, Runnable, null, []), Tcb(p, p, Runnable, null, []),
          Mcb(null, NO_WAITER, 0, []), Mcb(null, NO_WAITER, 0, []))
  }

  /** `a` and `b` hold one mutex each. */
  ghost function Holding(c: Cast, p: Priority, q: Priority): (r: State) {
    Scene(c, Tcb(q, q, Runnable, null, [c.x]), Tcb(q, q, Runnable, null, [c.y]), Tcb(p, p, Runnable, null, []),
          Mcb(c.a, NO_WAITER, 1, []), Mcb(c.b, NO_WAITER, 1, []))
  }

  /** `a` and `b` wait for each other's mutex. */
  ghost function Locked(c: Cast, p: Priority, q: Priority): (r: State) {
    Scene(c, Tcb(q, q, Suspended, c.y, [c.x]), Tcb(q, q, Suspended, c.x, [c.y]), Tcb(p, p, Runnable, null, []),
          Mcb(c.a, q, 1, [c.b]), Mcb(c.b, q, 1, [c.a]))
  }

  /** `w` waits as well and has boosted both. */
  ghost function Deadlocked(c: Cast, p: Priority, q: Priority): (r: State) {
    Scene(c, Tcb(q, p, Suspended, c.y, [c.x]), Tcb(q, p, Suspended, c.x, [c.y]), Tcb(p, p, Suspended, c.x, []),
          Mcb(c.a, p, 1, [c.w, c.b]), Mcb(c.b, p, 1, [c.a]))
  }

  lemma RestInitial(c: Cast, p: Priority, q: Priority)
    requires Apart(c)
    ensures Initial(AtRest(c, p, q)) && Inv(AtRest(c, p, q))
  {
    InitialInv(AtRest(c, p, q));
  }

  lemma OneStep(s: State, op: Op, r: State)
    requires Inv(s) && Enabled(s, op) && Step(s, op) == r
    ensures Inv(r) && Reaches(s, [op], r)
  {
    StepKeeps(s, op);
    assert Reaches(r, [], r);
  }

  lemma {:induction false} ThenReaches(s: State, ops: seq<Op>, r: State, more: seq<Op>, z: State)
    requires Inv(s) && Reaches(s, ops, r) && Inv(r) && Reaches(r, more, z)
    ensures Reaches(s, ops + more, z)
    decreases |ops|
  {
    hide Inv, Enabled, Step;
    if ops == [] {
      assert ops + more == more;
    } else {
      StepKeeps(s, ops[0]);
      ThenReaches(Step(s, ops[0]), ops[1..], r, more, z);
      assert (ops + more)[1..] == ops[1..] + more;
    }
  }

  lemma BothHold(c: Cast, p: Priority, q: Priority)
    requires Apart(c)
    ensures Inv(AtRest(c, p, q)) && Inv(Holding(c, p, q))
    ensures Reaches(AtRest(c, p, q), [OpTake(c.a, c.x, true), OpTake(c.b, c.y, true)], Holding(c, p, q))
  {
    RestInitial(c, p, q);
    hide Inv;
    var s, r := AtRest(c, p, q), Holding(c, p, q);
    var m := Scene(c, r.th[c.a], s.th[c.b], s.th[c.w], r.mx[c.x], s.mx[c.y]);
    assert [c.x] + [] == [c.x] && [c.y] + [] == [c.y];
    assert Acquire(s, c.a, c.x) == m;
    OneStep(s, OpTake(c.a, c.x, true), m);
    assert Acquire(m, c.b, c.y) == r;
    OneStep(m, OpTake(c.b, c.y, true), r);
    ThenReaches(s, [OpTake(c.a, c.x, true)], m, [OpTake(c.b, c.y, true)], r);
  }

  /** Queueing the only waiter, no more urgent than the owner, raises nobody. */
  lemma FirstWaiter(s: State, t: Thread, m: Mutex)
    requires Inv(s) && CanRun(s, t) && m in s.mx && s.mx[m].owner != null && s.mx[m].owner != t
    requires s.mx[m].owner in s.th && s.th[t].cur >= s.th[s.mx[m].owner].cur && s.mx[m].waiters == []
    ensures Block(s, t, m) == State(s.th[t := s.th[t].(stat := Suspended, pending := m)],
                                    s.mx[m := s.mx[m].(waiters := [t], priority := s.th[t].cur)])
  {
    assert QueueOk(s, m);
    assert InsertOrdered(CurOf(s.th), [], t) == [t];
  }

  lemma BothWait(c: Cast, p: Priority, q: Priority)
    requires Apart(c) && Inv(Holding(c, p, q))
    ensures Inv(Locked(c, p, q))
    ensures Reaches(Holding(c, p, q), [OpTake(c.a, c.y, true), OpTake(c.b, c.x, true)], Locked(c, p, q))
  {
    hide Inv, Block;
    var s, r := Holding(c, p, q), Locked(c, p, q);
    FirstWaiter(s, c.a, c.y);
    var m := Scene(c, r.th[c.a], s.th[c.b], s.th[c.w], s.mx[c.x], r.mx[c.y]);
    assert Block(s, c.a, c.y) == m;
    OneStep(s, OpTake(c.a, c.y, true), m);
    FirstWaiter(m, c.b, c.x);
    assert Block(m, c.b, c.x) == r;
    OneStep(m, OpTake(c.b, c.x, true), r);
    ThenReaches(s, [OpTake(c.a, c.y, true)], m, [OpTake(c.b, c.x, true)], r);
  }

  /** The third wait raises the owner, he raises the other, and there the update ends. */
  lemma ThirdWaits(c: Cast, p: Priority, q: Priority)
    requires Apart(c) && p < q && Inv(Locked(c, p, q))
    ensures Block(Locked(c, p, q), c.w, c.x) == Deadlocked(c, p, q)
  {
    var s, r := Locked(c, p, q), Deadlocked(c, p, q);
    BlockRaises(s, c.w, c.x);
    var k := Queued(s, c.w, c.x);
    assert InsertOrdered(CurOf(s.th), [c.b], c.w) == [c.w, c.b];
    assert k == Scene(c, s.th[c.a], s.th[c.b], r.th[c.w], r.mx[c.x], s.mx[c.y]);
    hide Inv, Queued, UpdateDue, Block;
    FirstRaised(c, p, q, k);
    assert Block(s, c.w, c.x) == UpdatePriority(k, c.a, p) by { BlockIs(s, c.w, c.x); }
  }

  lemma BlockIs(s: State, t: Thread, m: Mutex)
    requires Inv(s) && CanRun(s, t) && m in s.mx && s.mx[m].owner != null && s.mx[m].owner != t
    ensures var p, r, o := s.th[t].cur, Queued(s, t, m), s.mx[m].owner;
            p < s.mx[m].priority && o in r.th && p < r.th[o].cur ==> UpdateDue(r, o, p) && Block(s, t, m) == UpdatePriority(r, o, p)
  {
    BlockRaises(s, t, m);
  }

  lemma FirstRaised(c: Cast, p: Priority, q: Priority, k: State)
    requires Apart(c) && p < q && UpdateDue(k, c.a, p)
    requires var s, r := Locked(c, p, q), Deadlocked(c, p, q);
             k == Scene(c, s.th[c.a], s.th[c.b], r.th[c.w], r.mx[c.x], s.mx[c.y])
    ensures UpdatePriority(k, c.a, p) == Deadlocked(c, p, q)
  {
    hide UpdateDue, Room, Inv, SameShape, Moved;
    var r := Deadlocked(c, p, q);
    UpdateStep(k, c.a, p);
    var k1 := SetCur(k, c.a, p);
    assert Remove([c.a], c.a) == [] && InsertOrdered(CurOf(k1.th), [], c.a) == [c.a];
    var k2 := Requeue(k1, c.a, c.y);
    assert k2 == Scene(c, r.th[c.a], k.th[c.b], r.th[c.w], r.mx[c.x], r.mx[c.y]);
    assert Deserved(k2, c.b) == p;
    SecondRaised(c, p, q, k2);
  }

  lemma SecondRaised(c: Cast, p: Priority, q: Priority, k: State)
    requires Apart(c) && p < q && UpdateDue(k, c.b, p)
    requires var s, r := Locked(c, p, q), Deadlocked(c, p, q);
             k == Scene(c, r.th[c.a], s.th[c.b], r.th[c.w], r.mx[c.x], r.mx[c.y])
    ensures UpdatePriority(k, c.b, p) == Deadlocked(c, p, q)
  {
    hide UpdateDue, Room, Inv, SameShape, Moved, ThreadOk;
    var r := Deadlocked(c, p, q);
    UpdateStep(k, c.b, p);
    var k1 := SetCur(k, c.b, p);
    SecondRequeue(c, p, q, k1);
    assert Deserved(r, c.a) == p;
  }

  lemma SecondRequeue(c: Cast, p: Priority, q: Priority, k: State)
    requires Apart(c) && k.th == Deadlocked(c, p, q).th && k.mx == Deadlocked(c, p, q).mx
    ensures Requeue(k, c.b, c.x) == Deadlocked(c, p, q)
  {
    assert [c.w, c.b][1..] == [c.b] && Remove([c.w, c.b], c.b) == [c.w];
    assert FindPos(CurOf(k.th), [c.w], p) == 1 && InsertOrdered(CurOf(k.th), [c.w], c.b) == [c.w, c.b];
  }

  ghost function Story(c: Cast): (r: seq<Op>) {
    [OpTake(c.a, c.x, true), OpTake(c.b, c.y, true)] + [OpTake(c.a, c.y, true), OpTake(c.b, c.x, true)]
    + [OpTake(c.w, c.x, true)]
  }

  /** Five takes lead from rest into the deadlock with its boost. */
  lemma DeadlockReached(c: Cast, p: Priority, q: Priority)
    requires Apart(c) && p < q
    ensures Initial(AtRest(c, p, q)) && Inv(AtRest(c, p, q)) && Inv(Deadlocked(c, p, q))
    ensures Reaches(AtRest(c, p, q), Story(c), Deadlocked(c, p, q))
  {
    RestInitial(c, p, q);
    BothHold(c, p, q);
    BothWait(c, p, q);
    ThirdWaits(c, p, q);
    hide Inv, Block, Reaches;
    var s, l, op := AtRest(c, p, q), Locked(c, p, q), OpTake(c.w, c.x, true);
    OneStep(l, op, Deadlocked(c, p, q));
    ThenReaches(s, [OpTake(c.a, c.x, true), OpTake(c.b, c.y, true)], Holding(c, p, q),
                [OpTake(c.a, c.y, true), OpTake(c.b, c.x, true)], l);
    ThenReaches(s, [OpTake(c.a, c.x, true), OpTake(c.b, c.y, true)] + [OpTake(c.a, c.y, true), OpTake(c.b, c.x, true)],
                l, [op], Deadlocked(c, p, q));
  }

  /** The price of a deadlock, in a state that threads can reach: all priorities are exact, and
      closing the thread that caused the boost leaves it behind. */
  lemma DeadlockKeepsBoost(c: Cast, p: Priority, q: Priority)
    requires Apart(c) && p < q
    ensures var s := Deadlocked(c, p, q);
            && Inv(s) && Exact(s) && Enabled(s, OpClose(c.w)) && !Harmless(s, OpClose(c.w))
            && var r := Step(s, OpClose(c.w));
               c.a in r.th && r.th[c.a].cur == p && forall d :: ChainTo(r, d, c.a) ==> r.th[d[0]].init == q
  {
    hide Inv, Close, Exact, Harmless, ChainTo, Reaches, Deadlocked, AtRest, Story;
    var s := Deadlocked(c, p, q);
    DeadlockReached(c, p, q);
    DeadlockExact(c, p, q);
    CloseDeadlocked(c, p, q);
    BoostLeft(c, p, q, Close(s, c.w));
    StepExact(s, OpClose(c.w));
  }

  lemma BoostLeft(c: Cast, p: Priority, q: Priority, r: State)
    requires Apart(c) && p < q && r.th == Deadlocked(c, p, q).th[c.w := Tcb(p, p, Closed, null, [])]
    ensures c.a in r.th && r.th[c.a].cur == p
    ensures forall d :: ChainTo(r, d, c.a) ==> r.th[d[0]].init == q
    ensures !Exact(r)
  {
    forall d | ChainTo(r, d, c.a) ensures r.th[d[0]].init == q {
      assert |d| > 1 ==> WaitsOn(r, d[0], d[1]);
    }
    assert !ExactAt(r, c.a);
  }

  lemma DeadlockExact(c: Cast, p: Priority, q: Priority)
    requires Apart(c) && p < q
    ensures Exact(Deadlocked(c, p, q))
  {
    var s := Deadlocked(c, p, q);
    assert ChainTo(s, [c.w], c.w) && ChainTo(s, [c.w, c.a], c.a) && ChainTo(s, [c.w, c.a, c.b], c.b);
    hide ChainTo;
    assert ExactAt(s, c.w) && ExactAt(s, c.a) && ExactAt(s, c.b);
  }

  lemma CloseDeadlocked(c: Cast, p: Priority, q: Priority)
    requires Apart(c) && p < q && Inv(Deadlocked(c, p, q))
    ensures Enabled(Deadlocked(c, p, q), OpClose(c.w))
    ensures Close(Deadlocked(c, p, q), c.w).th == Deadlocked(c, p, q).th[c.w := Tcb(p, p, Closed, null, [])]
  {
    var s := Deadlocked(c, p, q);
    DropLowers(s, c.w, c.x);
    var d := Dropped(s, c.w, c.x);
    assert Remove([c.w, c.b], c.w) == [c.b];
    assert d.th == s.th[c.w := s.th[c.w].(stat := Closed)] && d.mx[c.x] == Mcb(c.a, p, 1, [c.b]);
    hide Inv, Dropped;
    assert Deserved(d, c.a) == TakenMin(d.mx, [c.x], q) == p;
  }
}
