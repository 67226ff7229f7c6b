/** What the inheritance equation means for whole chains of blocked threads: no priority
    inversion, and the exact priority every thread runs at. */
module Inversion {

  import opened OrderedList
  import opened PriorityInheritance
  import opened MutexProtocol

  /** `t` waits for a mutex that `o` owns. */
  ghost predicate WaitsOn(s: State, t: Thread, o: Thread) {
    && t in s.th && s.th[t].stat == Suspended
    && s.th[t].pending != null && s.th[t].pending in s.mx && s.mx[s.th[t].pending].owner == o
  }

  /** Each thread of the chain waits for a mutex owned by the next one. */
  ghost predicate Chain(s: State, older c: seq<Thread>) {
    && c != [] && (forall i :: 0 <= i < |c| ==> c[i] in s.th)
    && forall i :: 0 <= i < |c| - 1 ==> WaitsOn(s, c[i], c[i + 1])
  }

  ghost predicate ChainTo(s: State, older c: seq<Thread>, t: Thread) {
    Chain(s, c) && c[|c| - 1] == t
  }

  /** `t` waits, through others, for itself. */
  ghost predicate OnCycle(s: State, t: Thread) {
    exists c :: ChainTo(s, c, t) && |c| > 1 && c[0] == t
  }

  // ---------------------------------------------------------------- no inversion

  lemma WaitsOnUrgent(s: State, t: Thread, o: Thread)
    requires Inv(s) && WaitsOn(s, t, o)
    ensures o in s.th && s.th[o].cur <= s.th[t].cur
  {
    OwnerUrgent(s, t, s.th[t].pending);
  }

  /** The last thread of a chain is at least as urgent as the first, and so as its own base priority. */
  lemma {:induction false} NoInversion(s: State, c: seq<Thread>)
    requires Inv(s) && Chain(s, c)
    ensures s.th[c[|c| - 1]].cur <= s.th[c[0]].cur <= s.th[c[0]].init
    decreases |c|
  {
    InvThread(s, c[0]);
    if |c| > 1 {
      WaitsOnUrgent(s, c[0], c[1]);
      NoInversion(s, c[1..]);
    }
  }

  // ---------------------------------------------------------------- the exact priority

  /** A boosted thread has a waiter at exactly its priority. */
  lemma BoostHasSource(s: State, t: Thread) returns (w: Thread)
    requires Inv(s) && t in s.th && s.th[t].cur != s.th[t].init
    ensures w in s.th && WaitsOn(s, w, t) && s.th[w].cur == s.th[t].cur
  {
    InvThread(s, t);
    var m :| m in s.th[t].taken && s.mx[m].priority == s.th[t].cur;
    assert LinksOk(s, m) && QueueOk(s, m);
    w := s.mx[m].waiters[0];
    assert Waits(s, w, m);
  }

  /** A new waiter in front of a chain to a thread off all cycles is not in the chain already. */
  lemma FrontIsNew(s: State, c: seq<Thread>, w: Thread, i: nat)
    requires Chain(s, c) && NoDup(c) && !OnCycle(s, c[|c| - 1]) && WaitsOn(s, w, c[0]) && i < |c|
    ensures Chain(s, [w] + c) && c[i] != w
  {
    var e := [w] + c;
    forall k | 0 <= k < |e| - 1 ensures WaitsOn(s, e[k], e[k + 1]) {
      assert k > 0 ==> e[k] == c[k - 1] && e[k + 1] == c[k];
    }
    assert Chain(s, e) && e[|e| - 1] == c[|c| - 1];
    if i < |c| - 1 {
      assert WaitsOn(s, c[i], c[i + 1]) && c[i + 1] != c[0];
    } else {
      assert ChainTo(s, e, c[i]) && e[0] == w;
    }
  }

  /** Following boosts backwards ends at a thread that runs at its own priority. */
  lemma {:induction false} Source(s: State, c: seq<Thread>) returns (d: seq<Thread>)
    requires Inv(s) && Chain(s, c) && NoDup(c) && !OnCycle(s, c[|c| - 1])
    ensures ChainTo(s, d, c[|c| - 1]) && s.th[d[0]].init == s.th[c[0]].cur
    decreases |s.th.Keys| - |c|
  {
    if s.th[c[0]].cur == s.th[c[0]].init {
      d := c;
    } else {
      var w := BoostHasSource(s, c[0]);
      var e := [w] + c;
      forall i | 0 <= i < |c| ensures c[i] != w {
        FrontIsNew(s, c, w, i);
      }
      FrontIsNew(s, c, w, 0);
      assert NoDup(e);
      DistinctFit(e, s.th.Keys);
      assert e[|e| - 1] == c[|c| - 1];
      d := Source(s, e);
    }
  }

  lemma {:induction false} DistinctFit<T>(c: seq<T>, keys: set<T>)
    requires NoDup(c) && forall i :: 0 <= i < |c| ==> c[i] in keys
    ensures |c| <= |keys|
  {
    if c != [] {
      DistinctFit(c[1..], keys - {c[0]});
    }
  }

  /** A thread that does not wait for itself runs at exactly the most urgent base priority among
      itself and all threads blocked behind it, whatever deadlocks there are elsewhere. */
  lemma ExactPriority(s: State, t: Thread)
    requires Inv(s) && t in s.th && !OnCycle(s, t)
    ensures forall c :: ChainTo(s, c, t) ==> s.th[t].cur <= s.th[c[0]].init
    ensures exists c :: ChainTo(s, c, t) && s.th[c[0]].init == s.th[t].cur
  {
    forall c | ChainTo(s, c, t) ensures s.th[t].cur <= s.th[c[0]].init {
      NoInversion(s, c);
    }
    var d := Source(s, [t]);
  }

  /** The same for every state that threads can reach from a fresh start. */
  lemma ReachableExact(s: State, ops: seq<Op>, r: State, t: Thread)
    requires Initial(s) && Inv(s) && Reaches(s, ops, r) && t in r.th && !OnCycle(r, t)
    ensures forall c :: ChainTo(r, c, t) ==> r.th[t].cur <= r.th[c[0]].init
    ensures exists c :: ChainTo(r, c, t) && r.th[c[0]].init == r.th[t].cur
  {
    RunKeeps(s, ops, r);
    ExactPriority(r, t);
  }

  // ---------------------------------------------------------------- closing a cycle

  /** A blocking take adds one edge to the wait-for relation and keeps all others. */
  lemma BlockEdges(s: State, t: Thread, m: Mutex, u: Thread, v: Thread)
    requires Inv(s) && CanRun(s, t) && m in s.mx && s.mx[m].owner != null && s.mx[m].owner != t
    ensures WaitsOn(Take(s, t, m, true).0, u, v) <==> WaitsOn(s, u, v) || (u == t && v == s.mx[m].owner)
  {
    TakeKeeps(s, t, m, true);
    BlockOwners(s, t, m);
    var r := Take(s, t, m, true).0;
    if u in s.th && u != t {
      assert r.th[u] == s.th[u].(cur := r.th[u].cur);
    }
  }

  lemma BlockOwners(s: State, t: Thread, m: Mutex)
    requires Inv(s) && CanRun(s, t) && m in s.mx && s.mx[m].owner != null && s.mx[m].owner != t
    ensures var r := Block(s, t, m);
            r.mx.Keys == s.mx.Keys && forall x :: x in s.mx ==> r.mx[x].owner == s.mx[x].owner
  {
    hide Inv, Block, InsertOrdered;
    BlockShape(s, t, m);
  }

  /** Chains survive a blocking take, and it makes none that does not lead through the caller. */
  lemma BlockChains(s: State, t: Thread, m: Mutex, c: seq<Thread>)
    requires Inv(s) && CanRun(s, t) && m in s.mx && s.mx[m].owner != null && s.mx[m].owner != t
    ensures Chain(s, c) ==> Chain(Take(s, t, m, true).0, c)
    ensures Chain(Take(s, t, m, true).0, c) && (forall i :: 0 <= i < |c| - 1 ==> c[i] != t) ==> Chain(s, c)
  {
    hide Inv, WaitsOn, Take;
    TakeKeeps(s, t, m, true);
    forall i | 0 <= i < |c| - 1
      ensures WaitsOn(Take(s, t, m, true).0, c[i], c[i + 1]) <==>
              WaitsOn(s, c[i], c[i + 1]) || (c[i] == t && c[i + 1] == s.mx[m].owner)
    {
      BlockEdges(s, t, m, c[i], c[i + 1]);
    }
  }

  /** The caller now waits for the owner and for nobody else. */
  lemma CallerWaits(s: State, t: Thread, m: Mutex, v: Thread)
    requires Inv(s) && CanRun(s, t) && m in s.mx && s.mx[m].owner != null && s.mx[m].owner != t
    ensures WaitsOn(Take(s, t, m, true).0, t, v) <==> v == s.mx[m].owner
  {
    BlockEdges(s, t, m, t, v);
  }

  lemma ChainPair(s: State, c: seq<Thread>, d: seq<Thread>)
    requires Chain(s, c) && Chain(s, d) && WaitsOn(s, c[|c| - 1], d[0])
    ensures Chain(s, c + d) && (c + d)[|c + d| - 1] == d[|d| - 1] && (c + d)[0] == c[0]
  {
    hide WaitsOn;
    var e := c + d;
    forall i | 0 <= i < |e| - 1 ensures WaitsOn(s, e[i], e[i + 1]) {
      if i < |c| - 1 {
        assert WaitsOn(s, c[i], c[i + 1]);
      } else if i > |c| - 1 {
        assert WaitsOn(s, d[i - |c|], d[i - |c| + 1]);
      }
    }
  }

  /** A stretch of a chain. */
  lemma ChainPart(s: State, c: seq<Thread>, i: nat, j: nat)
    requires Chain(s, c) && i < j <= |c|
    ensures Chain(s, c[i..j]) && c[i..j][0] == c[i] && c[i..j][j - i - 1] == c[j - 1]
  {
    hide WaitsOn;
    var e := c[i..j];
    forall k | 0 <= k < |e| - 1 ensures WaitsOn(s, e[k], e[k + 1]) {
      assert WaitsOn(s, c[i + k], c[i + k + 1]);
    }
  }

  /** A chain from the owner to the caller, by way of `u`. */
  ghost predicate Closes(s: State, older c: seq<Thread>, o: Thread, t: Thread, u: Thread) {
    ChainTo(s, c, t) && c[0] == o && u in c
  }

  /** Such a chain and the new edge form a cycle through `u`. */
  lemma ClosedThrough(s: State, t: Thread, m: Mutex, u: Thread, c: seq<Thread>)
    requires Inv(s) && CanRun(s, t) && m in s.mx && s.mx[m].owner != null && s.mx[m].owner != t
    requires Closes(s, c, s.mx[m].owner, t, u)
    ensures OnCycle(Take(s, t, m, true).0, u)
  {
    hide Inv, Take, WaitsOn, Chain;
    var r := Take(s, t, m, true).0;
    BlockChains(s, t, m, c);
    CallerWaits(s, t, m, c[0]);
    var i :| 0 <= i < |c| && c[i] == u;
    ChainPart(r, c, i, |c|);
    ChainPart(r, c, 0, i + 1);
    ChainPair(r, c[i..|c|], c[0..i + 1]);
    assert ChainTo(r, c[i..|c|] + c[0..i + 1], u);
  }

  /** A cycle through the caller leads from the owner back to the caller. */
  lemma OwnCycle(s: State, t: Thread, m: Mutex, d: seq<Thread>) returns (c: seq<Thread>)
    requires Inv(s) && CanRun(s, t) && m in s.mx && s.mx[m].owner != null && s.mx[m].owner != t
    requires ChainTo(Take(s, t, m, true).0, d, t) && |d| > 1 && d[0] == t
    ensures Closes(s, c, s.mx[m].owner, t, t)
  {
    hide Inv, Take, WaitsOn;
    var r := Take(s, t, m, true).0;
    assert WaitsOn(r, d[0], d[1]);
    CallerWaits(s, t, m, d[1]);
    var tail := d[1..];
    assert tail[|tail| - 1] == t;
    var k := FirstIndex(tail, t);
    ChainPart(r, d, 1, k + 2);
    c := d[1..k + 2];
    forall i | 0 <= i < |c| - 1 ensures c[i] != t {
      assert c[i] == tail[i];
    }
    assert c[|c| - 1] == tail[k];
    BlockChains(s, t, m, c);
  }

  /** A cycle through somebody else that contains the caller leads from the owner to him and on to
      the caller. */
  lemma OtherCycle(s: State, t: Thread, m: Mutex, u: Thread, d: seq<Thread>) returns (c: seq<Thread>)
    requires Inv(s) && CanRun(s, t) && m in s.mx && s.mx[m].owner != null && s.mx[m].owner != t
    requires ChainTo(Take(s, t, m, true).0, d, u) && |d| > 1 && d[0] == u && u != t && t in d
    ensures Closes(s, c, s.mx[m].owner, t, u)
  {
    hide Inv, Take, WaitsOn;
    var r := Take(s, t, m, true).0;
    var k := FirstIndex(d, t);
    var l := LastIndex(d, t);
    ChainPart(r, d, 0, k + 1);
    ChainPart(r, d, l + 1, |d|);
    var a, b := d[l + 1..|d|], d[0..k + 1];
    assert WaitsOn(r, d[l], d[l + 1]);
    CallerWaits(s, t, m, a[0]);
    BlockChains(s, t, m, a);
    BlockChains(s, t, m, b);
    assert WaitsOn(s, b[0], b[1]);
    ChainPart(s, b, 1, |b|);
    ChainPair(s, a, b[1..|b|]);
    c := a + b[1..|b|];
    assert c[|a| - 1] == u && c[|c| - 1] == b[|b| - 1] == t;
  }

  /** A blocking take puts `u` on a cycle exactly when it was on one before, or when it is on the
      way from the owner to the caller: no other deadlock comes into being. */
  lemma TakeCycles(s: State, t: Thread, m: Mutex, u: Thread)
    requires Inv(s) && CanRun(s, t) && m in s.mx && s.mx[m].owner != null && s.mx[m].owner != t
    ensures OnCycle(Take(s, t, m, true).0, u) <==>
            OnCycle(s, u) || exists c :: Closes(s, c, s.mx[m].owner, t, u)
  {
    hide Inv, Take, Chain;
    var r := Take(s, t, m, true).0;
    if d :| ChainTo(s, d, u) && |d| > 1 && d[0] == u {
      BlockChains(s, t, m, d);
      assert ChainTo(r, d, u);
    }
    if c :| Closes(s, c, s.mx[m].owner, t, u) {
      ClosedThrough(s, t, m, u, c);
    }
    if d :| ChainTo(r, d, u) && |d| > 1 && d[0] == u {
      if u == t {
        var c := OwnCycle(s, t, m, d);
      } else if t in d {
        var c := OtherCycle(s, t, m, u, d);
      } else {
        BlockChains(s, t, m, d);
        assert ChainTo(s, d, u);
      }
    }
  }

  /** A blocking take deadlocks the caller exactly when the owner already waits, through others,
      for the caller, whatever deadlocks there are elsewhere. */
  lemma TakeDeadlocks(s: State, t: Thread, m: Mutex)
    requires Inv(s) && CanRun(s, t) && m in s.mx && s.mx[m].owner != null && s.mx[m].owner != t
    ensures OnCycle(Take(s, t, m, true).0, t) <==> exists c :: ChainTo(s, c, t) && c[0] == s.mx[m].owner
  {
    hide Inv, Take, WaitsOn;
    TakeCycles(s, t, m, t);
    OffCycle(s, t);
    if c :| ChainTo(s, c, t) && c[0] == s.mx[m].owner {
      EndsIn(s, c, t);
      assert Closes(s, c, s.mx[m].owner, t, t);
    }
  }

  lemma EndsIn(s: State, c: seq<Thread>, t: Thread)
    requires ChainTo(s, c, t)
    ensures t in c
  {
  }

  /** Whoever has no edge out is on no cycle. */
  lemma OffCycle(s: State, t: Thread)
    requires t in s.th && s.th[t].stat != Suspended
    ensures !OnCycle(s, t)
  {
    forall c | ChainTo(s, c, t) && |c| > 1 ensures c[0] != t {
      assert WaitsOn(s, c[0], c[1]);
    }
  }

  lemma LastIndex<T>(p: seq<T>, t: T) returns (k: nat)
    requires t in p
    ensures k < |p| && p[k] == t && forall j :: k < j < |p| ==> p[j] != t
  {
    k := |p| - 1;
    while p[k] != t
      invariant k < |p| && (forall j :: k < j < |p| ==> p[j] != t) && t in p[..k + 1]
      decreases k
    {
      k := k - 1;
    }
  }

  lemma FirstIndex<T>(p: seq<T>, t: T) returns (k: nat)
    requires t in p
    ensures k < |p| && p[k] == t && forall j :: 0 <= j < k ==> p[j] != t
  {
    k := 0;
    while p[k] != t
      invariant k < |p| && (forall j :: 0 <= j < k ==> p[j] != t) && t in p[k..]
      decreases |p| - k
    {
      k := k + 1;
    }
  }
}
