/** The rows of the timer skip list, and 32-bit tick comparison. */
module TimerSkipList {

  import opened OrderedList
  import opened TimerModel

  // ---------------------------------------------------------------- ticks that wrap around

  const TICKS := 0x1_0000_0000

  function Wrap(d: int): (w: nat) {
    d % TICKS
  }

  /** Unsigned 32-bit subtraction. */
  function TickSub(a: nat, b: nat): (d: nat) {
    (a - b) % TICKS
  }

  /** Inside a window of half the tick range, wrapped comparison is comparison of deadlines. */
  lemma CompareAgrees(x: nat, y: nat)
    requires -HALF <= x - y < HALF
    ensures TickSub(Wrap(x), Wrap(y)) == 0 <==> x == y
    ensures 0 < TickSub(Wrap(x), Wrap(y)) < HALF <==> x > y
  {
    SubWrap(x, y);
    WrapRange(x - y);
  }

  lemma SubWrap(x: nat, y: nat)
    ensures TickSub(Wrap(x), Wrap(y)) == (x - y) % TICKS
  {
    var a, b := x / TICKS, y / TICKS;
    assert x == a * TICKS + Wrap(x) && y == b * TICKS + Wrap(y);
    ModShift(x - y, b - a);
    assert x - y + (b - a) * TICKS == Wrap(x) - Wrap(y);
  }

  lemma ModShift(d: int, k: int)
    ensures (d + k * TICKS) % TICKS == d % TICKS
  {
    var q, q2 := d / TICKS, (d + k * TICKS) / TICKS;
    assert d == q * TICKS + d % TICKS;
    assert d + k * TICKS == q2 * TICKS + (d + k * TICKS) % TICKS;
    assert (q + k - q2) * TICKS == (d + k * TICKS) % TICKS - d % TICKS;
    assert -TICKS < (q + k - q2) * TICKS < TICKS;
    assert q + k == q2;
  }

  lemma WrapRange(d: int)
    requires -HALF <= d < HALF
    ensures d % TICKS == if d >= 0 then d else d + TICKS
  {
    if d < 0 {
      ModShift(d, 1);
    }
  }

  /** "Not yet reached" is a wrapped distance of at least half the range. */
  lemma DueAgrees(now: nat, d: nat)
    requires -HALF < now - d < HALF
    ensures TickSub(Wrap(now), Wrap(d)) < HALF <==> d <= now
  {
    SubWrap(now, d);
    WrapRange(now - d);
  }

  lemma WrapAdd(now: nat, n: nat)
    ensures (Wrap(now) + n) % TICKS == Wrap(now + n)
  {
    var a := now / TICKS;
    assert now == a * TICKS + Wrap(now);
    ModShift(now + n, -a);
    assert now + n + -a * TICKS == Wrap(now) + n;
  }

  // ---------------------------------------------------------------- rows

  /** The timers of `ws` that are at least `k` rows high. */
  ghost function Filter(ws: seq<Timer>, h: map<Timer, nat>, k: nat): (r: seq<Timer>) {
    if ws == [] then []
    else if ws[0] in h && h[ws[0]] >= k then [ws[0]] + Filter(ws[1..], h, k)
    else Filter(ws[1..], h, k)
  }

  /** Row `i` holds the timers of the bottom row that are high enough to reach it. */
  ghost predicate RowsOk(rows: seq<seq<Timer>>, h: map<Timer, nat>) {
    && |rows| > 0
    && (forall t :: t in rows[|rows| - 1] ==> t in h && h[t] >= 1)
    && forall i :: 0 <= i < |rows| ==> rows[i] == Filter(rows[|rows| - 1], h, |rows| - i)
  }

  lemma {:induction false} FilterConcat(a: seq<Timer>, b: seq<Timer>, h: map<Timer, nat>, k: nat)
    ensures Filter(a + b, h, k) == Filter(a, h, k) + Filter(b, h, k)
  {
    if a == [] {
      assert a + b == b;
    } else {
      FilterConcat(a[1..], b, h, k);
      assert (a + b)[0] == a[0] && (a + b)[1..] == a[1..] + b;
    }
  }

  lemma {:induction false} FilterMembers(ws: seq<Timer>, h: map<Timer, nat>, k: nat)
    ensures forall t :: t in Filter(ws, h, k) ==> t in ws && t in h && h[t] >= k
    ensures forall t :: t in ws && t in h && h[t] >= k ==> t in Filter(ws, h, k)
  {
    if ws != [] {
      FilterMembers(ws[1..], h, k);
      assert ws == [ws[0]] + ws[1..];
    }
  }

  lemma {:induction false} FilterKeeps(key: Timer -> nat, ws: seq<Timer>, h: map<Timer, nat>, k: nat)
    requires NoDup(ws)
    ensures NoDup(Filter(ws, h, k))
    ensures SortedBy(key, ws) ==> SortedBy(key, Filter(ws, h, k))
  {
    if ws != [] {
      FilterKeeps(key, ws[1..], h, k);
      FilterMembers(ws[1..], h, k);
      var rest := Filter(ws[1..], h, k);
      forall j | 0 <= j < |rest| ensures rest[j] != ws[0] && (SortedBy(key, ws) ==> key(ws[0]) <= key(rest[j])) {
        assert rest[j] in ws[1..];
      }
    }
  }

  lemma {:induction false} FilterSame(ws: seq<Timer>, h: map<Timer, nat>, g: map<Timer, nat>, k: nat)
    requires forall t :: t in ws ==> (t in h <==> t in g) && (t in h ==> h[t] == g[t])
    ensures Filter(ws, h, k) == Filter(ws, g, k)
  {
    if ws != [] {
      FilterSame(ws[1..], h, g, k);
    }
  }

  /** Every row is a sublist of the row below: the timers of the row below that are high enough. */
  lemma {:induction false} FilterNested(ws: seq<Timer>, h: map<Timer, nat>, k: nat, l: nat)
    requires k <= l
    ensures Filter(Filter(ws, h, k), h, l) == Filter(ws, h, l)
  {
    if ws != [] {
      FilterNested(ws[1..], h, k, l);
      if ws[0] in h && h[ws[0]] >= k {
        assert Filter(ws, h, k)[1..] == Filter(ws[1..], h, k);
      }
    }
  }

  lemma {:induction false} FilterRemove(ws: seq<Timer>, h: map<Timer, nat>, k: nat, t: Timer)
    requires NoDup(ws)
    ensures Filter(Remove(ws, t), h, k) == Remove(Filter(ws, h, k), t)
  {
    if ws != [] {
      FilterRemove(ws[1..], h, k, t);
      if ws[0] == t {
        FilterMembers(ws[1..], h, k);
        RemoveAbsent(Filter(ws[1..], h, k), t);
      } else {
        assert Remove(ws, t)[1..] == Remove(ws[1..], t);
        if ws[0] in h && h[ws[0]] >= k {
          assert Filter(ws, h, k)[1..] == Filter(ws[1..], h, k);
        }
      }
    }
  }

  /** Inserting into the bottom row is inserting into every row the timer reaches, each at the
      position the search finds there. */
  lemma FilterInsert(key: Timer -> nat, ws: seq<Timer>, h: map<Timer, nat>, k: nat, t: Timer)
    requires NoDup(ws) && SortedBy(key, ws) && t !in ws && t in h
    ensures Filter(InsertOrdered(key, ws, t), h, k)
         == if h[t] >= k then InsertOrdered(key, Filter(ws, h, k), t) else Filter(ws, h, k)
  {
    hide Filter, FindPos, InsertOrdered;
    var p := FindPos(key, ws, key(t));
    var a, b := ws[..p], ws[p..];
    assert ws == a + b;
    FilterPos(key, ws, h, k, key(t));
    InsertAt(key, ws, t, a, b);
    FilterConcat(a, b, h, k);
    FilterConcat(a, [t] + b, h, k);
    FilterOne(t, b, h, k);
    InsertAt(key, Filter(ws, h, k), t, Filter(a, h, k), Filter(b, h, k));
  }

  lemma InsertAt(key: Timer -> nat, ws: seq<Timer>, t: Timer, a: seq<Timer>, b: seq<Timer>)
    requires ws == a + b && FindPos(key, ws, key(t)) == |a|
    ensures InsertOrdered(key, ws, t) == a + ([t] + b)
  {
    assert ws[..|a|] == a && ws[|a|..] == b;
  }

  lemma FilterOne(t: Timer, b: seq<Timer>, h: map<Timer, nat>, k: nat)
    requires t in h
    ensures Filter([t] + b, h, k) == if h[t] >= k then [t] + Filter(b, h, k) else Filter(b, h, k)
  {
    assert ([t] + b)[1..] == b;
  }

  lemma FilterPos(key: Timer -> nat, ws: seq<Timer>, h: map<Timer, nat>, k: nat, d: nat)
    requires NoDup(ws) && SortedBy(key, ws)
    ensures var p := FindPos(key, ws, d);
            FindPos(key, Filter(ws, h, k), d) == |Filter(ws[..p], h, k)|
  {
    hide FindPos, Filter, SortedBy, NoDup;
    var p := FindPos(key, ws, d);
    var a, b := ws[..p], ws[p..];
    assert ws == a + b;
    SplitDistinct(ws, p);
    FilterConcat(a, b, h, k);
    FilterMembers(a, h, k);
    FilterMembers(b, h, k);
    var fa, fb := Filter(a, h, k), Filter(b, h, k);
    forall i | 0 <= i < |fa| ensures key((fa + fb)[i]) <= d {
      assert fa[i] in a;
    }
    if fb != [] {
      assert fb[0] in b;
      LaterBehind(key, ws, p, d, fb[0]);
    }
    FindPosIs(key, fa + fb, d, |fa|);
  }

  lemma SplitDistinct<T>(ws: seq<T>, p: nat)
    requires NoDup(ws) && p <= |ws|
    ensures NoDup(ws[..p]) && NoDup(ws[p..])
  {
  }

  lemma LaterBehind(key: Timer -> nat, ws: seq<Timer>, p: nat, d: nat, t: Timer)
    requires SortedBy(key, ws) && p < |ws| && d < key(ws[p]) && t in ws[p..]
    ensures d < key(t)
  {
    var j :| 0 <= j < |ws[p..]| && ws[p..][j] == t;
    assert j > 0 ==> key(ws[p]) <= key(ws[p + j]);
  }
}
