/** Who is served first: over every run of calls, the waiters of an event set stand in order of
    priority or of arrival, and a send serves them in that order. */
module EventOrder {

  import opened KernelTypes
  import opened OrderedList
  import opened WaitingOrder
  import opened Event

  /** A state with the call at which each thread last began to wait, and the calls so far. */
  datatype Timed = Timed(e: State, joined: map<Tid, nat>, clock: nat)

  ghost function Arrived(joined: map<Tid, nat>): (arrived: Waiter -> nat) {
    (w: Waiter) => if w.t in joined then joined[w.t] else 0
  }

  /** A thread that waits makes no call. */
  ghost predicate Allowed(e: State, c: Call) {
    c.RecvCall? ==> forall w :: w in e.waiters ==> w.t != c.w.t
  }

  ghost predicate Joins(e: State, c: Call) {
    c.RecvCall? && c.wait && c.w.want != {} && !Satisfied(e.bits, c.w)
  }

  ghost function Tick(x: Timed, c: Call): (r: Timed) {
    Timed(Do(x.e, c), if Joins(x.e, c) then x.joined[c.w.t := x.clock] else x.joined, x.clock + 1)
  }

  ghost predicate Ordered(x: Timed) {
    && (forall w :: w in x.e.waiters ==> w.t in x.joined && x.joined[w.t] < x.clock)
    && InOrder(x.e.flag, Rank(x.e.prio), Arrived(x.joined), x.e.waiters)
  }

  /** Those who are passed over keep their order. */
  lemma {:induction false} ServeOrder(flag: Flag, prio: Waiter -> nat, arrived: Waiter -> nat, s: Bits, ws: seq<Waiter>)
    requires InOrder(flag, prio, arrived, ws)
    ensures InOrder(flag, prio, arrived, ServeAll(s, ws).1) && forall w :: w in ServeAll(s, ws).1 ==> w in ws
  {
    hide Satisfied;
    if ws != [] {
      RestKeeps(flag, prio, arrived, ws);
      assert ws == [ws[0]] + ws[1..];
      if Satisfied(s, ws[0]) {
        ServeOrder(flag, prio, arrived, Receive(s, ws[0]).1, ws[1..]);
      } else {
        var left := ServeAll(s, ws[1..]).1;
        ServeOrder(flag, prio, arrived, s, ws[1..]);
        HeadStays(flag, prio, arrived, ws, left);
      }
    }
  }

  lemma HeadStays(flag: Flag, prio: Waiter -> nat, arrived: Waiter -> nat, ws: seq<Waiter>, left: seq<Waiter>)
    requires InOrder(flag, prio, arrived, ws) && ws != [] && InOrder(flag, prio, arrived, left)
    requires forall w :: w in left ==> w in ws[1..]
    ensures InOrder(flag, prio, arrived, [ws[0]] + left)
  {
    forall j | 0 <= j < |left| ensures First(flag, prio, arrived, ws[0], left[j]) {
      assert left[j] in ws[1..];
      var k :| 0 <= k < |ws[1..]| && ws[1..][k] == left[j];
      assert First(flag, prio, arrived, ws[0], ws[k + 1]);
    }
  }

  lemma OrderedTick(x: Timed, c: Call)
    requires Ordered(x) && Allowed(x.e, c)
    ensures Ordered(Tick(x, c))
  {
    hide InOrder, Satisfied, Suspend;
    var e, rank, arrived := x.e, Rank(x.e.prio), Arrived(x.joined);
    match c
    case SendCall(s) => ServeOrder(e.flag, rank, arrived, e.bits + s, e.waiters);
    case RecvCall(w, wait) =>
      if Joins(e, c) {
        JoinOrdered(x, w);
      }
    case LeaveCall(w) => LeaveKeeps(e.flag, rank, arrived, e.waiters, w);
    case ResetCall => NoneWait(e.flag, rank, arrived);
  }

  lemma NoneWait(flag: Flag, prio: Waiter -> nat, arrived: Waiter -> nat)
    ensures InOrder(flag, prio, arrived, [])
  {
  }

  lemma JoinOrdered(x: Timed, w: Waiter)
    requires Ordered(x) && forall v :: v in x.e.waiters ==> v.t != w.t
    ensures Ordered(Timed(x.e.(waiters := Suspended(x.e, w)), x.joined[w.t := x.clock], x.clock + 1))
  {
    hide InOrder;
    var e, rank := x.e, Rank(x.e.prio);
    var before, now := Arrived(x.joined), Arrived(x.joined[w.t := x.clock]);
    forall i | 0 <= i < |e.waiters| ensures now(e.waiters[i]) == before(e.waiters[i]) < now(w) {
      assert e.waiters[i] in e.waiters;
    }
    SameArrivals(e.flag, rank, before, now, e.waiters);
    SuspendKeeps(e.flag, rank, now, e.waiters, w);
    assert forall v :: v in Suspended(e, w) ==> v in e.waiters || v == w;
  }

  // ---------------------------------------------------------------- runs

  ghost predicate AllowedAll(e: State, cs: seq<Call>)
    decreases |cs|
  {
    cs == [] || (Allowed(e, cs[0]) && AllowedAll(Do(e, cs[0]), cs[1..]))
  }

  ghost function TickAll(x: Timed, cs: seq<Call>): (r: Timed)
    decreases |cs|
  {
    if cs == [] then x else TickAll(Tick(x, cs[0]), cs[1..])
  }

  /** Over every run the waiters stand in order. */
  lemma {:induction false} OrderedRun(x: Timed, cs: seq<Call>)
    requires Ordered(x) && AllowedAll(x.e, cs)
    ensures TickAll(x, cs).e == After(x.e, cs) && Ordered(TickAll(x, cs))
    decreases |cs|
  {
    hide Ordered, Do, Allowed;
    if cs != [] {
      OrderedTick(x, cs[0]);
      OrderedRun(Tick(x, cs[0]), cs[1..]);
    }
  }

  /** In order of turn: a send serves more urgent waiters, or those who wait longer, first. */
  lemma ServedInTurn(x: Timed, s: Bits) returns (mask: seq<bool>)
    requires Ordered(x) && s != {} && forall w :: w in x.e.waiters ==> w.want != {}
    ensures |mask| == |x.e.waiters|
    ensures var lucky, served := Marked(x.e.waiters, mask, true), ServeAll(x.e.bits + s, x.e.waiters).2;
            && InOrder(x.e.flag, Rank(x.e.prio), Arrived(x.joined), lucky) && |served| == |lucky|
            && forall i :: 0 <= i < |served| ==> InTurn(x.e.bits + s, lucky, served, i)
  {
    hide InOrder, InTurn;
    mask := ServePartition(x.e.bits + s, x.e.waiters);
    MarkedOrder(x.e.flag, Rank(x.e.prio), Arrived(x.joined), x.e.waiters, mask, true);
  }

  lemma {:induction false} MarkedOrder(flag: Flag, prio: Waiter -> nat, arrived: Waiter -> nat,
                                       ws: seq<Waiter>, mask: seq<bool>, on: bool)
    requires InOrder(flag, prio, arrived, ws) && |mask| == |ws|
    ensures InOrder(flag, prio, arrived, Marked(ws, mask, on))
  {
    if ws != [] {
      RestKeeps(flag, prio, arrived, ws);
      MarkedOrder(flag, prio, arrived, ws[1..], mask[1..], on);
      if mask[0] == on {
        MarkedIn(ws[1..], mask[1..], on);
        HeadStays(flag, prio, arrived, ws, Marked(ws[1..], mask[1..], on));
      }
    }
  }
}
