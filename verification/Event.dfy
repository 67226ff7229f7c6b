/** Event sets: a send resumes every waiter whose condition holds, and each of them receives what
    it would have received by asking at that moment. */
module Event {

  import opened KernelTypes
  import opened OrderedList
  import opened WaitingOrder

  /** A set of event bits, by bit number. */
  type Bits = set<nat>

  /** What a thread waits for; `all` is RT_EVENT_FLAG_AND, otherwise RT_EVENT_FLAG_OR. */
  datatype Waiter = Waiter(t: Tid, want: Bits, all: bool, clear: bool)

  /** A completed receive: who received which bits. */
  datatype Receipt = Receipt(t: Tid, bits: Bits)

  predicate Satisfied(s: Bits, w: Waiter) {
    if w.all then s * w.want == w.want else s * w.want != {}
  }

  /** RT_EVENT_FLAG_AND asks for all the bits, RT_EVENT_FLAG_OR for any of them. */
  lemma SatisfiedMeans(s: Bits, w: Waiter)
    ensures Satisfied(s, w) <==> if w.all then w.want <= s else exists b :: b in w.want && b in s
  {
    if w.all {
      assert s * w.want == w.want ==> forall b :: b in w.want ==> b in s * w.want;
    } else if b :| b in w.want && b in s {
      assert b in s * w.want;
    } else {
      assert s * w.want == {};
    }
  }

  /** A receive that succeeds at once: the bits it returns and the set it leaves. */
  function Receive(s: Bits, w: Waiter): (r: (Receipt, Bits)) {
    (Receipt(w.t, s * w.want), if w.clear then s - w.want else s)
  }

  // ---------------------------------------------------------------- the reference: receives in queue order

  /** Every waiter in turn asks again; those who succeed are served, the others stay. */
  function ServeAll(s: Bits, ws: seq<Waiter>): (r: (Bits, seq<Waiter>, seq<Receipt>)) {
    if ws == [] then (s, [], [])
    else if Satisfied(s, ws[0]) then
      var (r, s1) := Receive(s, ws[0]);
      var (s2, left, served) := ServeAll(s1, ws[1..]);
      (s2, left, [r] + served)
    else
      var (s2, left, served) := ServeAll(s, ws[1..]);
      (s2, [ws[0]] + left, served)
  }

  // ---------------------------------------------------------------- no waiter is ever satisfied

  ghost predicate NoneSatisfied(s: Bits, ws: seq<Waiter>) {
    forall i :: 0 <= i < |ws| ==> !Satisfied(s, ws[i])
  }

  /** With fewer bits, no more conditions hold. */
  lemma FewerBits(a: Bits, b: Bits, w: Waiter)
    requires a <= b && Satisfied(a, w)
    ensures Satisfied(b, w)
  {
    assert a * w.want <= b * w.want <= w.want;
  }

  lemma FewerNone(a: Bits, b: Bits, ws: seq<Waiter>)
    requires a <= b && NoneSatisfied(b, ws)
    ensures NoneSatisfied(a, ws)
  {
    forall i | 0 <= i < |ws| ensures !Satisfied(a, ws[i]) {
      if Satisfied(a, ws[i]) {
        FewerBits(a, b, ws[i]);
      }
    }
  }

  /** After serving, nobody left could be served, whatever the bits at the start: a waiter that
      was passed over cannot become satisfied by the receives of the others. */
  lemma {:induction false} ServeLeavesNone(s: Bits, ws: seq<Waiter>)
    ensures var (r, left, served) := ServeAll(s, ws); r <= s && NoneSatisfied(r, left)
  {
    if ws != [] {
      if Satisfied(s, ws[0]) {
        var s1 := Receive(s, ws[0]).1;
        ServeLeavesNone(s1, ws[1..]);
      } else {
        ServeLeavesNone(s, ws[1..]);
        var r := ServeAll(s, ws[1..]).0;
        if Satisfied(r, ws[0]) {
          FewerBits(r, s, ws[0]);
        }
      }
    }
  }

  /** The waiters with the given mark, in order. */
  function Marked(ws: seq<Waiter>, mask: seq<bool>, on: bool): (r: seq<Waiter>)
    requires |mask| == |ws|
  {
    if ws == [] then []
    else if mask[0] == on then [ws[0]] + Marked(ws[1..], mask[1..], on)
    else Marked(ws[1..], mask[1..], on)
  }

  /** What the receipt of a waiter may say: some of the bits it asked for, all of them if it needs
      them all. */
  ghost predicate Fulfils(r: Receipt, w: Waiter) {
    r.t == w.t && r.bits != {} && r.bits <= w.want && (w.all ==> r.bits == w.want)
  }

  /** What the waiters `ws` clear when all of them are served. */
  function ClearedBy(ws: seq<Waiter>): (bits: Bits) {
    if ws == [] then {}
    else (if ws[0].clear then ws[0].want else {}) + ClearedBy(ws[1..])
  }

  /** Receipt `i` is what waiter `i` of the served ones finds after those before it have cleared. */
  ghost predicate InTurn(s: Bits, lucky: seq<Waiter>, served: seq<Receipt>, i: nat)
    requires i < |lucky| && |served| == |lucky|
  {
    var bits := s - ClearedBy(lucky[..i]);
    Satisfied(bits, lucky[i]) && served[i] == Receipt(lucky[i].t, bits * lucky[i].want)
  }

  /** Everybody is either served or still waiting, in the order of the queue: one marking of the
      queue tells the waiters that remain from those that get a receipt each. What remains set is
      what was set, without what the served ones clear. */
  lemma {:induction false} ServePartition(s: Bits, ws: seq<Waiter>) returns (mask: seq<bool>)
    requires forall w :: w in ws ==> w.want != {}
    ensures |mask| == |ws|
    ensures var (r, left, served) := ServeAll(s, ws); var lucky := Marked(ws, mask, true);
            && left == Marked(ws, mask, false) && |served| == |lucky| && r == s - ClearedBy(lucky)
            && (forall i :: 0 <= i < |served| ==> Fulfils(served[i], lucky[i]))
            && (forall i :: 0 <= i < |served| ==> InTurn(s, lucky, served, i))
  {
    mask := [];
    if ws != [] {
      hide Satisfied, InTurn;
      assert ws == [ws[0]] + ws[1..];
      var now := Satisfied(s, ws[0]);
      var s1 := if now then Receive(s, ws[0]).1 else s;
      var rest := ServePartition(s1, ws[1..]);
      mask := [now] + rest;
      assert mask[1..] == rest;
      if now {
        var lucky, served := Marked(ws[1..], rest, true), ServeAll(s1, ws[1..]).2;
        ServedFirst(s, ws[0], lucky, served);
      }
    }
  }

  lemma ServedFirst(s: Bits, w: Waiter, lucky: seq<Waiter>, served: seq<Receipt>)
    requires Satisfied(s, w) && w.want != {} && |served| == |lucky|
    requires var s1 := Receive(s, w).1; forall i :: 0 <= i < |lucky| ==> InTurn(s1, lucky, served, i)
    ensures var r := Receive(s, w).0; var all, got := [w] + lucky, [r] + served;
            && Fulfils(r, w) && Receive(s, w).1 - ClearedBy(lucky) == s - ClearedBy(all)
            && forall i :: 0 <= i < |all| ==> InTurn(s, all, got, i)
  {
    var (r, s1) := Receive(s, w);
    var all, got := [w] + lucky, [r] + served;
    assert all[1..] == lucky;
    forall i | 0 <= i < |all| ensures InTurn(s, all, got, i) {
      if i > 0 {
        assert InTurn(s1, lucky, served, i - 1);
        assert all[..i][1..] == lucky[..i - 1];
        assert s1 - ClearedBy(lucky[..i - 1]) == s - ClearedBy(all[..i]);
      } else {
        assert all[..0] == [] && s - {} == s;
      }
    }
  }

  lemma {:induction false} MarkedIn(ws: seq<Waiter>, mask: seq<bool>, on: bool)
    requires |mask| == |ws|
    ensures forall w :: w in Marked(ws, mask, on) ==> w in ws
  {
    if ws != [] {
      MarkedIn(ws[1..], mask[1..], on);
    }
  }

  // ---------------------------------------------------------------- calls and runs

  /** An event set with its waiters, as a value. */
  datatype State = State(flag: Flag, prio: Tid -> nat, bits: Bits, waiters: seq<Waiter>)

  datatype Call =
    | SendCall(s: Bits)
    | RecvCall(w: Waiter, wait: bool)
    | LeaveCall(w: Waiter)
    | ResetCall

  function Rank(prio: Tid -> nat): (rank: Waiter -> nat) {
    (w: Waiter) => prio(w.t)
  }

  function Suspended(e: State, w: Waiter): (ws: seq<Waiter>) {
    Suspend(e.flag, Rank(e.prio), e.waiters, w)
  }

  function Do(e: State, c: Call): (r: State) {
    match c
    case SendCall(s) =>
      if s == {} then e
      else
        var (bits, left, served) := ServeAll(e.bits + s, e.waiters);
        e.(bits := bits, waiters := left)
    case RecvCall(w, wait) =>
      if w.want == {} then e
      else if Satisfied(e.bits, w) then e.(bits := Receive(e.bits, w).1)
      else if wait then e.(waiters := Suspended(e, w))
      else e
    case LeaveCall(w) => e.(waiters := Remove(e.waiters, w))
    case ResetCall => e.(bits := {}, waiters := [])
  }

  function After(e: State, cs: seq<Call>): (r: State)
    decreases |cs|
  {
    if cs == [] then e else After(Do(e, cs[0]), cs[1..])
  }

  ghost predicate Inv(current: Bits, waiters: seq<Waiter>) {
    NoneSatisfied(current, waiters) && forall w :: w in waiters ==> w.want != {}
  }

  lemma SendKeeps(s: Bits, ws: seq<Waiter>)
    requires forall w :: w in ws ==> w.want != {}
    ensures var (bits, left, served) := ServeAll(s, ws); Inv(bits, left)
  {
    ServeLeavesNone(s, ws);
    var mask := ServePartition(s, ws);
    MarkedIn(ws, mask, false);
  }

  lemma DoKeeps(e: State, c: Call)
    requires Inv(e.bits, e.waiters)
    ensures Inv(Do(e, c).bits, Do(e, c).waiters)
  {
    match c
    case SendCall(s) => SendKeeps(e.bits + s, e.waiters);
    case RecvCall(w, wait) =>
      FewerNone(e.bits - w.want, e.bits, e.waiters);
      if w.want != {} && !Satisfied(e.bits, w) {
        QueuedNone(e.bits, e.waiters, Rank(e.prio), w);
      }
    case LeaveCall(w) => RemoveNone(e.bits, e.waiters, w);
    case ResetCall =>
  }

  lemma {:induction false} RunKeeps(e: State, cs: seq<Call>)
    requires Inv(e.bits, e.waiters)
    ensures Inv(After(e, cs).bits, After(e, cs).waiters)
    decreases |cs|
  {
    if cs != [] {
      DoKeeps(e, cs[0]);
      RunKeeps(Do(e, cs[0]), cs[1..]);
    }
  }

  /** In every state that calls can reach from an empty event set, no waiter's condition holds:
      an AND waiter misses a bit, an OR waiter all bits. */
  lemma ReachableNone(flag: Flag, prio: Tid -> nat, cs: seq<Call>)
    ensures var e := After(State(flag, prio, {}, []), cs);
            && NoneSatisfied(e.bits, e.waiters)
            && forall w :: w in e.waiters ==> if w.all then !(w.want <= e.bits) else w.want !! e.bits
  {
    RunKeeps(State(flag, prio, {}, []), cs);
    var e := After(State(flag, prio, {}, []), cs);
    forall w | w in e.waiters ensures if w.all then !(w.want <= e.bits) else w.want !! e.bits {
      var i :| 0 <= i < |e.waiters| && e.waiters[i] == w;
      SatisfiedMeans(e.bits, w);
    }
  }

  // ---------------------------------------------------------------- what each call does

  /** A receive takes away bits exactly when it succeeds with RT_EVENT_FLAG_CLEAR, and then the
      ones it asked for; it joins the waiters exactly when it fails and may wait. */
  lemma RecvDoes(e: State, w: Waiter, wait: bool)
    ensures var r := Do(e, RecvCall(w, wait)); var ok := w.want != {} && Satisfied(e.bits, w);
            && r.flag == e.flag && r.prio == e.prio
            && (forall b :: b in r.bits <==> b in e.bits && !(ok && w.clear && b in w.want))
            && (ok || !wait || w.want == {} ==> r.waiters == e.waiters)
            && (!ok && wait && w.want != {} ==> multiset(r.waiters) == multiset(e.waiters) + multiset{w})
  {
    var k := FindPos(Rank(e.prio), e.waiters, Rank(e.prio)(w));
    assert e.waiters == e.waiters[..k] + e.waiters[k..];
  }

  /** A send adds its bits, except those that the waiters it serves clear. */
  lemma SendDoes(e: State, s: Bits) returns (mask: seq<bool>)
    requires forall w :: w in e.waiters ==> w.want != {}
    ensures var r := Do(e, SendCall(s)); var total := e.bits + s;
            && |mask| == |e.waiters| && r.flag == e.flag && r.prio == e.prio
            && (s == {} ==> r == e)
            && (s != {} ==> r.bits == total - ClearedBy(Marked(e.waiters, mask, true))
                            && r.waiters == Marked(e.waiters, mask, false))
  {
    mask := ServePartition(e.bits + s, e.waiters);
  }

  /** A timeout takes one entry of its waiter out of the list and leaves the bits. */
  lemma LeaveDoes(e: State, w: Waiter)
    ensures var r := Do(e, LeaveCall(w));
            && r == e.(waiters := r.waiters)
            && (w !in e.waiters ==> r == e)
            && (w in e.waiters ==> var k := IndexOf(e.waiters, w); r.waiters == e.waiters[..k] + e.waiters[k + 1..])
  {
    RemoveOne(e.waiters, w);
  }

  lemma RemoveOne<T>(ws: seq<T>, t: T)
    ensures t !in ws ==> Remove(ws, t) == ws
    ensures t in ws ==> var k := IndexOf(ws, t); Remove(ws, t) == ws[..k] + ws[k + 1..]
  {
    if t !in ws {
      RemoveAbsent(ws, t);
    } else {
      FirstIndex(ws, t);
      var k := IndexOf(ws, t);
      assert ws == ws[..k] + [t] + ws[k + 1..];
      RemoveBehind(ws[..k], t, ws[k + 1..]);
    }
  }

  lemma {:induction false} FirstIndex<T>(ws: seq<T>, t: T)
    requires t in ws
    ensures t !in ws[..IndexOf(ws, t)]
  {
    if ws[0] != t {
      FirstIndex(ws[1..], t);
      var k := IndexOf(ws[1..], t);
      assert ws[..k + 1] == [ws[0]] + ws[1..][..k];
    }
  }

  /** A reset leaves no bits and no waiters. */
  lemma ResetDoes(e: State)
    ensures Do(e, ResetCall) == State(e.flag, e.prio, {}, [])
  {
  }

  // ---------------------------------------------------------------- the object

  /** What `rt_event_recv` returns. */
  datatype Outcome = Received(bits: Bits) | Timeout | Waiting | Error

  class EventObject {
    var bits: Bits
    var waiters: seq<Waiter>
    const flag: Flag
    const prio: Tid -> nat

    ghost predicate Valid()
      reads this
    {
      Inv(bits, waiters)
    }

    ghost function Abs(): (e: State)
      reads this
    {
      State(flag, prio, bits, waiters)
    }

    constructor (f: Flag, p: Tid -> nat)
      ensures Valid() && bits == {} && waiters == []
    {
      flag, prio, bits, waiters := f, p, {}, [];
    }

    /** `rt_event_send`: the loop over the waiting list computes, for an OR waiter, the bits it
        receives first and clears those; this serves the waiters as if each asked again. */
    method Send(s: Bits) returns (ok: bool, served: seq<Receipt>)
      requires Valid()
      modifies this
      ensures Valid() && ok == (s != {})
      ensures Abs() == Do(old(Abs()), SendCall(s))
      ensures served == if ok then ServeAll(old(bits) + s, old(waiters)).2 else []
    {
      served := [];
      if s == {} {
        return false, [];
      }
      ghost var ws, total := waiters, bits + s;
      ghost var r := ServeAll(total, ws);
      assert ws[0..] == ws && [] + r.1 == r.1 && [] + r.2 == r.2;
      bits := bits + s;
      var n, left := 0, [];
      while n < |waiters|
        invariant n <= |waiters| && waiters == ws
        invariant ServeAll(total, ws) == Prefixed(left, served, ServeAll(bits, ws[n..]))
      {
        var w := waiters[n];
        var eventSet, ready := w.want, false;
        if w.all {
          ready := w.want * bits == w.want;
        } else if w.want * bits != {} {
          eventSet := w.want * bits;
          ready := true;
        }
        assert ws[n..][0] == w && ws[n..][1..] == ws[n + 1..];
        ServeOne(bits, w, ws[n + 1..], left, served);
        if ready {
          if w.clear {
            bits := bits - eventSet;
          }
          served := served + [Receipt(w.t, eventSet)];
        } else {
          left := left + [w];
        }
        n := n + 1;
      }
      waiters := left;
      assert ServeAll(bits, ws[n..]) == (bits, [], []);
      assert left + [] == left && served + [] == served;
      SendKeeps(total, ws);
      ok := true;
    }

    /** `rt_event_recv`, up to the call of the scheduler. */
    method Recv(w: Waiter, wait: bool) returns (out: Outcome)
      requires Valid()
      modifies this
      ensures Valid()
      ensures Abs() == Do(old(Abs()), RecvCall(w, wait))
      ensures bits == if out.Received? && w.clear then old(bits) - w.want else old(bits)
      ensures out.Received? ==> out.bits == old(bits) * w.want && waiters == old(waiters)
      ensures out == if w.want == {} then Error
                     else if Satisfied(old(bits), w) then Received(Receive(old(bits), w).0.bits)
                     else if wait then Waiting else Timeout
    {
      if w.want == {} {
        return Error;
      }
      var ready := if w.all then bits * w.want == w.want else bits * w.want != {};
      if ready {
        out := Received(bits * w.want);
        if w.clear {
          FewerNone(bits - w.want, bits, waiters);
          bits := bits - w.want;
        }
      } else if !wait {
        out := Timeout;
      } else {
        QueuedNone(bits, waiters, Rank(prio), w);
        waiters := ListSuspend(flag, Rank(prio), waiters, w);
        out := Waiting;
      }
    }

    /** A waiter leaves the list: its timer ran out. */
    method Leave(w: Waiter)
      requires Valid()
      modifies this`waiters
      ensures Valid() && Abs() == Do(old(Abs()), LeaveCall(w))
    {
      RemoveNone(bits, waiters, w);
      waiters := Remove(waiters, w);
    }

    /** `rt_event_control` with RT_IPC_CMD_RESET. */
    method Reset()
      modifies this
      ensures Valid() && Abs() == Do(old(Abs()), ResetCall)
    {
      bits, waiters := {}, [];
    }
  }

  /** What has been decided so far, in front of what the rest of the list gives. */
  ghost function Prefixed(left: seq<Waiter>, served: seq<Receipt>, r: (Bits, seq<Waiter>, seq<Receipt>))
    : (Bits, seq<Waiter>, seq<Receipt>)
  {
    (r.0, left + r.1, served + r.2)
  }

  /** One round of the send loop. For an OR waiter, clearing the received bits clears as much as
      clearing the requested ones. */
  lemma ServeOne(s: Bits, w: Waiter, rest: seq<Waiter>, left: seq<Waiter>, served: seq<Receipt>)
    ensures var eventSet := if w.all then w.want else w.want * s;
            var s1 := if w.clear then s - eventSet else s;
            Prefixed(left, served, ServeAll(s, [w] + rest)) ==
            if Satisfied(s, w) then Prefixed(left, served + [Receipt(w.t, eventSet)], ServeAll(s1, rest))
            else Prefixed(left + [w], served, ServeAll(s, rest))
  {
    assert ([w] + rest)[1..] == rest;
    assert s - w.want * s == s - w.want;
    assert w.want * s == s * w.want;
    if Satisfied(s, w) {
      var r := ServeAll(Receive(s, w).1, rest);
      assert served + ([Receive(s, w).0] + r.2) == served + [Receive(s, w).0] + r.2;
    } else {
      var r := ServeAll(s, rest);
      assert left + ([w] + r.1) == left + [w] + r.1;
    }
  }

  lemma QueuedNone(s: Bits, ws: seq<Waiter>, key: Waiter -> nat, w: Waiter)
    requires Inv(s, ws) && !Satisfied(s, w) && w.want != {}
    ensures Inv(s, ws + [w]) && Inv(s, InsertOrdered(key, ws, w))
  {
    var k, r := FindPos(key, ws, key(w)), InsertOrdered(key, ws, w);
    forall i | 0 <= i < |r| ensures !Satisfied(s, r[i]) && r[i].want != {} {
      assert r[i] == if i < k then ws[i] else if i == k then w else ws[i - 1];
      assert i < k ==> ws[i] in ws;
      assert i > k ==> ws[i - 1] in ws;
    }
  }

  lemma {:induction false} RemoveNone(s: Bits, ws: seq<Waiter>, w: Waiter)
    requires Inv(s, ws)
    ensures Inv(s, Remove(ws, w))
  {
    if ws != [] {
      assert Inv(s, ws[1..]) by {
        assert forall i :: 0 <= i < |ws| - 1 ==> ws[1..][i] == ws[i + 1];
      }
      RemoveNone(s, ws[1..], w);
    }
  }
}
