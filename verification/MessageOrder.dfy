/** Who is resumed: over every run, the waiting lists of a message queue are in order of priority or
    of arrival, and a send or receive resumes the thread whose turn it is. */
module MessageOrder {

  import opened KernelTypes
  import opened OrderedList
  import opened WaitingOrder
  import opened MessageState
  import opened MessageProtocol
  import opened MessageSafety

  /** A state with the step at which each thread last joined a waiting list, and the steps so far. */
  datatype Timed = Timed(sys: Sys, joined: map<Tid, nat>, clock: nat)

  ghost function Arrived(x: Timed): (arrived: Tid -> nat) {
    t => if t in x.joined then x.joined[t] else 0
  }

  /** The thread that a step makes wait, if any. */
  ghost predicate Joins(s: Sys, a: Act, t: Tid)
    requires Enabled(s, a)
  {
    match a
    case Send(u, msg, wait) => u == t && wait && |msg| <= s.mq.msgSize && s.mq.free == []
    case RerunSend(u, expired) => u == t && !expired && s.mq.free == []
    case Recv(u, _, wait) => u == t && wait && s.mq.queue == []
    case RerunRecv(u, expired) => u == t && !expired && s.mq.queue == []
    case _ => false
  }

  ghost function Tick(x: Timed, a: Act): (r: Timed)
    requires Enabled(x.sys, a)
  {
    var joined := map t | t in x.sys.pc && (Joins(x.sys, a, t) || t in x.joined) ::
                    if Joins(x.sys, a, t) then x.clock else x.joined[t];
    Timed(Step(x.sys, a), joined, x.clock + 1)
  }

  /** A waiting list is in order, and everybody in it joined it in the past. */
  ghost predicate ListOrdered(x: Timed, ws: seq<Tid>) {
    && (forall t :: t in ws ==> t in x.sys.pc && t in x.joined && x.joined[t] < x.clock)
    && InOrder(x.sys.mq.flag, x.sys.mq.prio, Arrived(x), ws)
  }

  ghost predicate Ordered(x: Timed) {
    ListOrdered(x, x.sys.mq.receivers) && ListOrdered(x, x.sys.mq.senders)
  }

  // ---------------------------------------------------------------- one list, one step

  /** A list that only lost members. */
  lemma ListKept(x: Timed, a: Act, ws: seq<Tid>, vs: seq<Tid>)
    requires ListOrdered(x, ws) && Enabled(x.sys, a) && (forall t :: t in vs ==> t in ws && !Joins(x.sys, a, t))
    requires InOrder(x.sys.mq.flag, x.sys.mq.prio, Arrived(x), vs)
    requires Step(x.sys, a).mq.flag == x.sys.mq.flag && Step(x.sys, a).mq.prio == x.sys.mq.prio
    requires Step(x.sys, a).pc.Keys == x.sys.pc.Keys
    ensures ListOrdered(Tick(x, a), vs)
  {
    hide Step, InOrder;
    forall i | 0 <= i < |vs| ensures Arrived(Tick(x, a))(vs[i]) == Arrived(x)(vs[i]) {
      assert vs[i] in vs;
    }
    SameArrivals(x.sys.mq.flag, x.sys.mq.prio, Arrived(x), Arrived(Tick(x, a)), vs);
  }

  /** A list that the acting thread joins. */
  lemma ListJoined(x: Timed, a: Act, ws: seq<Tid>, t: Tid)
    requires ListOrdered(x, ws) && Enabled(x.sys, a) && Joins(x.sys, a, t) && t in x.sys.pc && t !in ws
    requires Step(x.sys, a).mq.flag == x.sys.mq.flag && Step(x.sys, a).mq.prio == x.sys.mq.prio
    requires Step(x.sys, a).pc.Keys == x.sys.pc.Keys
    ensures ListOrdered(Tick(x, a), Enqueue(x.sys.mq, ws, t))
  {
    hide Step, InOrder, Suspend;
    var r, q := Tick(x, a), x.sys.mq;
    forall i | 0 <= i < |ws| ensures Arrived(r)(ws[i]) == Arrived(x)(ws[i]) < Arrived(r)(t) {
      assert ws[i] in ws && !Joins(x.sys, a, ws[i]);
    }
    SameArrivals(q.flag, q.prio, Arrived(x), Arrived(r), ws);
    SuspendKeeps(q.flag, q.prio, Arrived(r), ws, t);
    SuspendMembers(q, ws, t);
  }

  lemma SuspendMembers(q: Mq, ws: seq<Tid>, t: Tid)
    ensures forall u :: u in Enqueue(q, ws, t) ==> u in ws || u == t
  {
  }

  /** The lists after a step: joined by the acting thread, without their first, or as they were. */
  lemma StepLists(s: Sys, a: Act)
    requires WaitersOk(s.mq, s.pc) && Enabled(s, a)
    ensures var r := Step(s, a);
            && r.mq.flag == s.mq.flag && r.mq.prio == s.mq.prio && r.pc.Keys == s.pc.Keys
            && (forall t :: Joins(s, a, t) ==> t in s.pc && t !in s.mq.receivers && t !in s.mq.senders)
    ensures var r, v := Step(s, a).mq, s.mq;
            match a
            case Send(t, _, _) => r.receivers == v.receivers && r.senders == if Joins(s, a, t) then Enqueue(v, v.senders, t) else v.senders
            case RerunSend(t, _) => r.receivers == v.receivers && r.senders == if Joins(s, a, t) then Enqueue(v, v.senders, t) else v.senders
            case Recv(t, _, _) => r.senders == v.senders && r.receivers == if Joins(s, a, t) then Enqueue(v, v.receivers, t) else v.receivers
            case RerunRecv(t, _) => r.senders == v.senders && r.receivers == if Joins(s, a, t) then Enqueue(v, v.receivers, t) else v.receivers
            case TimeoutSend(t) => r.receivers == v.receivers && r.senders == Remove(v.senders, t)
            case TimeoutRecv(t) => r.senders == v.senders && r.receivers == Remove(v.receivers, t)
            case Link(_) => r.senders == v.senders && r.receivers == Tail(v.receivers)
            case PutBack(_) => r.receivers == v.receivers && r.senders == Tail(v.senders)
            case Reset => r.receivers == [] && r.senders == []
            case _ => r.receivers == v.receivers && r.senders == v.senders
  {
    hide Suspend;
  }

  lemma TailKept(x: Timed, ws: seq<Tid>)
    requires ListOrdered(x, ws)
    ensures InOrder(x.sys.mq.flag, x.sys.mq.prio, Arrived(x), Tail(ws)) && forall t :: t in Tail(ws) ==> t in ws
  {
    if ws != [] {
      RestKeeps(x.sys.mq.flag, x.sys.mq.prio, Arrived(x), ws);
      assert ws == [ws[0]] + ws[1..];
    }
  }

  // ---------------------------------------------------------------- runs

  lemma OrderedStep(x: Timed, a: Act)
    requires WaitersOk(x.sys.mq, x.sys.pc) && Ordered(x) && Enabled(x.sys, a)
    ensures Ordered(Tick(x, a))
  {
    var s := x.sys;
    var v, r := s.mq, Step(s, a).mq;
    StepLists(s, a);
    hide Step, InOrder, Suspend, WaitersOk, Arrived;
    match a
    case Send(t, _, _) => OneJoins(x, a, t, v.senders, v.receivers);
    case RerunSend(t, _) => OneJoins(x, a, t, v.senders, v.receivers);
    case Recv(t, _, _) => OneJoins(x, a, t, v.receivers, v.senders);
    case RerunRecv(t, _) => OneJoins(x, a, t, v.receivers, v.senders);
    case TimeoutSend(t) =>
      LeaveKeeps(v.flag, v.prio, Arrived(x), v.senders, t);
      NobodyJoins(x, a, r.receivers, r.senders);
    case TimeoutRecv(t) =>
      LeaveKeeps(v.flag, v.prio, Arrived(x), v.receivers, t);
      NobodyJoins(x, a, r.receivers, r.senders);
    case Link(_) =>
      TailKept(x, v.receivers);
      NobodyJoins(x, a, r.receivers, r.senders);
    case PutBack(_) =>
      TailKept(x, v.senders);
      NobodyJoins(x, a, r.receivers, r.senders);
    case Reset =>
      NoneInOrder(x);
      NobodyJoins(x, a, [], []);
    case _ => NobodyJoins(x, a, r.receivers, r.senders);
  }

  lemma NoneInOrder(x: Timed)
    ensures InOrder(x.sys.mq.flag, x.sys.mq.prio, Arrived(x), [])
  {
  }

  lemma NobodyJoins(x: Timed, a: Act, rs: seq<Tid>, ss: seq<Tid>)
    requires Ordered(x) && Enabled(x.sys, a) && forall t :: !Joins(x.sys, a, t)
    requires Step(x.sys, a).mq.flag == x.sys.mq.flag && Step(x.sys, a).mq.prio == x.sys.mq.prio
    requires Step(x.sys, a).pc.Keys == x.sys.pc.Keys
    requires forall t :: t in rs ==> t in x.sys.mq.receivers
    requires forall t :: t in ss ==> t in x.sys.mq.senders
    requires InOrder(x.sys.mq.flag, x.sys.mq.prio, Arrived(x), rs) && InOrder(x.sys.mq.flag, x.sys.mq.prio, Arrived(x), ss)
    ensures ListOrdered(Tick(x, a), rs) && ListOrdered(Tick(x, a), ss)
  {
    hide Step, InOrder;
    ListKept(x, a, x.sys.mq.receivers, rs);
    ListKept(x, a, x.sys.mq.senders, ss);
  }

  /** `t` may join the list `ws`; the list `vs` stays. */
  lemma OneJoins(x: Timed, a: Act, t: Tid, ws: seq<Tid>, vs: seq<Tid>)
    requires ListOrdered(x, ws) && ListOrdered(x, vs) && Enabled(x.sys, a) && t in x.sys.pc
    requires forall u :: Joins(x.sys, a, u) ==> u == t && u !in ws && u !in vs
    requires Step(x.sys, a).mq.flag == x.sys.mq.flag && Step(x.sys, a).mq.prio == x.sys.mq.prio
    requires Step(x.sys, a).pc.Keys == x.sys.pc.Keys
    ensures ListOrdered(Tick(x, a), if Joins(x.sys, a, t) then Enqueue(x.sys.mq, ws, t) else ws)
    ensures ListOrdered(Tick(x, a), vs)
  {
    hide Step, InOrder, Suspend;
    ListKept(x, a, vs, vs);
    if Joins(x.sys, a, t) {
      ListJoined(x, a, ws, t);
    } else {
      ListKept(x, a, ws, ws);
    }
  }

  ghost function TickAll(x: Timed, acts: seq<Act>): (r: Timed)
    requires Runs(x.sys, acts)
    decreases |acts|
  {
    if acts == [] then x else TickAll(Tick(x, acts[0]), acts[1..])
  }

  /** Over every run both waiting lists are in order. */
  lemma {:induction false} OrderedRun(x: Timed, acts: seq<Act>)
    requires Inv(x.sys) && Ordered(x) && Runs(x.sys, acts)
    ensures TickAll(x, acts).sys == After(x.sys, acts) && Inv(After(x.sys, acts)) && Ordered(TickAll(x, acts))
    decreases |acts|
  {
    hide Step, Enabled, Ordered;
    if acts != [] {
      InvStep(x.sys, acts[0]);
      WaitersPart(x.sys);
      OrderedStep(x, acts[0]);
      OrderedRun(Tick(x, acts[0]), acts[1..]);
    }
  }

  lemma WaitersPart(s: Sys)
    requires Inv(s)
    ensures WaitersOk(s.mq, s.pc)
  {
  }

  lemma InitialOrdered(s: Sys)
    requires Initial(s)
    ensures Inv(s) && Ordered(Timed(s, map[], 0))
  {
    InitialInv(s);
  }

  /** `w` is resumed from the list `ws`: it was first in turn of all, and leaves the others. */
  ghost predicate Resumes(x: Timed, ws: seq<Tid>, w: Tid, r: Sys, vs: seq<Tid>) {
    && w in ws && w !in vs && (forall u :: u in ws && u != w ==> u in vs)
    && (forall u :: u in ws && u != w ==> First(x.sys.mq.flag, x.sys.mq.prio, Arrived(x), w, u))
    && w in r.pc && (r.pc[w].WokenRecv? || r.pc[w].WokenSend?)
  }

  /** A completed send resumes the receiver whose turn it is: the most urgent one of a priority
      queue, and among equals, or in a FIFO queue, the one that has waited longest. */
  lemma LinkResumesFirst(x: Timed, t: Tid)
    requires WaitersOk(x.sys.mq, x.sys.pc) && Ordered(x) && Enabled(x.sys, Link(t)) && x.sys.mq.receivers != []
    ensures var ws, r := x.sys.mq.receivers, Step(x.sys, Link(t)); Resumes(x, ws, ws[0], r, r.mq.receivers)
  {
    hide Arrived, First;
    HeadFirst(x, x.sys.mq.receivers);
  }

  /** A completed receive resumes the sender whose turn it is. */
  lemma PutBackResumesFirst(x: Timed, t: Tid)
    requires WaitersOk(x.sys.mq, x.sys.pc) && Ordered(x) && Enabled(x.sys, PutBack(t)) && x.sys.mq.senders != []
    ensures var ws, r := x.sys.mq.senders, Step(x.sys, PutBack(t)); Resumes(x, ws, ws[0], r, r.mq.senders)
  {
    hide Arrived, First;
    HeadFirst(x, x.sys.mq.senders);
  }

  lemma HeadFirst(x: Timed, ws: seq<Tid>)
    requires ListOrdered(x, ws) && ws != [] && NoDup(ws)
    ensures forall u :: u in ws && u != ws[0] ==> u in ws[1..] && First(x.sys.mq.flag, x.sys.mq.prio, Arrived(x), ws[0], u)
    ensures ws[0] !in ws[1..]
  {
    forall u | u in ws && u != ws[0]
      ensures u in ws[1..] && First(x.sys.mq.flag, x.sys.mq.prio, Arrived(x), ws[0], u)
    {
      var i :| 0 <= i < |ws| && ws[i] == u;
      assert ws[1..][i - 1] == u;
    }
  }
}
