/** Every run of the message queue is a run of a bounded double-ended queue whose operations are
    atomic: a send takes effect when it links its node, a receive when it unlinks one. */
module MessageRefinement {

  import opened KernelTypes
  import opened OrderedList
  import opened MessageState
  import opened MessageProtocol
  import opened MessageSafety

  /** What a thread asked for and still waits to begin. */
  datatype Call = Posting(msg: seq<Byte>) | Fetching(size: nat)

  /** A message a thread has a place for, and a message on its way out to a thread. */
  datatype Post = Post(msg: seq<Byte>, front: bool)
  datatype Grab = Grab(size: nat, slot: seq<Byte>)

  /** The simple object: messages in order, calls that found it full or empty and wait, places taken
      for messages to come, and messages popped but not yet handed out. */
  datatype Deque = Deque(items: seq<seq<Byte>>, waiting: map<Tid, Call>,
                         reserved: map<Tid, Post>, inHand: map<Tid, Grab>)

  /** What an outside observer sees of one step. The arguments of a call appear when it is made and
      never again: what happens later must follow from what the simple object has kept of them. */
  datatype Event =
    | TooLong(t: Tid, msg: seq<Byte>)
    | Reserved(t: Tid, msg: seq<Byte>, front: bool)
    | SendWaits(t: Tid, msg: seq<Byte>)
    | Refused(t: Tid, msg: seq<Byte>)
    | ReservedLate(t: Tid)
    | StillFull(t: Tid, expired: bool)
    | Enqueued(t: Tid, slot: seq<Byte>)
    | Dequeued(t: Tid, size: nat)
    | RecvWaits(t: Tid, size: nat)
    | NothingThere(t: Tid)
    | DequeuedLate(t: Tid)
    | StillEmpty(t: Tid, expired: bool)
    | Expired(t: Tid)
    | Delivered(t: Tid, buf: seq<Byte>)
    | Cleared(failed: set<Tid>)
    | Silent

  // ---------------------------------------------------------------- the simple object's view

  ghost predicate InWait(p: Pc) {
    p.WaitSend? || p.WokenSend? || p.WaitRecv? || p.WokenRecv?
  }

  ghost function CallOf(p: Pc): (c: Call)
    requires InWait(p)
  {
    if p.WaitSend? || p.WokenSend? then Posting(p.msg) else Fetching(p.size)
  }

  ghost function Waiting(pc: map<Tid, Pc>): (calls: map<Tid, Call>) {
    map t | t in pc && InWait(pc[t]) :: CallOf(pc[t])
  }

  /** The senders that hold a node. */
  ghost function Preparing(pc: map<Tid, Pc>): (posts: map<Tid, Post>) {
    map t | t in pc && pc[t].CopyIn? :: Post(pc[t].msg, pc[t].front)
  }

  /** The popped slots that receivers are copying. */
  ghost function Hands(pc: map<Tid, Pc>): (grabs: map<Tid, Grab>) {
    map t | t in pc && pc[t].CopyOut? :: Grab(pc[t].size, pc[t].slot)
  }

  ghost function View(s: Sys): (d: Deque) {
    Deque(Contents(s.mq), Waiting(s.pc), Preparing(s.pc), Hands(s.pc))
  }

  ghost function Observed(s: Sys, a: Act): (ev: Event)
    requires Inv(s) && Enabled(s, a)
  {
    match a
    case Send(t, msg, wait) =>
      if |msg| > s.mq.msgSize then TooLong(t, msg)
      else if s.mq.free != [] then Reserved(t, msg, false)
      else if wait then SendWaits(t, msg) else Refused(t, msg)
    case Urgent(t, msg) =>
      if |msg| > s.mq.msgSize then TooLong(t, msg)
      else if s.mq.free != [] then Reserved(t, msg, true) else Refused(t, msg)
    case RerunSend(t, expired) => if s.mq.free != [] then ReservedLate(t) else StillFull(t, expired)
    case Link(t) =>
      assert PcOk(s.mq, s.pc[t]);
      Enqueued(t, s.mq.data[s.pc[t].node])
    case Recv(t, size, wait) =>
      if s.mq.queue != [] then Dequeued(t, size) else if wait then RecvWaits(t, size) else NothingThere(t)
    case RerunRecv(t, expired) => if s.mq.queue != [] then DequeuedLate(t) else StillEmpty(t, expired)
    case TimeoutSend(t) => Expired(t)
    case TimeoutRecv(t) => Expired(t)
    case PutBack(t) => Delivered(t, s.pc[t].buf)
    case Reset => Cleared(set t | t in s.pc && (s.pc[t].WaitSend? || s.pc[t].WaitRecv?))
    case CopyInByte(_) => Silent
    case CopyOutByte(_) => Silent
  }

  // ---------------------------------------------------------------- the steps of the simple object

  /** Messages, places for messages to come, and messages on their way out. */
  ghost function Load(d: Deque): (n: nat) {
    |d.items| + |d.reserved| + |d.inHand|
  }

  /** No call of `t` is under way. */
  ghost predicate AtRest(d: Deque, t: Tid) {
    t !in d.waiting && t !in d.reserved && t !in d.inHand
  }

  /** The first message passes to `t`, who asked for `size` bytes. */
  ghost predicate Pops(d: Deque, t: Tid, size: nat, r: Deque) {
    && d.items != []
    && r == d.(items := d.items[1..], waiting := d.waiting - {t}, inHand := d.inHand[t := Grab(size, d.items[0])])
  }

  /** The steps of the simple object, for at most `max` messages of `width` bytes. A send finds it
      full exactly when all places are taken, a receive empty exactly when it holds no message. */
  ghost predicate DequeStep(d: Deque, ev: Event, r: Deque, max: nat, width: nat) {
    match ev
    case TooLong(t, msg) => AtRest(d, t) && |msg| > width && r == d
    case Reserved(t, msg, front) =>
      AtRest(d, t) && |msg| <= width && Load(d) < max && r == d.(reserved := d.reserved[t := Post(msg, front)])
    case SendWaits(t, msg) =>
      AtRest(d, t) && |msg| <= width && Load(d) == max && r == d.(waiting := d.waiting[t := Posting(msg)])
    case Refused(t, msg) => AtRest(d, t) && |msg| <= width && Load(d) == max && r == d
    case ReservedLate(t) =>
      && t in d.waiting && d.waiting[t].Posting? && Load(d) < max
      && r == d.(waiting := d.waiting - {t}, reserved := d.reserved[t := Post(d.waiting[t].msg, false)])
    case StillFull(t, expired) =>
      && t in d.waiting && d.waiting[t].Posting? && Load(d) == max
      && r == if expired then d.(waiting := d.waiting - {t}) else d
    case Enqueued(t, slot) =>
      && t in d.reserved && |d.items| < max && |slot| == width && d.reserved[t].msg <= slot
      && r == d.(items := if d.reserved[t].front then [slot] + d.items else d.items + [slot],
                 reserved := d.reserved - {t})
    case Dequeued(t, size) => AtRest(d, t) && Pops(d, t, size, r)
    case RecvWaits(t, size) => AtRest(d, t) && d.items == [] && r == d.(waiting := d.waiting[t := Fetching(size)])
    case NothingThere(t) => AtRest(d, t) && d.items == [] && r == d
    case DequeuedLate(t) => t in d.waiting && d.waiting[t].Fetching? && Pops(d, t, d.waiting[t].size, r)
    case StillEmpty(t, expired) =>
      && t in d.waiting && d.waiting[t].Fetching? && d.items == []
      && r == if expired then d.(waiting := d.waiting - {t}) else d
    case Expired(t) => t in d.waiting && r == d.(waiting := d.waiting - {t})
    case Delivered(t, buf) =>
      && t in d.inHand && |d.inHand[t].slot| == width
      && buf == d.inHand[t].slot[..if d.inHand[t].size > width then width else d.inHand[t].size]
      && r == d.(inHand := d.inHand - {t})
    case Cleared(failed) => failed <= d.waiting.Keys && r == d.(items := [], waiting := d.waiting - failed)
    case Silent => r == d
  }

  // ---------------------------------------------------------------- one step

  /** Slots of queued nodes are never written. */
  lemma SlotsKept(q: Mq, q2: Mq)
    requires q2.queue == q.queue && |q2.data| == |q.data|
    requires forall n :: n in q.queue && n < |q.data| ==> q2.data[n] == q.data[n]
    ensures Contents(q2) == Contents(q)
  {
  }

  /** How the view changes with the program counter of one thread. */
  lemma ViewKept(pc: map<Tid, Pc>, t: Tid, p: Pc)
    requires t in pc
    ensures Waiting(pc[t := p]) == if InWait(p) then Waiting(pc)[t := CallOf(p)] else Waiting(pc) - {t}
    ensures Preparing(pc[t := p]) == if p.CopyIn? then Preparing(pc)[t := Post(p.msg, p.front)] else Preparing(pc) - {t}
    ensures Hands(pc[t := p]) == if p.CopyOut? then Hands(pc)[t := Grab(p.size, p.slot)] else Hands(pc) - {t}
  {
  }

  lemma ViewWake(pc: map<Tid, Pc>, ws: seq<Tid>)
    ensures Waiting(Wake(pc, ws)) == Waiting(pc)
    ensures Preparing(Wake(pc, ws)) == Preparing(pc) && Hands(Wake(pc, ws)) == Hands(pc)
  {
  }

  /** A thread shows in the part of the view that its program counter says, and in no other. */
  lemma ViewAt(pc: map<Tid, Pc>, t: Tid)
    requires t in pc
    ensures if InWait(pc[t]) then t in Waiting(pc) && Waiting(pc)[t] == CallOf(pc[t]) else Waiting(pc) - {t} == Waiting(pc)
    ensures if pc[t].CopyIn? then t in Preparing(pc) && Preparing(pc)[t] == Post(pc[t].msg, pc[t].front)
            else Preparing(pc) - {t} == Preparing(pc)
    ensures if pc[t].CopyOut? then t in Hands(pc) && Hands(pc)[t] == Grab(pc[t].size, pc[t].slot)
            else Hands(pc) - {t} == Hands(pc)
    ensures t in Waiting(pc) <==> InWait(pc[t])
    ensures t in Preparing(pc) <==> pc[t].CopyIn?
    ensures t in Hands(pc) <==> pc[t].CopyOut?
  {
  }

  lemma RefineCopyIn(s: Sys, t: Tid)
    requires Inv(s) && Enabled(s, CopyInByte(t))
    ensures View(Step(s, CopyInByte(t))) == View(s)
  {
    hide Waiting, Preparing, Hands, Contents;
    var r, c := Step(s, CopyInByte(t)), s.pc[t];
    assert HeldApart(s.mq, c) && c.node in Held(c);
    SlotsKept(s.mq, r.mq);
    ViewKept(s.pc, t, c.(done := c.done + 1));
    ViewAt(s.pc, t);
  }

  lemma RefineCopyOut(s: Sys, t: Tid)
    requires Inv(s) && Enabled(s, CopyOutByte(t))
    ensures View(Step(s, CopyOutByte(t))) == View(s)
  {
    hide Inv, Waiting, Preparing, Hands, Contents;
    ViewKept(s.pc, t, Step(s, CopyOutByte(t)).pc[t]);
    ViewAt(s.pc, t);
  }

  lemma RefineLink(s: Sys, t: Tid)
    requires Inv(s) && Enabled(s, Link(t))
    ensures DequeStep(View(s), Observed(s, Link(t)), View(Step(s, Link(t))), s.mq.maxMsgs, s.mq.msgSize)
  {
    hide Inv, Wake, Waiting, Preparing, Hands;
    LinkNeverFull(s, t);
    LinkSlot(s, t);
    ViewKept(s.pc, t, Idle);
    ViewWake(s.pc[t := Idle], s.mq.receivers);
    ViewAt(s.pc, t);
  }

  /** What a sender links starts with its message. */
  lemma LinkSlot(s: Sys, t: Tid)
    requires Inv(s) && Enabled(s, Link(t))
    ensures var c := s.pc[t];
            && c.node < |s.mq.data| && |s.mq.data[c.node]| == s.mq.msgSize && c.msg <= s.mq.data[c.node]
            && PcOk(s.mq, c)
  {
    var c := s.pc[t];
    assert PcOk(s.mq, c);
    assert c.msg == c.msg[..c.done] == s.mq.data[c.node][..c.done];
  }

  // ---------------------------------------------------------------- counting places

  /** The nodes in the hands of the threads `ts`. */
  ghost function NodesOf(pc: map<Tid, Pc>, ts: set<Tid>): (ns: set<nat>) {
    set t, n | t in ts && t in pc && n in Held(pc[t]) :: n
  }

  /** Threads that hold a node hold one each, all different. */
  lemma {:induction false} OneEach(pc: map<Tid, Pc>, ts: set<Tid>)
    requires forall t :: t in ts ==> t in pc && (pc[t].CopyIn? || pc[t].CopyOut?)
    requires forall t, u :: t in pc && u in pc && t != u ==> Held(pc[t]) !! Held(pc[u])
    ensures |NodesOf(pc, ts)| == |ts|
    decreases ts
  {
    if ts == {} {
      assert NodesOf(pc, ts) == {};
    } else {
      var t :| t in ts;
      var rest := ts - {t};
      OneEach(pc, rest);
      assert Held(pc[t]) == {pc[t].node};
      assert pc[t].node !in NodesOf(pc, rest);
      assert NodesOf(pc, ts) == NodesOf(pc, rest) + {pc[t].node};
    }
  }

  ghost function Elements(ns: seq<nat>): (s: set<nat>) {
    set n | n in ns
  }

  lemma {:induction false} DistinctCount(ns: seq<nat>)
    requires NoDup(ns)
    ensures |Elements(ns)| == |ns|
  {
    if ns == [] {
      assert Elements(ns) == {};
    } else {
      DistinctCount(ns[1..]);
      assert ns[0] !in ns[1..] && ns == [ns[0]] + ns[1..];
      assert Elements(ns) == Elements(ns[1..]) + {ns[0]};
    }
  }

  ghost function Below(k: nat): (s: set<nat>)
    ensures |s| == k && forall n: nat :: n in s <==> n < k
  {
    if k == 0 then {} else Below(k - 1) + {k - 1}
  }

  /** All pool nodes are accounted for: free ones and those the simple object counts. */
  lemma PoolCount(s: Sys)
    requires Inv(s)
    ensures |s.mq.free| + Load(View(s)) == s.mq.maxMsgs
  {
    hide Inv, NodesOf, Somewhere, HeldApart, NoDup, Contents, Waiting;
    var q, pc := s.mq, s.pc;
    var ts := Preparing(pc).Keys + Hands(pc).Keys;
    PoolFacts(s);
    OneEach(pc, ts);
    DistinctCount(q.free);
    DistinctCount(q.queue);
    PoolParts(s, ts);
    assert Elements(q.free) !! Elements(q.queue);
    assert Elements(q.free) + Elements(q.queue) !! NodesOf(pc, ts);
    assert Preparing(pc).Keys !! Hands(pc).Keys;
    assert |Contents(q)| == |q.queue| by { ContentsLength(q); }
  }

  lemma PoolFacts(s: Sys)
    requires Inv(s)
    ensures PoolOk(s.mq, s.pc)
  {
  }

  lemma ContentsLength(q: Mq)
    ensures |Contents(q)| == |q.queue|
  {
  }

  lemma PoolParts(s: Sys, ts: set<Tid>)
    requires Inv(s) && ts == Preparing(s.pc).Keys + Hands(s.pc).Keys
    ensures Elements(s.mq.free) + Elements(s.mq.queue) + NodesOf(s.pc, ts) == Below(s.mq.maxMsgs)
    ensures forall n :: n in NodesOf(s.pc, ts) ==> n !in s.mq.free && n !in s.mq.queue
  {
    var q, pc := s.mq, s.pc;
    forall n | n in NodesOf(pc, ts) ensures n < q.maxMsgs && n !in q.free && n !in q.queue {
      var t :| t in ts && t in pc && n in Held(pc[t]);
      assert HeldApart(q, pc[t]);
    }
    forall n: nat | n < q.maxMsgs && n !in q.free && n !in q.queue ensures n in NodesOf(pc, ts) {
      assert Somewhere(pc, n);
      var t :| t in pc && n in Held(pc[t]);
      assert t in ts;
    }
  }

  // ---------------------------------------------------------------- calls and their outcome

  lemma RefineSend(s: Sys, t: Tid, msg: seq<Byte>, wait: bool)
    requires Inv(s) && Enabled(s, Send(t, msg, wait))
    ensures var a := Send(t, msg, wait);
            DequeStep(View(s), Observed(s, a), View(Step(s, a)), s.mq.maxMsgs, s.mq.msgSize)
  {
    hide Inv, Load, Slots, Hands, Preparing, Waiting, Enqueue;
    PoolCount(s);
    ViewKept(s.pc, t, Step(s, Send(t, msg, wait)).pc[t]);
    ViewAt(s.pc, t);
  }

  lemma RefineUrgent(s: Sys, t: Tid, msg: seq<Byte>)
    requires Inv(s) && Enabled(s, Urgent(t, msg))
    ensures var a := Urgent(t, msg);
            DequeStep(View(s), Observed(s, a), View(Step(s, a)), s.mq.maxMsgs, s.mq.msgSize)
  {
    hide Inv, Load, Slots, Hands, Preparing, Waiting;
    PoolCount(s);
    ViewKept(s.pc, t, Step(s, Urgent(t, msg)).pc[t]);
    ViewAt(s.pc, t);
  }

  lemma RefineRerunSend(s: Sys, t: Tid, expired: bool)
    requires Inv(s) && Enabled(s, RerunSend(t, expired))
    ensures var a := RerunSend(t, expired);
            DequeStep(View(s), Observed(s, a), View(Step(s, a)), s.mq.maxMsgs, s.mq.msgSize)
  {
    hide Inv, Load, Slots, Hands, Preparing, Waiting, Enqueue;
    PoolCount(s);
    ViewKept(s.pc, t, Step(s, RerunSend(t, expired)).pc[t]);
    ViewAt(s.pc, t);
  }

  /** The contents lose their first message with the first node. */
  lemma PoppedContents(q: Mq)
    requires q.queue != []
    ensures Contents(q) != [] && Contents(Pop(q)) == Contents(q)[1..]
    ensures q.queue[0] < |q.data| ==> Contents(q)[0] == q.data[q.queue[0]]
  {
  }

  lemma QueuedNode(s: Sys)
    requires Inv(s) && s.mq.queue != []
    ensures s.mq.queue[0] < |s.mq.data|
  {
    assert s.mq.queue[0] in s.mq.queue;
  }

  /** What one attempt to receive does to the view. */
  lemma FetchView(s: Sys, t: Tid, size: nat, wait: bool)
    requires Inv(s) && t in s.pc && (s.pc[t].Idle? || s.pc[t].WokenRecv?)
    ensures var d, r := View(s), View(TryRecv(s, t, size, wait));
            && (d.items == [] <==> s.mq.queue == [])
            && if d.items != [] then Pops(d, t, size, r)
               else r == d.(waiting := if wait then d.waiting[t := Fetching(size)] else d.waiting - {t})
  {
    hide Inv, Hands, Preparing, Waiting, Enqueue, Slots;
    ViewKept(s.pc, t, TryRecv(s, t, size, wait).pc[t]);
    ViewAt(s.pc, t);
    ContentsLength(s.mq);
    if s.mq.queue != [] {
      QueuedNode(s);
      PoppedContents(s.mq);
    }
  }

  lemma RefineRecv(s: Sys, t: Tid, size: nat, wait: bool)
    requires Inv(s) && Enabled(s, Recv(t, size, wait))
    ensures var a := Recv(t, size, wait);
            DequeStep(View(s), Observed(s, a), View(Step(s, a)), s.mq.maxMsgs, s.mq.msgSize)
  {
    hide Inv, Hands, Preparing, Waiting, Contents, TryRecv, Pops;
    FetchView(s, t, size, wait);
    ViewAt(s.pc, t);
  }

  lemma RefineRerunRecv(s: Sys, t: Tid, expired: bool)
    requires Inv(s) && Enabled(s, RerunRecv(t, expired))
    ensures var a := RerunRecv(t, expired);
            DequeStep(View(s), Observed(s, a), View(Step(s, a)), s.mq.maxMsgs, s.mq.msgSize)
  {
    hide Inv, Hands, Preparing, Waiting, Contents, TryRecv, Pops;
    FetchView(s, t, s.pc[t].size, !expired);
    ViewAt(s.pc, t);
    var d := View(s);
    assert d.waiting[t := d.waiting[t]] == d.waiting;
  }

  /** A timeout while waiting. */
  lemma RefineTimeout(s: Sys, t: Tid, q: Mq)
    requires t in s.pc && InWait(s.pc[t]) && q.data == s.mq.data && q.queue == s.mq.queue
    ensures t in View(s).waiting
    ensures View(Sys(q, s.pc[t := Idle])) == View(s).(waiting := View(s).waiting - {t})
  {
    hide Slots, Hands, Preparing, Waiting;
    ViewKept(s.pc, t, Idle);
    ViewAt(s.pc, t);
  }

  lemma RefinePutBack(s: Sys, t: Tid)
    requires Inv(s) && Enabled(s, PutBack(t))
    ensures DequeStep(View(s), Observed(s, PutBack(t)), View(Step(s, PutBack(t))), s.mq.maxMsgs, s.mq.msgSize)
  {
    hide Wake, Waiting, Preparing, Hands, PoolOk, WaitersOk, WakeOk;
    assert PcOk(s.mq, s.pc[t]);
    ViewKept(s.pc, t, Idle);
    ViewWake(s.pc[t := Idle], s.mq.senders);
    ViewAt(s.pc, t);
  }

  lemma RefineReset(s: Sys)
    requires Inv(s)
    ensures DequeStep(View(s), Observed(s, Reset), View(Step(s, Reset)), s.mq.maxMsgs, s.mq.msgSize)
  {
    hide Inv, Waiting, Preparing, Hands;
    ResetView(s.pc);
  }

  lemma ResetView(pc: map<Tid, Pc>)
    ensures var failed := set t | t in pc && (pc[t].WaitSend? || pc[t].WaitRecv?);
            failed <= Waiting(pc).Keys && Waiting(WakeAll(pc)) == Waiting(pc) - failed
    ensures Preparing(WakeAll(pc)) == Preparing(pc) && Hands(WakeAll(pc)) == Hands(pc)
  {
  }

  /** Each step of the protocol is one step of the simple object, or none. */
  lemma StepRefines(s: Sys, a: Act)
    requires Inv(s) && Enabled(s, a)
    ensures DequeStep(View(s), Observed(s, a), View(Step(s, a)), s.mq.maxMsgs, s.mq.msgSize)
  {
    hide Inv, View, TrySend, TryRecv, Wake, WakeAll, Load, Contents, Pops;
    match a
    case Send(t, msg, wait) => RefineSend(s, t, msg, wait);
    case Urgent(t, msg) => RefineUrgent(s, t, msg);
    case RerunSend(t, expired) => RefineRerunSend(s, t, expired);
    case TimeoutSend(t) => RefineTimeout(s, t, DropSender(s.mq, t));
    case CopyInByte(t) => RefineCopyIn(s, t);
    case Link(t) => RefineLink(s, t);
    case Recv(t, size, wait) => RefineRecv(s, t, size, wait);
    case RerunRecv(t, expired) => RefineRerunRecv(s, t, expired);
    case TimeoutRecv(t) => RefineTimeout(s, t, DropReceiver(s.mq, t));
    case CopyOutByte(t) => RefineCopyOut(s, t);
    case PutBack(t) => RefinePutBack(s, t);
    case Reset => RefineReset(s);
  }

  // ---------------------------------------------------------------- whole runs

  ghost function Trace(s: Sys, acts: seq<Act>): (r: seq<Event>)
    requires Inv(s) && Runs(s, acts)
    decreases |acts|
  {
    if acts == [] then []
    else
      InvStep(s, acts[0]);
      [Observed(s, acts[0])] + Trace(Step(s, acts[0]), acts[1..])
  }

  /** The simple object can go from `d` to `r` by the given events. */
  ghost predicate DequeRun(d: Deque, evs: seq<Event>, r: Deque, max: nat, width: nat)
    decreases |evs|
  {
    if evs == [] then r == d
    else exists m :: DequeStep(d, evs[0], m, max, width) && DequeRun(m, evs[1..], r, max, width)
  }

  /** Whatever the interleaving, the observed events are those of an atomic bounded deque. */
  lemma {:induction false} RunRefines(s: Sys, acts: seq<Act>)
    requires Inv(s) && Runs(s, acts)
    ensures DequeRun(View(s), Trace(s, acts), View(After(s, acts)), s.mq.maxMsgs, s.mq.msgSize)
    decreases |acts|
  {
    if acts != [] {
      var m := Step(s, acts[0]);
      StepRefines(s, acts[0]);
      InvStep(s, acts[0]);
      SameLimits(s, acts[0]);
      RunRefines(m, acts[1..]);
      assert Trace(s, acts)[1..] == Trace(m, acts[1..]);
      assert DequeStep(View(s), Trace(s, acts)[0], View(m), s.mq.maxMsgs, s.mq.msgSize);
    }
  }
}
