/** Safety of the message queue protocol in every reachable state. */
module MessageSafety {

  import opened KernelTypes
  import opened OrderedList
  import opened MessageState
  import opened MessageProtocol

  // ---------------------------------------------------------------- invariants

  /** The node a thread holds between its two critical sections. */
  function Held(p: Pc): (r: set<nat>) {
    match p
    case CopyIn(n, _, _, _) => {n}
    case CopyOut(n, _, _, _) => {n}
    case _ => {}
  }

  ghost predicate HeldApart(q: Mq, p: Pc) {
    forall n :: n in Held(p) ==> n < q.maxMsgs && n !in q.free && n !in q.queue
  }

  /** Every pool node is in exactly one place: free, queued, or in the hands of one thread. */
  ghost predicate PoolOk(q: Mq, pc: map<Tid, Pc>) {
    && NoDup(q.free) && NoDup(q.queue)
    && (forall n :: n in q.free ==> n < q.maxMsgs && n !in q.queue)
    && (forall n :: n in q.queue ==> n < q.maxMsgs)
    && (forall t :: t in pc ==> HeldApart(q, pc[t]))
    && (forall t, u :: t in pc && u in pc && t != u ==> Held(pc[t]) !! Held(pc[u]))
    && (forall n {:trigger n in q.free} {:trigger n in q.queue} :: 0 <= n < q.maxMsgs && n !in q.free && n !in q.queue ==> Somewhere(pc, n))
  }

  ghost predicate Somewhere(pc: map<Tid, Pc>, n: nat) {
    exists t :: t in pc && n in Held(pc[t])
  }

  ghost predicate WaitersOk(q: Mq, pc: map<Tid, Pc>) {
    && NoDup(q.receivers) && NoDup(q.senders)
    && (forall t :: t in q.receivers <==> t in pc && pc[t].WaitRecv?)
    && (forall t :: t in q.senders <==> t in pc && pc[t].WaitSend?)
  }

  ghost predicate PcOk(q: Mq, p: Pc) {
    match p
    case Idle => true
    case WaitSend(msg) => 0 < |msg| <= q.msgSize
    case WokenSend(msg) => 0 < |msg| <= q.msgSize
    case CopyIn(n, msg, done, _) =>
      && 0 < |msg| <= q.msgSize && done <= |msg| && n < |q.data| && |q.data[n]| == q.msgSize
      && q.data[n][..done] == msg[..done]
    case WaitRecv(size) => 0 < size
    case WokenRecv(size) => 0 < size
    case CopyOut(n, size, slot, buf) =>
      && 0 < size && n < |q.data| && q.data[n] == slot && |slot| == q.msgSize
      && |buf| <= CopySize(q, size) && buf == slot[..|buf|]
  }

  ghost predicate DataOk(q: Mq, pc: map<Tid, Pc>) {
    && |q.data| == q.maxMsgs && (forall n :: 0 <= n < |q.data| ==> |q.data[n]| == q.msgSize)
    && forall t :: t in pc ==> PcOk(q, pc[t])
  }

  /** Threads that were resumed and have not yet run again. */
  ghost function WokenReceivers(pc: map<Tid, Pc>): (r: set<Tid>) { set t | t in pc && pc[t].WokenRecv? }
  ghost function WokenSenders(pc: map<Tid, Pc>): (r: set<Tid>) { set t | t in pc && pc[t].WokenSend? }

  /** No lost wakeup: while somebody still waits, every available message or node has a resumed
      thread on its way to it. */
  ghost predicate WakeOk(q: Mq, pc: map<Tid, Pc>) {
    && (q.receivers != [] ==> |q.queue| <= |WokenReceivers(pc)|)
    && (q.senders != [] ==> |q.free| <= |WokenSenders(pc)|)
  }

  ghost predicate Inv(s: Sys) {
    && PoolOk(s.mq, s.pc) && WaitersOk(s.mq, s.pc) && DataOk(s.mq, s.pc) && WakeOk(s.mq, s.pc)
    && s.mq.maxMsgs <= MQ_ENTRY_MAX
  }

  // ---------------------------------------------------------------- the pool

  lemma PoolSameHeld(q: Mq, pc: map<Tid, Pc>, pc2: map<Tid, Pc>)
    requires PoolOk(q, pc) && pc.Keys == pc2.Keys && forall t :: t in pc ==> Held(pc2[t]) == Held(pc[t])
    ensures PoolOk(q, pc2)
  {
    forall n | 0 <= n < q.maxMsgs && n !in q.free && n !in q.queue ensures Somewhere(pc2, n) {
      assert Somewhere(pc, n);
      var t :| t in pc && n in Held(pc[t]);
      assert t in pc2;
    }
    forall t | t in pc2 ensures HeldApart(q, pc2[t]) {
      assert HeldApart(q, pc[t]);
    }
  }

  /** One thread moves one node: the three places trade it without loss. */
  lemma PoolMove(q: Mq, pc: map<Tid, Pc>, t: Tid, q2: Mq, p: Pc)
    requires PoolOk(q, pc) && t in pc && q2.maxMsgs == q.maxMsgs
    requires NoDup(q2.free) && NoDup(q2.queue) && HeldApart(q2, p)
    requires forall n :: n in q2.free ==> n !in q2.queue
    requires forall n :: n in q2.free || n in q2.queue || n in Held(p) ==> n in q.free || n in q.queue || n in Held(pc[t])
    requires forall n :: n in q.free || n in q.queue || n in Held(pc[t]) ==> n in q2.free || n in q2.queue || n in Held(p)
    ensures PoolOk(q2, pc[t := p])
  {
    var pc2 := pc[t := p];
    forall u | u in pc2 ensures HeldApart(q2, pc2[u]) {
      assert HeldApart(q, pc[u]) && HeldApart(q, pc[t]);
    }
    forall u | u in pc && u != t ensures Held(pc2[u]) !! Held(p) {
      assert HeldApart(q, pc[u]) && Held(pc[u]) !! Held(pc[t]);
    }
    forall n | 0 <= n < q2.maxMsgs && n !in q2.free && n !in q2.queue ensures Somewhere(pc2, n) {
      if n in Held(p) {
        assert t in pc2 && n in Held(pc2[t]);
      } else {
        assert Somewhere(pc, n);
        var u :| u in pc && n in Held(pc[u]);
        assert u in pc2 && n in Held(pc2[u]);
      }
    }
    assert HeldApart(q, pc[t]);
  }

  lemma WakeHeld(pc: map<Tid, Pc>, ws: seq<Tid>)
    ensures Wake(pc, ws).Keys == pc.Keys
    ensures forall t :: t in pc ==> Held(Wake(pc, ws)[t]) == Held(pc[t])
  {
  }

  lemma {:induction false} ReversedKeeps(ns: seq<nat>)
    requires NoDup(ns)
    ensures NoDup(Reversed(ns)) && |Reversed(ns)| == |ns|
    ensures forall n :: n in Reversed(ns) <==> n in ns
  {
    if ns != [] {
      ReversedKeeps(ns[1..]);
      assert ns[0] !in ns[1..];
      assert ns == [ns[0]] + ns[1..];
    }
  }

  lemma PoolTrySend(s: Sys, t: Tid, msg: seq<Byte>, wait: bool, front: bool)
    requires PoolOk(s.mq, s.pc) && t in s.pc && Held(s.pc[t]) == {}
    ensures PoolOk(TrySend(s, t, msg, wait).mq, TrySend(s, t, msg, wait).pc)
    ensures s.mq.free != [] ==> PoolOk(TakeNode(s.mq), s.pc[t := CopyIn(s.mq.free[0], msg, 0, front)])
  {
    var q := s.mq;
    if q.free != [] {
      assert q.free == [q.free[0]] + q.free[1..] && q.free[0] in q.free && q.free[0] !in q.free[1..];
      PoolMove(q, s.pc, t, TakeNode(q), CopyIn(q.free[0], msg, 0, false));
      PoolMove(q, s.pc, t, TakeNode(q), CopyIn(q.free[0], msg, 0, front));
    } else if wait {
      PoolMove(q, s.pc, t, QueueSender(q, t), WaitSend(msg));
    } else {
      PoolMove(q, s.pc, t, q, Idle);
    }
  }

  lemma PoolTryRecv(s: Sys, t: Tid, size: nat, wait: bool)
    requires PoolOk(s.mq, s.pc) && t in s.pc && Held(s.pc[t]) == {}
    ensures PoolOk(TryRecv(s, t, size, wait).mq, TryRecv(s, t, size, wait).pc)
  {
    var q := s.mq;
    if q.queue != [] {
      assert q.queue == [q.queue[0]] + q.queue[1..] && q.queue[0] in q.queue;
      assert q.queue[0] !in q.queue[1..] && q.queue[0] !in q.free;
      PoolMove(q, s.pc, t, Pop(q), TryRecv(s, t, size, wait).pc[t]);
    } else if wait {
      PoolMove(q, s.pc, t, QueueReceiver(q, t), WaitRecv(size));
    } else {
      PoolMove(q, s.pc, t, q, Idle);
    }
  }

  lemma PoolLink(s: Sys, t: Tid)
    requires PoolOk(s.mq, s.pc) && Enabled(s, Link(t))
    ensures PoolOk(Step(s, Link(t)).mq, Step(s, Link(t)).pc)
  {
    var q2 := LinkNode(s.mq, s.pc[t].node, s.pc[t].front);
    assert HeldApart(s.mq, s.pc[t]) && s.pc[t].node in Held(s.pc[t]);
    assert NoDup(q2.queue) && NoDup(q2.free);
    PoolMove(s.mq, s.pc, t, q2, Idle);
    WakeHeld(s.pc[t := Idle], s.mq.receivers);
    PoolSameHeld(q2, s.pc[t := Idle], Wake(s.pc[t := Idle], s.mq.receivers));
  }

  lemma PoolPutBack(s: Sys, t: Tid)
    requires PoolOk(s.mq, s.pc) && Enabled(s, PutBack(t))
    ensures PoolOk(Step(s, PutBack(t)).mq, Step(s, PutBack(t)).pc)
  {
    var q2 := FreeNode(s.mq, s.pc[t].node);
    assert HeldApart(s.mq, s.pc[t]) && s.pc[t].node in Held(s.pc[t]);
    assert NoDup(q2.queue) && NoDup(q2.free);
    PoolMove(s.mq, s.pc, t, q2, Idle);
    WakeHeld(s.pc[t := Idle], s.mq.senders);
    PoolSameHeld(q2, s.pc[t := Idle], Wake(s.pc[t := Idle], s.mq.senders));
  }

  lemma NoDupConcat<T>(a: seq<T>, b: seq<T>)
    requires NoDup(a) && NoDup(b) && forall x :: x in b ==> x !in a
    ensures NoDup(a + b)
  {
    var c := a + b;
    forall i, j | 0 <= i < j < |c| ensures c[i] != c[j] {
      if i < |a| && j >= |a| {
        assert c[j] in b && c[i] in a;
      }
    }
  }

  lemma PoolReset(s: Sys)
    requires PoolOk(s.mq, s.pc)
    ensures PoolOk(Clear(s.mq), WakeAll(s.pc))
  {
    var q, pc2 := Clear(s.mq), WakeAll(s.pc);
    ReversedKeeps(s.mq.queue);
    assert forall n :: n in q.free <==> n in s.mq.free || n in s.mq.queue;
    NoDupConcat(Reversed(s.mq.queue), s.mq.free);
    forall n | 0 <= n < q.maxMsgs && n !in q.free && n !in q.queue ensures Somewhere(pc2, n) {
      assert Somewhere(s.pc, n);
      var t :| t in s.pc && n in Held(s.pc[t]);
      assert t in pc2;
    }
    forall t | t in pc2 ensures HeldApart(q, pc2[t]) && Held(pc2[t]) == Held(s.pc[t]) {
      assert HeldApart(s.mq, s.pc[t]);
    }
  }

  /** No step loses a node, frees one twice or hands one to two threads. */
  lemma PoolStep(s: Sys, a: Act)
    requires PoolOk(s.mq, s.pc) && Enabled(s, a)
    ensures PoolOk(Step(s, a).mq, Step(s, a).pc)
  {
    var r := Step(s, a);
    match a
    case Send(t, msg, wait) => PoolTrySend(s, t, msg, wait, false);
    case Urgent(t, msg) => PoolTrySend(s, t, msg, false, true);
    case RerunSend(t, expired) => PoolTrySend(s, t, s.pc[t].msg, !expired, false);
    case TimeoutSend(t) => PoolMove(s.mq, s.pc, t, r.mq, Idle);
    case CopyInByte(t) =>
      assert HeldApart(s.mq, s.pc[t]);
      PoolMove(s.mq, s.pc, t, r.mq, r.pc[t]);
    case Link(t) => PoolLink(s, t);
    case Recv(t, size, wait) => PoolTryRecv(s, t, size, wait);
    case RerunRecv(t, expired) => PoolTryRecv(s, t, s.pc[t].size, !expired);
    case TimeoutRecv(t) => PoolMove(s.mq, s.pc, t, r.mq, Idle);
    case CopyOutByte(t) =>
      assert HeldApart(s.mq, s.pc[t]);
      PoolMove(s.mq, s.pc, t, r.mq, r.pc[t]);
    case PutBack(t) => PoolPutBack(s, t);
    case Reset => PoolReset(s);
  }

  // ---------------------------------------------------------------- the waiting lists

  lemma EnqueueMembers(q: Mq, ws: seq<Tid>, t: Tid)
    requires NoDup(ws) && t !in ws
    ensures NoDup(Enqueue(q, ws, t)) && Enqueue(q, ws, t) != []
    ensures forall x :: x in Enqueue(q, ws, t) <==> x in ws || x == t
  {
    if q.flag == Prio {
      InsertMembers(q.prio, ws, t);
    }
  }

  lemma TailMembers(ws: seq<Tid>)
    requires NoDup(ws)
    ensures NoDup(Tail(ws)) && forall x :: x in Tail(ws) <==> x in ws && x != ws[0]
  {
    if ws != [] {
      assert ws == [ws[0]] + ws[1..];
    }
  }

  lemma WaitersTrySend(s: Sys, t: Tid, msg: seq<Byte>, wait: bool)
    requires WaitersOk(s.mq, s.pc) && t in s.pc && !s.pc[t].WaitSend? && !s.pc[t].WaitRecv?
    ensures WaitersOk(TrySend(s, t, msg, wait).mq, TrySend(s, t, msg, wait).pc)
  {
    EnqueueMembers(s.mq, s.mq.senders, t);
  }

  lemma WaitersTryRecv(s: Sys, t: Tid, size: nat, wait: bool)
    requires WaitersOk(s.mq, s.pc) && t in s.pc && !s.pc[t].WaitSend? && !s.pc[t].WaitRecv?
    ensures WaitersOk(TryRecv(s, t, size, wait).mq, TryRecv(s, t, size, wait).pc)
  {
    EnqueueMembers(s.mq, s.mq.receivers, t);
  }

  /** The waiting lists hold exactly the threads that wait, once each. */
  lemma WaitersStep(s: Sys, a: Act)
    requires WaitersOk(s.mq, s.pc) && Enabled(s, a)
    ensures WaitersOk(Step(s, a).mq, Step(s, a).pc)
  {
    hide TrySend, TryRecv;
    match a
    case Send(t, msg, wait) => WaitersTrySend(s, t, msg, wait);
    case Urgent(t, msg) =>
    case RerunSend(t, expired) => WaitersTrySend(s, t, s.pc[t].msg, !expired);
    case TimeoutSend(t) => RemoveMembers(s.mq.senders, t);
    case CopyInByte(t) =>
    case Link(t) => TailMembers(s.mq.receivers);
    case Recv(t, size, wait) => WaitersTryRecv(s, t, size, wait);
    case RerunRecv(t, expired) => WaitersTryRecv(s, t, s.pc[t].size, !expired);
    case TimeoutRecv(t) => RemoveMembers(s.mq.receivers, t);
    case CopyOutByte(t) =>
    case PutBack(t) => TailMembers(s.mq.senders);
    case Reset =>
  }

  // ---------------------------------------------------------------- the bytes

  /** A step that writes no slot and gives threads only sound program counters is safe. */
  lemma DataMove(q: Mq, pc: map<Tid, Pc>, t: Tid, q2: Mq, p: Pc)
    requires DataOk(q, pc) && t in pc && q2.data == q.data && q2.msgSize == q.msgSize && q2.maxMsgs == q.maxMsgs
    requires PcOk(q2, p)
    ensures DataOk(q2, pc[t := p])
  {
    var pc2 := pc[t := p];
    forall u | u in pc2 ensures PcOk(q2, pc2[u]) {
      if u != t {
        assert PcOk(q, pc[u]);
      }
    }
  }

  lemma DataWake(q: Mq, pc: map<Tid, Pc>, ws: seq<Tid>)
    requires DataOk(q, pc)
    ensures DataOk(q, Wake(pc, ws))
  {
    if ws != [] && ws[0] in pc {
      assert PcOk(q, pc[ws[0]]);
    }
  }

  lemma DataWrite(s: Sys, t: Tid)
    requires DataOk(s.mq, s.pc) && PoolOk(s.mq, s.pc) && Enabled(s, CopyInByte(t))
    ensures DataOk(Step(s, CopyInByte(t)).mq, Step(s, CopyInByte(t)).pc)
  {
    var r, c := Step(s, CopyInByte(t)), s.pc[t];
    assert PcOk(s.mq, c);
    forall u | u in r.pc ensures PcOk(r.mq, r.pc[u]) {
      assert PcOk(s.mq, s.pc[u]);
      if u == t {
        assert r.mq.data[c.node][..c.done + 1] == s.mq.data[c.node][..c.done] + [c.msg[c.done]];
        assert c.msg[..c.done + 1] == c.msg[..c.done] + [c.msg[c.done]];
      } else {
        assert Held(s.pc[u]) !! Held(c);
        assert c.node !in Held(s.pc[u]);
      }
    }
  }

  lemma DataTryRecv(s: Sys, t: Tid, size: nat, wait: bool)
    requires DataOk(s.mq, s.pc) && PoolOk(s.mq, s.pc) && t in s.pc && 0 < size
    ensures DataOk(TryRecv(s, t, size, wait).mq, TryRecv(s, t, size, wait).pc)
  {
    var r := TryRecv(s, t, size, wait);
    if s.mq.queue != [] {
      assert s.mq.queue[0] in s.mq.queue;
    }
    DataMove(s.mq, s.pc, t, r.mq, r.pc[t]);
  }

  lemma DataTrySend(s: Sys, t: Tid, msg: seq<Byte>, wait: bool, front: bool)
    requires DataOk(s.mq, s.pc) && PoolOk(s.mq, s.pc) && t in s.pc && 0 < |msg| <= s.mq.msgSize
    ensures DataOk(TrySend(s, t, msg, wait).mq, TrySend(s, t, msg, wait).pc)
    ensures s.mq.free != [] ==> DataOk(TakeNode(s.mq), s.pc[t := CopyIn(s.mq.free[0], msg, 0, front)])
  {
    var r := TrySend(s, t, msg, wait);
    if s.mq.free != [] {
      assert s.mq.free[0] in s.mq.free;
      DataMove(s.mq, s.pc, t, TakeNode(s.mq), CopyIn(s.mq.free[0], msg, 0, front));
    }
    DataMove(s.mq, s.pc, t, r.mq, r.pc[t]);
  }

  /** Copies run outside the critical sections, yet no slot is written by two threads or while
      it is read: what a sender has copied stays, and what a receiver copies is what it popped. */
  lemma DataStep(s: Sys, a: Act)
    requires DataOk(s.mq, s.pc) && PoolOk(s.mq, s.pc) && Enabled(s, a)
    ensures DataOk(Step(s, a).mq, Step(s, a).pc)
  {
    hide TrySend, TryRecv, PoolOk;
    var r := Step(s, a);
    assert a != Reset ==> PcOk(s.mq, s.pc[a.t]);
    match a
    case Send(t, msg, wait) =>
      if |msg| <= s.mq.msgSize {
        DataTrySend(s, t, msg, wait, false);
      }
    case Urgent(t, msg) =>
      if |msg| <= s.mq.msgSize {
        DataTrySend(s, t, msg, false, true);
      }
    case RerunSend(t, expired) => DataTrySend(s, t, s.pc[t].msg, !expired, false);
    case TimeoutSend(t) => DataMove(s.mq, s.pc, t, r.mq, Idle);
    case CopyInByte(t) => DataWrite(s, t);
    case Link(t) =>
      DataMove(s.mq, s.pc, t, r.mq, Idle);
      DataWake(r.mq, s.pc[t := Idle], s.mq.receivers);
    case Recv(t, size, wait) => DataTryRecv(s, t, size, wait);
    case RerunRecv(t, expired) => DataTryRecv(s, t, s.pc[t].size, !expired);
    case TimeoutRecv(t) => DataMove(s.mq, s.pc, t, r.mq, Idle);
    case CopyOutByte(t) => DataMove(s.mq, s.pc, t, r.mq, r.pc[t]);
    case PutBack(t) =>
      DataMove(s.mq, s.pc, t, r.mq, Idle);
      DataWake(r.mq, s.pc[t := Idle], s.mq.senders);
    case Reset =>
      forall u | u in r.pc ensures PcOk(r.mq, r.pc[u]) {
        assert PcOk(s.mq, s.pc[u]);
      }
  }

  // ---------------------------------------------------------------- wakeups

  lemma WokenUpdate(pc: map<Tid, Pc>, t: Tid, p: Pc)
    requires t in pc
    ensures WokenReceivers(pc[t := p]) == if p.WokenRecv? then WokenReceivers(pc) + {t} else WokenReceivers(pc) - {t}
    ensures WokenSenders(pc[t := p]) == if p.WokenSend? then WokenSenders(pc) + {t} else WokenSenders(pc) - {t}
  {
  }

  lemma WokenWake(pc: map<Tid, Pc>, ws: seq<Tid>)
    requires ws != [] && ws[0] in pc
    ensures pc[ws[0]].WaitRecv? ==> |WokenReceivers(Wake(pc, ws))| == |WokenReceivers(pc)| + 1
                                    && WokenSenders(Wake(pc, ws)) == WokenSenders(pc)
    ensures pc[ws[0]].WaitSend? ==> |WokenSenders(Wake(pc, ws))| == |WokenSenders(pc)| + 1
                                    && WokenReceivers(Wake(pc, ws)) == WokenReceivers(pc)
  {
    match pc[ws[0]]
    case WaitRecv(size) => WokenUpdate(pc, ws[0], WokenRecv(size));
    case WaitSend(msg) => WokenUpdate(pc, ws[0], WokenSend(msg));
    case _ =>
  }

  /** A thread goes idle and the first waiter, if any, is resumed. */
  lemma WokenAfter(pc: map<Tid, Pc>, t: Tid, ws: seq<Tid>)
    requires t in pc && !pc[t].WokenRecv? && !pc[t].WokenSend? && (ws != [] ==> ws[0] in pc && ws[0] != t)
    ensures var pc2 := Wake(pc[t := Idle], ws);
            && |WokenReceivers(pc2)| == |WokenReceivers(pc)| + (if ws != [] && pc[ws[0]].WaitRecv? then 1 else 0)
            && |WokenSenders(pc2)| == |WokenSenders(pc)| + (if ws != [] && pc[ws[0]].WaitSend? then 1 else 0)
  {
    var pc1 := pc[t := Idle];
    WokenUpdate(pc, t, Idle);
    assert WokenReceivers(pc1) == WokenReceivers(pc) && WokenSenders(pc1) == WokenSenders(pc);
    if ws != [] {
      WokenWake(pc1, ws);
    }
  }

  lemma WakeLink(s: Sys, t: Tid)
    requires WaitersOk(s.mq, s.pc) && WakeOk(s.mq, s.pc) && Enabled(s, Link(t))
    ensures WakeOk(Step(s, Link(t)).mq, Step(s, Link(t)).pc)
  {
    var ws := s.mq.receivers;
    assert ws != [] ==> ws[0] in ws;
    hide WokenReceivers, WokenSenders, Wake;
    WokenAfter(s.pc, t, ws);
  }

  lemma WakePutBack(s: Sys, t: Tid)
    requires WaitersOk(s.mq, s.pc) && WakeOk(s.mq, s.pc) && Enabled(s, PutBack(t))
    ensures WakeOk(Step(s, PutBack(t)).mq, Step(s, PutBack(t)).pc)
  {
    var ws := s.mq.senders;
    assert ws != [] ==> ws[0] in ws;
    hide WokenReceivers, WokenSenders, Wake;
    WokenAfter(s.pc, t, ws);
  }

  /** A thread that runs the first section of a send: it uses up a free node or finds none. */
  lemma WakeTrySend(s: Sys, t: Tid, msg: seq<Byte>, wait: bool)
    requires WakeOk(s.mq, s.pc) && t in s.pc && (s.pc[t].Idle? || s.pc[t].WokenSend?)
    ensures WakeOk(TrySend(s, t, msg, wait).mq, TrySend(s, t, msg, wait).pc)
  {
    var r := TrySend(s, t, msg, wait);
    SenderLeaves(s.pc, t, r.pc[t]);
    hide WokenReceivers, WokenSenders;
  }

  lemma SenderLeaves(pc: map<Tid, Pc>, t: Tid, p: Pc)
    requires t in pc && (pc[t].Idle? || pc[t].WokenSend?) && !p.WokenSend? && !p.WokenRecv?
    ensures WokenReceivers(pc[t := p]) == WokenReceivers(pc)
    ensures |WokenSenders(pc[t := p])| == |WokenSenders(pc)| - if pc[t].WokenSend? then 1 else 0
  {
    WokenUpdate(pc, t, p);
    assert t in WokenSenders(pc) <==> pc[t].WokenSend?;
    assert pc[t].Idle? ==> WokenSenders(pc) - {t} == WokenSenders(pc);
  }

  lemma ReceiverLeaves(pc: map<Tid, Pc>, t: Tid, p: Pc)
    requires t in pc && (pc[t].Idle? || pc[t].WokenRecv?) && !p.WokenSend? && !p.WokenRecv?
    ensures WokenSenders(pc[t := p]) == WokenSenders(pc)
    ensures |WokenReceivers(pc[t := p])| == |WokenReceivers(pc)| - if pc[t].WokenRecv? then 1 else 0
  {
    WokenUpdate(pc, t, p);
    assert t in WokenReceivers(pc) <==> pc[t].WokenRecv?;
    assert pc[t].Idle? ==> WokenReceivers(pc) - {t} == WokenReceivers(pc);
  }

  lemma WakeTryRecv(s: Sys, t: Tid, size: nat, wait: bool)
    requires WakeOk(s.mq, s.pc) && t in s.pc && (s.pc[t].Idle? || s.pc[t].WokenRecv?)
    ensures WakeOk(TryRecv(s, t, size, wait).mq, TryRecv(s, t, size, wait).pc)
  {
    var r := TryRecv(s, t, size, wait);
    ReceiverLeaves(s.pc, t, r.pc[t]);
    hide WokenReceivers, WokenSenders;
  }

  /** A step that moves one thread between states that are not "woken". */
  lemma WakeQuiet(s: Sys, t: Tid, q2: Mq, p: Pc)
    requires WakeOk(s.mq, s.pc) && t in s.pc
    requires !s.pc[t].WokenRecv? && !s.pc[t].WokenSend? && !p.WokenRecv? && !p.WokenSend?
    requires |q2.queue| <= |s.mq.queue| && |q2.free| <= |s.mq.free|
    requires (q2.receivers != [] ==> s.mq.receivers != []) && (q2.senders != [] ==> s.mq.senders != [])
    ensures WakeOk(q2, s.pc[t := p])
  {
    WokenUpdate(s.pc, t, p);
    assert WokenReceivers(s.pc[t := p]) == WokenReceivers(s.pc);
    assert WokenSenders(s.pc[t := p]) == WokenSenders(s.pc);
  }

  lemma WakeStep(s: Sys, a: Act)
    requires WaitersOk(s.mq, s.pc) && WakeOk(s.mq, s.pc) && Enabled(s, a)
    ensures WakeOk(Step(s, a).mq, Step(s, a).pc)
  {
    var r := Step(s, a);
    match a
    case Send(t, msg, wait) => WakeTrySend(s, t, msg, wait);
    case Urgent(t, msg) =>
      if s.mq.free != [] {
        WakeQuiet(s, t, r.mq, r.pc[t]);
      }
    case RerunSend(t, expired) => WakeTrySend(s, t, s.pc[t].msg, !expired);
    case TimeoutSend(t) => WakeQuiet(s, t, r.mq, Idle);
    case CopyInByte(t) => WakeQuiet(s, t, r.mq, r.pc[t]);
    case Link(t) => WakeLink(s, t);
    case Recv(t, size, wait) => WakeTryRecv(s, t, size, wait);
    case RerunRecv(t, expired) => WakeTryRecv(s, t, s.pc[t].size, !expired);
    case TimeoutRecv(t) => WakeQuiet(s, t, r.mq, Idle);
    case CopyOutByte(t) => WakeQuiet(s, t, r.mq, r.pc[t]);
    case PutBack(t) => WakePutBack(s, t);
    case Reset =>
  }

  // ---------------------------------------------------------------- the whole invariant, and runs

  lemma InvStep(s: Sys, a: Act)
    requires Inv(s) && Enabled(s, a)
    ensures Inv(Step(s, a))
  {
    hide PoolOk, WaitersOk, DataOk, WakeOk;
    PoolStep(s, a);
    WaitersStep(s, a);
    DataStep(s, a);
    WakeStep(s, a);
    SameLimits(s, a);
  }

  lemma SameLimits(s: Sys, a: Act)
    requires Enabled(s, a)
    ensures var q := Step(s, a).mq;
            q.maxMsgs == s.mq.maxMsgs && q.msgSize == s.mq.msgSize && Step(s, a).pc.Keys == s.pc.Keys
  {
  }

  /** The queue right after `rt_mq_init`: the pool is on the free chain, last node first. */
  ghost predicate Initial(s: Sys) {
    && s.mq.maxMsgs <= MQ_ENTRY_MAX
    && s.mq.free == seq(s.mq.maxMsgs, i requires 0 <= i < s.mq.maxMsgs => s.mq.maxMsgs - 1 - i)
    && s.mq.queue == [] && s.mq.receivers == [] && s.mq.senders == []
    && |s.mq.data| == s.mq.maxMsgs && (forall n :: 0 <= n < |s.mq.data| ==> |s.mq.data[n]| == s.mq.msgSize)
    && forall t :: t in s.pc ==> s.pc[t].Idle?
  }

  lemma InitialInv(s: Sys)
    requires Initial(s)
    ensures Inv(s)
  {
    forall n | 0 <= n < s.mq.maxMsgs ensures n in s.mq.free {
      assert s.mq.free[s.mq.maxMsgs - 1 - n] == n;
    }
  }

  predicate Runs(s: Sys, acts: seq<Act>)
    decreases |acts|
  {
    acts == [] || (Enabled(s, acts[0]) && Runs(Step(s, acts[0]), acts[1..]))
  }

  function After(s: Sys, acts: seq<Act>): (r: Sys)
    requires Runs(s, acts)
    decreases |acts|
  {
    if acts == [] then s else After(Step(s, acts[0]), acts[1..])
  }

  /** The invariant holds after every interleaving of any number of steps. */
  lemma {:induction false} InvRun(s: Sys, acts: seq<Act>)
    requires Inv(s) && Runs(s, acts)
    ensures Inv(After(s, acts))
    decreases |acts|
  {
    if acts != [] {
      InvStep(s, acts[0]);
      InvRun(Step(s, acts[0]), acts[1..]);
    }
  }

  // ---------------------------------------------------------------- what follows

  lemma {:induction false} DistinctBelow(ns: seq<nat>, k: nat)
    requires NoDup(ns) && forall n :: n in ns ==> n < k
    ensures |ns| <= k
    decreases k
  {
    if ns != [] {
      assert ns[0] in ns;
      if k - 1 in ns {
        var i :| 0 <= i < |ns| && ns[i] == k - 1;
        var rest := ns[..i] + ns[i + 1..];
        forall j | 0 <= j < |rest| ensures rest[j] == ns[if j < i then j else j + 1] && rest[j] in ns {
        }
        DistinctBelow(rest, k - 1);
      } else {
        DistinctBelow(ns, k - 1);
      }
    }
  }

  /** The EFULL branch behind the copy is unreachable: `entry` is the length of the queue, and a
      thread that links a node always finds it below both limits. */
  lemma LinkNeverFull(s: Sys, t: Tid)
    requires Inv(s) && Enabled(s, Link(t))
    ensures |s.mq.queue| < s.mq.maxMsgs && |s.mq.queue| < MQ_ENTRY_MAX
    ensures |Step(s, Link(t)).mq.queue| == |s.mq.queue| + 1
  {
    var all := [s.pc[t].node] + s.mq.queue;
    assert HeldApart(s.mq, s.pc[t]) && s.pc[t].node in Held(s.pc[t]);
    assert NoDup(all);
    DistinctBelow(all, s.mq.maxMsgs);
  }

  /** Nobody is between two critical sections or on the way from a wakeup. */
  ghost predicate Quiescent(s: Sys) {
    forall t :: t in s.pc ==> s.pc[t].Idle? || s.pc[t].WaitSend? || s.pc[t].WaitRecv?
  }

  /** At rest, receivers wait only for an empty queue and senders only for a full one, so the two
      never wait for each other. */
  lemma NoLostWakeup(s: Sys)
    requires Inv(s) && Quiescent(s)
    ensures s.mq.receivers != [] ==> s.mq.queue == []
    ensures s.mq.senders != [] ==> s.mq.free == [] && |s.mq.queue| == s.mq.maxMsgs
    ensures s.mq.maxMsgs > 0 ==> s.mq.receivers == [] || s.mq.senders == []
  {
    assert WokenReceivers(s.pc) == {} && WokenSenders(s.pc) == {};
    if s.mq.senders != [] {
      assert s.mq.free == [];
      forall n | 0 <= n < s.mq.maxMsgs ensures n in s.mq.queue {
        assert !Somewhere(s.pc, n) && n !in s.mq.free;
      }
      DistinctBelow(s.mq.queue, s.mq.maxMsgs);
      Covers(s.mq.queue, s.mq.maxMsgs);
    }
  }

  /** A list that mentions all numbers below `k` has at least `k` entries. */
  lemma {:induction false} Covers(ns: seq<nat>, k: nat)
    requires forall n :: 0 <= n < k ==> n in ns
    ensures |ns| >= k
  {
    if k > 0 {
      assert k - 1 in ns;
      var i :| 0 <= i < |ns| && ns[i] == k - 1;
      var rest := ns[..i] + ns[i + 1..];
      forall n | 0 <= n < k - 1 ensures n in rest {
        assert n in ns;
        var j :| 0 <= j < |ns| && ns[j] == n;
        assert rest[if j < i then j else j - 1] == n;
      }
      Covers(rest, k - 1);
    }
  }
}
