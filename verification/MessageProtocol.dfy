/** The message queue as a concurrent protocol: every send and receive is two critical sections
    with a copy between them, and all threads interleave freely. */
module MessageProtocol {

  import opened KernelTypes
  import opened MessageState

  /** Where a thread stands inside a send or a receive. */
  datatype Pc =
    | Idle
    | WaitSend(msg: seq<Byte>)
    | WokenSend(msg: seq<Byte>)
    | CopyIn(node: nat, msg: seq<Byte>, done: nat, front: bool)
    | WaitRecv(size: nat)
    | WokenRecv(size: nat)
    | CopyOut(node: nat, size: nat, slot: seq<Byte>, buf: seq<Byte>)

  datatype Sys = Sys(mq: Mq, pc: map<Tid, Pc>)

  datatype Act =
    | Send(t: Tid, msg: seq<Byte>, wait: bool)
    | Urgent(t: Tid, msg: seq<Byte>)
    | RerunSend(t: Tid, expired: bool)
    | TimeoutSend(t: Tid)
    | CopyInByte(t: Tid)
    | Link(t: Tid)
    | Recv(t: Tid, size: nat, wait: bool)
    | RerunRecv(t: Tid, expired: bool)
    | TimeoutRecv(t: Tid)
    | CopyOutByte(t: Tid)
    | PutBack(t: Tid)
    | Reset

  // ---------------------------------------------------------------- the steps

  function CopySize(q: Mq, size: nat): (r: nat) {
    if size > q.msgSize then q.msgSize else size
  }

  predicate Enabled(s: Sys, a: Act) {
    match a
    case Send(t, msg, _) => t in s.pc && s.pc[t].Idle? && 0 < |msg|
    case Urgent(t, msg) => t in s.pc && s.pc[t].Idle? && 0 < |msg|
    case RerunSend(t, _) => t in s.pc && s.pc[t].WokenSend?
    case TimeoutSend(t) => t in s.pc && s.pc[t].WaitSend?
    case CopyInByte(t) => t in s.pc && s.pc[t].CopyIn? && s.pc[t].done < |s.pc[t].msg|
    case Link(t) => t in s.pc && s.pc[t].CopyIn? && s.pc[t].done == |s.pc[t].msg|
    case Recv(t, size, _) => t in s.pc && s.pc[t].Idle? && 0 < size
    case RerunRecv(t, _) => t in s.pc && s.pc[t].WokenRecv?
    case TimeoutRecv(t) => t in s.pc && s.pc[t].WaitRecv?
    case CopyOutByte(t) => t in s.pc && s.pc[t].CopyOut? && |s.pc[t].buf| < CopySize(s.mq, s.pc[t].size)
    case PutBack(t) => t in s.pc && s.pc[t].CopyOut? && |s.pc[t].buf| == CopySize(s.mq, s.pc[t].size)
    case Reset => true
  }

  /** The first critical section of a send: take a free node, wait for one, or give up. */
  function TrySend(s: Sys, t: Tid, msg: seq<Byte>, wait: bool): (r: Sys) {
    if s.mq.free != [] then
      Sys(TakeNode(s.mq), s.pc[t := CopyIn(s.mq.free[0], msg, 0, false)])
    else if wait then Sys(QueueSender(s.mq, t), s.pc[t := WaitSend(msg)])
    else s.(pc := s.pc[t := Idle])
  }

  /** The first critical section of a receive. */
  function TryRecv(s: Sys, t: Tid, size: nat, wait: bool): (r: Sys) {
    var q := s.mq;
    if q.queue != [] then
      var n := q.queue[0];
      Sys(Pop(q), s.pc[t := CopyOut(n, size, if n < |q.data| then q.data[n] else [], [])])
    else if wait then Sys(QueueReceiver(q, t), s.pc[t := WaitRecv(size)])
    else s.(pc := s.pc[t := Idle])
  }

  /** Resuming the first thread of a waiting list lets it run the wait loop again. */
  function Wake(pc: map<Tid, Pc>, ws: seq<Tid>): (r: map<Tid, Pc>) {
    if ws == [] || ws[0] !in pc then pc
    else match pc[ws[0]]
      case WaitSend(msg) => pc[ws[0] := WokenSend(msg)]
      case WaitRecv(size) => pc[ws[0] := WokenRecv(size)]
      case _ => pc
  }

  /** A reset resumes every waiter with an error. */
  function WakeAll(pc: map<Tid, Pc>): (r: map<Tid, Pc>) {
    map t | t in pc :: if pc[t].WaitSend? || pc[t].WaitRecv? then Idle else pc[t]
  }

  function Step(s: Sys, a: Act): (r: Sys)
    requires Enabled(s, a)
  {
    match a
    case Send(t, msg, wait) => if |msg| > s.mq.msgSize then s else TrySend(s, t, msg, wait)
    case Urgent(t, msg) =>
      if |msg| > s.mq.msgSize || s.mq.free == [] then s
      else Sys(TakeNode(s.mq), s.pc[t := CopyIn(s.mq.free[0], msg, 0, true)])
    case RerunSend(t, expired) => TrySend(s, t, s.pc[t].msg, !expired)
    case TimeoutSend(t) => Sys(DropSender(s.mq, t), s.pc[t := Idle])
    case CopyInByte(t) =>
      var c := s.pc[t];
      Sys(WriteByte(s.mq, c.node, c.done, c.msg[c.done]), s.pc[t := c.(done := c.done + 1)])
    case Link(t) =>
      var c := s.pc[t];
      Sys(LinkNode(s.mq, c.node, c.front), Wake(s.pc[t := Idle], s.mq.receivers))
    case Recv(t, size, wait) => TryRecv(s, t, size, wait)
    case RerunRecv(t, expired) => TryRecv(s, t, s.pc[t].size, !expired)
    case TimeoutRecv(t) => Sys(DropReceiver(s.mq, t), s.pc[t := Idle])
    case CopyOutByte(t) =>
      var c := s.pc[t];
      s.(pc := s.pc[t := c.(buf := c.buf + [ReadByte(s.mq, c.node, |c.buf|)])])
    case PutBack(t) => Sys(FreeNode(s.mq, s.pc[t].node), Wake(s.pc[t := Idle], s.mq.senders))
    case Reset => Sys(Clear(s.mq), WakeAll(s.pc))
  }
}
