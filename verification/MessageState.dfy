/** The shared state of one message queue and its critical sections, as functions. */
module MessageState {

  import opened KernelTypes
  import opened OrderedList
  import opened WaitingOrder

  const MQ_ENTRY_MAX := 65535

  /** `free` and `queue` list the pool nodes on the two chains; `data` holds each node's slot. */
  datatype Mq = Mq(msgSize: nat, maxMsgs: nat, flag: Flag, prio: Tid -> nat,
                   free: seq<nat>, queue: seq<nat>, data: seq<seq<Byte>>,
                   receivers: seq<Tid>, senders: seq<Tid>)

  function Enqueue(q: Mq, ws: seq<Tid>, t: Tid): (r: seq<Tid>) {
    Suspend(q.flag, q.prio, ws, t)
  }

  function QueueSender(q: Mq, t: Tid): (r: Mq) { q.(senders := Enqueue(q, q.senders, t)) }

  function QueueReceiver(q: Mq, t: Tid): (r: Mq) { q.(receivers := Enqueue(q, q.receivers, t)) }

  function DropSender(q: Mq, t: Tid): (r: Mq) { q.(senders := Remove(q.senders, t)) }

  function DropReceiver(q: Mq, t: Tid): (r: Mq) { q.(receivers := Remove(q.receivers, t)) }

  function TakeNode(q: Mq): (r: Mq)
    requires q.free != []
  {
    q.(free := q.free[1..])
  }

  function WriteByte(q: Mq, n: nat, i: nat, b: Byte): (r: Mq) {
    if n < |q.data| && i < |q.data[n]| then q.(data := q.data[n := q.data[n][i := b]]) else q
  }

  function ReadByte(q: Mq, n: nat, i: nat): (r: Byte) {
    if n < |q.data| && i < |q.data[n]| then q.data[n][i] else 0
  }

  function Tail<T>(ws: seq<T>): (r: seq<T>) {
    if ws == [] then [] else ws[1..]
  }

  /** Second section of a send: link the node at the tail, or at the head when urgent, and
      resume the first waiting receiver. */
  function LinkNode(q: Mq, n: nat, front: bool): (r: Mq) {
    q.(queue := if front then [n] + q.queue else q.queue + [n], receivers := Tail(q.receivers))
  }

  /** First section of a receive. */
  function Pop(q: Mq): (r: Mq)
    requires q.queue != []
  {
    q.(queue := q.queue[1..])
  }

  /** Second section of a receive: the node goes back and the first waiting sender is resumed. */
  function FreeNode(q: Mq, n: nat): (r: Mq) {
    q.(free := [n] + q.free, senders := Tail(q.senders))
  }

  function Reversed(s: seq<nat>): (r: seq<nat>) {
    if s == [] then [] else Reversed(s[1..]) + [s[0]]
  }

  /** `RT_IPC_CMD_RESET`. */
  function Clear(q: Mq): (r: Mq) {
    q.(free := Reversed(q.queue) + q.free, queue := [], receivers := [], senders := [])
  }

  /** The messages in the queue, first to be received first. */
  function Contents(q: Mq): (r: seq<seq<Byte>>) {
    Slots(q.data, q.queue)
  }

  function Slots(data: seq<seq<Byte>>, ns: seq<nat>): (r: seq<seq<Byte>>)
    ensures |r| == |ns|
  {
    seq(|ns|, i requires 0 <= i < |ns| => if ns[i] < |data| then data[ns[i]] else [])
  }
}
