/** The message queue object: a pool of nodes on singly linked chains, updated in place. Every
    critical section is proved against its function on the shared state. */
module MessageQueueCode {

  import opened KernelTypes
  import opened OrderedList
  import opened MessageState
  import opened MessageSafety
  import opened WaitingOrder

  const NIL := -1

  /** Following `next` from `start` visits exactly the nodes `ns` and ends at NIL. */
  ghost predicate IsChain(next: seq<int>, start: int, ns: seq<nat>)
    decreases ns
  {
    if ns == [] then start == NIL
    else start == ns[0] && ns[0] < |next| && IsChain(next, next[ns[0]], ns[1..])
  }

  lemma {:induction false} ChainKept(next: seq<int>, start: int, ns: seq<nat>, n: nat, v: int)
    requires IsChain(next, start, ns) && n < |next| && n !in ns
    ensures IsChain(next[n := v], start, ns)
    decreases ns
  {
    if ns != [] {
      ChainKept(next, next[ns[0]], ns[1..], n, v);
    }
  }

  /** Linking a node behind the last one. */
  lemma {:induction false} ChainAppend(next: seq<int>, start: int, ns: seq<nat>, n: nat)
    requires IsChain(next, start, ns) && NoDup(ns) && ns != []
    requires n < |next| && n !in ns && next[n] == NIL
    ensures ns[|ns| - 1] < |next| && IsChain(next[ns[|ns| - 1] := n], start, ns + [n])
    decreases ns
  {
    var last := ns[|ns| - 1];
    if |ns| == 1 {
      assert ns + [n] == [last, n];
      assert IsChain(next[last := n], n, [n]);
      assert (ns + [n])[1..] == [n];
    } else {
      ChainAppend(next, next[ns[0]], ns[1..], n);
      assert ns[1..][|ns| - 2] == last && ns[0] != last;
      assert (ns + [n])[1..] == ns[1..] + [n];
    }
  }

  class MessageQueue {
    const msgSize: nat
    const maxMsgs: nat
    const flag: Flag
    const prio: Tid -> nat
    const next: array<int>
    const slots: array<seq<Byte>>
    var head: int
    var tail: int
    var freeHead: int
    var entry: nat
    var receivers: seq<Tid>
    var senders: seq<Tid>
    ghost var free: seq<nat>
    ghost var queue: seq<nat>

    /** Both chains are well formed, disjoint and within the pool. */
    ghost predicate Linked()
      reads this, next
    {
      && next.Length == slots.Length == maxMsgs <= MQ_ENTRY_MAX
      && NoDup(free) && NoDup(queue)
      && (forall n :: n in free ==> n < maxMsgs && n !in queue) && (forall n :: n in queue ==> n < maxMsgs)
      && IsChain(next[..], freeHead, free) && IsChain(next[..], head, queue)
      && tail == (if queue == [] then NIL else queue[|queue| - 1])
    }

    ghost predicate Valid()
      reads this, next
    {
      Linked() && entry == |queue|
    }

    ghost function Abs(): (r: Mq)
      reads this, slots
    {
      Mq(msgSize, maxMsgs, flag, prio, free, queue, slots[..], receivers, senders)
    }

    /** `rt_mq_init`: thread the whole pool onto the free chain. */
    constructor (size: nat, count: nat, f: Flag, p: Tid -> nat)
      requires count <= MQ_ENTRY_MAX
      ensures Valid() && fresh(next) && fresh(slots)
      ensures Abs().msgSize == size && Abs().maxMsgs == count && queue == [] && receivers == [] && senders == []
      ensures free == seq(count, i requires 0 <= i < count => count - 1 - i)
    {
      msgSize, maxMsgs, flag, prio := size, count, f, p;
      next := new int[count];
      slots := new seq<Byte>[count](_ => seq(size, _ => 0));
      head, tail, freeHead, entry := NIL, NIL, NIL, 0;
      receivers, senders := [], [];
      free, queue := [], [];
      new;
      ThreadPool();
    }

    /** The loop of `rt_mq_init`. */
    method ThreadPool()
      requires next.Length == slots.Length == maxMsgs <= MQ_ENTRY_MAX && freeHead == head == tail == NIL
      requires free == [] && queue == []
      modifies this`freeHead, this`free, next
      ensures Linked() && free == seq(maxMsgs, i requires 0 <= i < maxMsgs => maxMsgs - 1 - i)
    {
      var temp := 0;
      while temp < maxMsgs
        invariant temp <= maxMsgs && free == seq(temp, i requires 0 <= i < temp => temp - 1 - i)
        invariant IsChain(next[..], freeHead, free)
      {
        ChainKept(next[..], freeHead, free, temp, freeHead);
        next[temp] := freeHead;
        freeHead := temp;
        free := [temp] + free;
        temp := temp + 1;
      }
    }

    /** First critical section of a send: unlink a free node, or NIL when the queue is full. */
    method TakeFree() returns (msg: int)
      requires Valid()
      modifies this
      ensures Valid() && Abs() == (if old(free) == [] then old(Abs()) else TakeNode(old(Abs())))
      ensures msg == (if old(free) == [] then NIL else old(free)[0])
    {
      msg := freeHead;
      if msg != NIL {
        freeHead := next[msg];
        assert forall n :: n in free[1..] ==> n in free;
        free := free[1..];
      }
    }

    /** `_ipc_list_resume` on the first thread of a list, if there is one. */
    static method ResumeFirst(ws: seq<Tid>) returns (rest: seq<Tid>, woken: seq<Tid>)
      ensures rest == Tail(ws) && woken == if ws == [] then [] else [ws[0]]
    {
      if ws != [] {
        woken, rest := [ws[0]], ws[1..];
      } else {
        woken, rest := [], [];
      }
    }

    /** Second critical section of `_rt_mq_send_wait`. */
    method LinkTail(msg: nat) returns (ok: bool, woken: seq<Tid>)
      requires Valid() && msg < maxMsgs && msg !in free && msg !in queue
      modifies this, next
      ensures Valid() && ok && Abs() == LinkNode(old(Abs()), msg, false)
      ensures woken == if old(receivers) == [] then [] else [old(receivers)[0]]
    {
      EntryBelow(msg);
      AttachTail(msg);
      ok, woken := CountAndResume();
    }

    /** The links of a send. */
    method AttachTail(msg: nat)
      requires Linked() && msg < maxMsgs && msg !in free && msg !in queue
      modifies this`head, this`tail, this`queue, next
      ensures Linked() && queue == old(queue) + [msg]
    {
      ChainKept(next[..], freeHead, free, msg, NIL);
      ChainKept(next[..], head, queue, msg, NIL);
      next[msg] := NIL;
      if tail != NIL {
        ChainAppend(next[..], head, queue, msg);
        ChainKept(next[..], freeHead, free, tail, msg);
        next[tail] := msg;
      }
      tail := msg;
      if head == NIL {
        head := msg;
      }
      queue := queue + [msg];
    }

    /** Second critical section of `rt_mq_urgent`. */
    method LinkHead(msg: nat) returns (ok: bool, woken: seq<Tid>)
      requires Valid() && msg < maxMsgs && msg !in free && msg !in queue
      modifies this, next
      ensures Valid() && ok && Abs() == LinkNode(old(Abs()), msg, true)
      ensures woken == if old(receivers) == [] then [] else [old(receivers)[0]]
    {
      EntryBelow(msg);
      AttachHead(msg);
      ok, woken := CountAndResume();
    }

    /** The links of an urgent send. */
    method AttachHead(msg: nat)
      requires Linked() && msg < maxMsgs && msg !in free && msg !in queue
      modifies this`head, this`tail, this`queue, next
      ensures Linked() && queue == [msg] + old(queue)
    {
      ChainKept(next[..], freeHead, free, msg, head);
      ChainKept(next[..], head, queue, msg, head);
      next[msg] := head;
      head := msg;
      if tail == NIL {
        tail := msg;
      }
      queue := [msg] + queue;
      assert queue[1..] == old(queue);
    }

    /** `entry` is below its limit whenever a node is about to be linked. */
    lemma EntryBelow(msg: nat)
      requires NoDup(queue) && (forall n :: n in queue ==> n < maxMsgs) && msg < maxMsgs && msg !in queue
      ensures |queue| < maxMsgs
    {
      DistinctBelow([msg] + queue, maxMsgs);
    }

    /** The end of both kinds of send: count the message, resume a receiver. */
    method CountAndResume() returns (ok: bool, woken: seq<Tid>)
      requires |queue| == entry + 1 <= maxMsgs <= MQ_ENTRY_MAX
      modifies this`entry, this`receivers
      ensures ok && entry == |queue| && receivers == Tail(old(receivers))
      ensures woken == if old(receivers) == [] then [] else [old(receivers)[0]]
    {
      if entry < MQ_ENTRY_MAX {
        entry := entry + 1;
      } else {
        return false, [];
      }
      receivers, woken := ResumeFirst(receivers);
      ok := true;
    }

    /** First critical section of a receive: unlink the first message, or NIL when there is none. */
    method PopHead() returns (msg: int)
      requires Valid()
      modifies this
      ensures Valid() && Abs() == (if old(queue) == [] then old(Abs()) else Pop(old(Abs())))
      ensures msg == (if old(queue) == [] then NIL else old(queue)[0])
    {
      if entry == 0 {
        return NIL;
      }
      msg := head;
      head := next[msg];
      if tail == msg {
        tail := NIL;
      }
      if entry > 0 {
        entry := entry - 1;
      }
      assert |queue| > 1 ==> queue[|queue| - 1] != queue[0];
      assert forall n :: n in queue[1..] ==> n in queue;
      queue := queue[1..];
    }

    /** Second critical section of a receive. */
    method PutFree(msg: nat) returns (woken: seq<Tid>)
      requires Valid() && msg < maxMsgs && msg !in free && msg !in queue
      modifies this, next
      ensures Valid() && Abs() == FreeNode(old(Abs()), msg)
      ensures woken == if old(senders) == [] then [] else [old(senders)[0]]
    {
      ChainKept(next[..], freeHead, free, msg, freeHead);
      ChainKept(next[..], head, queue, msg, freeHead);
      next[msg] := freeHead;
      freeHead := msg;
      free := [msg] + free;
      assert free[1..] == old(free);
      senders, woken := ResumeFirst(senders);
    }

    /** A sender that found no free node goes to sleep. */
    method SuspendSender(t: Tid)
      requires Valid()
      modifies this`senders
      ensures Valid() && Abs() == QueueSender(old(Abs()), t)
    {
      senders := ListSuspend(flag, prio, senders, t);
    }

    /** A receiver that found no message goes to sleep. */
    method SuspendReceiver(t: Tid)
      requires Valid()
      modifies this`receivers
      ensures Valid() && Abs() == QueueReceiver(old(Abs()), t)
    {
      receivers := ListSuspend(flag, prio, receivers, t);
    }

    /** One byte of the copy that a sender does outside the critical sections. */
    method CopyInByte(msg: nat, i: nat, b: Byte)
      requires Valid() && msg < maxMsgs && i < |slots[msg]|
      modifies slots
      ensures Valid() && Abs() == WriteByte(old(Abs()), msg, i, b)
    {
      slots[msg] := slots[msg][i := b];
    }

    /** One round of the reset loop: the first message goes to the free chain. */
    method FreeHead()
      requires Linked() && queue != []
      modifies this`head, this`tail, this`freeHead, this`free, this`queue, next
      ensures Linked() && queue == old(queue)[1..] && free == [old(queue)[0]] + old(free)
    {
      var msg := head;
      head := next[msg];
      if tail == msg {
        tail := NIL;
      }
      assert |queue| > 1 ==> queue[|queue| - 1] != queue[0];
      assert forall n :: n in queue[1..] ==> n in queue;
      assert queue[0] !in queue[1..] && queue[0] !in free;
      ChainKept(next[..], freeHead, free, msg, freeHead);
      ChainKept(next[..], head, queue[1..], msg, freeHead);
      next[msg] := freeHead;
      freeHead := msg;
      free := [msg] + free;
      assert free[1..] == old(free);
      queue := queue[1..];
    }

    /** `rt_mq_control` with RT_IPC_CMD_RESET. */
    method Reset()
      requires Valid()
      modifies this, next
      ensures Valid() && Abs() == Clear(old(Abs()))
    {
      receivers, senders := [], [];
      while head != NIL
        invariant Linked() && Reversed(queue) + free == Reversed(old(queue)) + old(free)
        invariant receivers == [] && senders == []
        decreases |queue|
      {
        ghost var q, f := queue, free;
        FreeHead();
        assert Reversed(q) + f == Reversed(queue) + free;
      }
      entry := 0;
    }
  }
}
