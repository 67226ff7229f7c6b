# Verified model of the RT-Thread kernel core

This project models five parts of the RT-Thread kernel (`rt-thread-am/src`) in Dafny 4.11 and
proves what they promise. Verify everything with `dafny verify dfyconfig.toml`.

1. **Mutexes with priority inheritance** (`PriorityInheritance`, `MutexProtocol`, `Inversion`,
   `Deadlock`, `MutexCode`). A state gives every thread its base and current priority, its taken list and the
   mutex it waits for, and every mutex its owner, hold count, priority and queue. The invariant
   says that each current priority is the minimum of the base priority and of the priorities of
   all mutexes held, that each mutex carries the priority of the head of its sorted queue, and
   that owners, taken lists, queues and pending pointers agree. Every take, release, sleep, wake
   and thread closing restores it, along blocking chains of any length and even when the wait-for
   relation has a cycle. The recursion of the priority update terminates because each call shrinks
   the finite room left for all priorities to move in, in one direction. From the invariant follow
   the absence of priority inversion along every chain and the exact value of every priority: a
   thread that does not wait for itself runs at the most urgent base priority among itself and
   everybody blocked behind it, whatever deadlocks there are elsewhere. Inside a deadlock this
   holds as well after every operation but the closing of a blocked thread, and for that one the
   exact condition is proved. A blocking take deadlocks the caller exactly when the owner already
   waits, through others, for the caller, and creates no other deadlock. Which outcome a take or
   release has is decided by the owner and the hold count before it. `MutexCode.dfy` has the code on thread and mutex objects.
2. **Message queue** (`MessageState`, `MessageProtocol`, `MessageSafety`, `MessageRefinement`,
   `MessageOrder`, `MessageQueueCode`, with `WaitingOrder`). Each send and receive is two critical sections with a byte-by-byte copy in
   between; threads interleave at every step, time out, retry and reset the queue at will. In all
   runs each pool node is in one place, copies never collide, no wakeup is lost, the overflow
   branch is dead, and the whole is a refinement of an atomic bounded deque: a send takes effect
   when it links its node, a receive when it unlinks one, and what is later copied out is exactly
   the message unlinked. The deque keeps each call's message, urgency or size from the moment the
   call is made, so what is enqueued and delivered is what was asked for; a send finds the queue
   full only when all places are taken, a receive finds it empty only when it is. Over
   all runs the waiting lists stand in order of priority and arrival, or of arrival alone, and a
   thread that is resumed is the first in turn. `MessageQueueCode.dfy` has the linked pool and its critical
   sections.
3. **Timers** (`TimerModel`, `TimerDispatch`, `TimerRuns`, `TimerRounds`, `TimerSkipList`, `TimerCode`). Deadlines
   are unbounded in the model and wrap at 32 bits in the code; the modular comparisons agree with
   the order of deadlines. The search through any number of rows ends where a linear scan of the
   bottom row would, whatever rows a timer is linked into. Unless a timer has a time of zero ticks,
   the dispatch loop terminates although callbacks start, stop, detach and change timers
   arbitrarily (a `Script` is any behaviour); with zero times, exactly when it does is proved. It
   fires due timers once and in order and skips none that is still armed. Over a run of any number
   of ticks an undisturbed periodic timer fires at s + k * init and at no other tick.
4. **Memheap** (`MemheapModel`, `MemheapSafety`, `MemheapRealloc`, `MemheapRuns`,
   `MemheapPeak`, `MemheapAligned`, `MemheapOutcome`, `MemheapCode`). Blocks tile the
   pool, free neighbours are always merged, the free list holds exactly the free blocks, and the
   byte accounting is exact, through allocation, release and every branch of reallocation. First
   fit fails exactly when nothing fits or when the request equals all available bytes; releasing
   an allocation restores the block structure; reallocation preserves contents and disturbs no
   other live block. Over a run of any length a block nobody names keeps its bytes, and when all
   blocks are given back the heap is whole again; the recorded maximum is exactly the most bytes
   ever in use. In an aligned pool every header and every pointer handed out is aligned. When
   each kind of call succeeds, in place or by moving, and how large the block then is, is said
   exactly. `MemheapCode.dfy` has the header links and the search and copy loops.
5. **Events** (`Event`, `EventOrder`, with `WaitingOrder`). A send serves the waiters as if each
   asked again in queue order, which over all runs is the order of priority and arrival, and no
   state that calls can reach leaves a waiter whose condition holds. Which bits each call sets,
   clears and returns is said without the order of evaluation.

`OrderedList` holds the list operations they share, `KernelTypes` their common types and
`Arithmetic` facts on multiples and powers. In each part the code is a class updated in
place whose methods are proved equal to functions on a plain state, and the promises are lemmas
about those functions and about runs built from them. An interrupt-disabled region is one atomic
step; the scheduler call at the end of an operation is not modelled.

## Where the code and its comments differ

- `rt_memheap_alloc` is documented to return NULL when no free memory is found. It also returns
  NULL when a free block fits but the aligned request equals `available_size`, because the test at
  memheap.c:201 is strict: with a fitting block it fails exactly then
  (`MemheapRealloc.AllocRefusesLast`), and a fresh heap is such a case (`FreshRefusesAll`).
- `rt_timer_init` and RT_TIMER_CTRL_SET_TIME accept a time of 0 ticks, which makes a timer due as
  soon as it is started. With callbacks that do nothing, `rt_timer_check` ends if and only if no
  due timer is periodic with a period of 0 (`TimerRounds.IdleRests`). It ends under all callbacks
  that set no zero time if and only if nothing is due or no timer has a zero time
  (`TimerRounds.RestsUnlessZero`), and under all callbacks whatever only when nothing is due
  (`TimerRounds.RestsUnderAll`). The results on firing times are for `init_tick` of at least 1
  (`TimerModel.Positive`).
- Priority inheritance cannot always undo a boost inside a deadlock. Threads can reach, by five
  takes, a state in which two of them wait for each other and a third has boosted both
  (`Deadlock.DeadlockReached`); closing the third leaves the boost (`Deadlock.DeadlockKeepsBoost`).
  An operation on a state with exact priorities leaves them exact if and only if it does not close
  a blocked thread that is the only source of the priority of a deadlocked thread before it
  (`Deadlock.StepExact`). The inheritance equation itself always holds.

## Model

| member | source | states |
|---|---|---|
| OrderedList.InsertKeeps | rt-thread-am/src/ipc.c:146-173 | inserting by priority keeps a sorted queue sorted and duplicate-free, adds exactly the new thread, and the head is the more urgent of the old head and the newcomer |
| OrderedList.InsertStable | rt-thread-am/src/ipc.c:146-173 | insertion behind equals: the newcomer stands behind exactly those that are not later, equal ones included, and the others keep their order |
| OrderedList.MoveKeeps | rt-thread-am/src/ipc.c:806-812 | a waiter whose priority changed is moved to its right place; the queue keeps its members |
| WaitingOrder.ListSuspend | rt-thread-am/src/ipc.c:125-184 | the search loop is insertion by priority, or at the end of a FIFO list |
| WaitingOrder.SuspendKeeps | rt-thread-am/src/ipc.c:125-184 | whoever arrives last finds the place that keeps the list in order: by arrival in a FIFO list, by priority and among equals by arrival in the other kind |
| PriorityInheritance.UpdateStep | rt-thread-am/src/ipc.c:786-834 | one level of the recursion leaves only the owner of the mutex possibly unsettled, moves priorities in one direction only and strictly shrinks the room they can move in |
| PriorityInheritance.UpdateRestores | rt-thread-am/src/ipc.c:786-834 | the recursive update re-establishes the inheritance equation for all threads on chains of any length, cyclic or not, and changes nothing but priorities and queue orders |
| PriorityInheritance.HeadMoves | rt-thread-am/src/ipc.c:745-760 | the priority of a mutex follows its most urgent waiter |
| PriorityInheritance.OwnerUrgent | rt-thread-am/src/ipc.c:763-783 | an owner is at least as urgent as the mutex it holds and as every waiter for it |
| MutexProtocol.BlockRaises | rt-thread-am/src/ipc.c:1232-1264 | after queueing, either everything is settled or the update of the owner with the waiter's priority is exactly the one due |
| MutexProtocol.TakeKeeps | rt-thread-am/src/ipc.c:1159-1342 | whatever its outcome, a take keeps the invariant, makes nobody less urgent and leaves everybody else's state alone; a blocked caller waits behind an owner at least as urgent; full and busy change nothing |
| MutexProtocol.TakeOutcomes | rt-thread-am/src/ipc.c:1185-1264 | the state before decides the outcome: done if and only if the mutex is free or held by the caller below the limit, full if and only if the caller has reached the limit, busy or blocked if and only if somebody else owns it and the caller may not or may wait; a success makes the caller owner, once or once more, and changes nothing else |
| MutexProtocol.TakeWaits | rt-thread-am/src/ipc.c:1232-1264 | a caller that has to wait joins the one queue; owners, hold counts and the members of all other queues stay |
| MutexProtocol.QueuedBehind | rt-thread-am/src/ipc.c:1242-1246 | it stands behind exactly the waiters that are not less urgent, and the others keep their order |
| MutexProtocol.ReleaseHandsOver | rt-thread-am/src/ipc.c:1402-1516 | release fails exactly for a caller that is not the owner; a nested one only counts down; a last one keeps the invariant, hands the mutex to the head of the queue, who is the most urgent waiter, and changes no priority but the caller's |
| MutexProtocol.TakeReleaseRoundTrip | rt-thread-am/src/ipc.c:1185-1222 | a take that succeeds, first or nested, is undone exactly by a release |
| MutexProtocol.DropLowers | rt-thread-am/src/ipc.c:942-981 | reconsidering the owner only when it runs at the dropped waiter's priority misses no change |
| MutexProtocol.CloseKeeps | rt-thread-am/src/thread.c:413-456 | detaching any thread, whatever it waits for or holds, keeps the invariant, takes it out of every queue and only lowers urgency; what it holds stays taken |
| MutexProtocol.StepKeeps | rt-thread-am/src/ipc.c:1159-1516 | every enabled operation of any thread keeps the invariant |
| MutexProtocol.RunKeeps | rt-thread-am/src/ipc.c:1159-1516 | the inheritance equation and all links hold after any sequence of operations |
| MutexProtocol.InitialInv | rt-thread-am/src/ipc.c:856-879 | a fresh system satisfies the invariant |
| Inversion.NoInversion | rt-thread-am/src/ipc.c:786-834 | the last thread of any blocking chain is at least as urgent as the first |
| Inversion.ExactPriority | rt-thread-am/src/ipc.c:763-834 | a thread that does not wait for itself runs at exactly the most urgent base priority among itself and all threads blocked behind it, whatever happens elsewhere |
| Inversion.ReachableExact | rt-thread-am/src/ipc.c:1159-1516 | the same, for every such thread in every state that threads can reach from a fresh start |
| Inversion.TakeDeadlocks | rt-thread-am/src/ipc.c:1232-1264 | in any state, a blocking take puts the caller on a cycle if and only if the owner already waits, through others, for the caller |
| Inversion.TakeCycles | rt-thread-am/src/ipc.c:1232-1264 | it puts a thread on a cycle if and only if that thread was on one before or is on the way from the owner to the caller |
| Deadlock.UpdateRaises | rt-thread-am/src/ipc.c:786-834 | an upward update gives everybody it changes the same priority, and only those whom its starting thread waits for, directly or through others |
| Deadlock.BlockExact | rt-thread-am/src/ipc.c:1232-1264 | a blocking take keeps all priorities exact, even when it closes a cycle |
| Deadlock.ReleaseExact | rt-thread-am/src/ipc.c:1440-1510 | a last release keeps all priorities exact, deadlocks elsewhere included |
| Deadlock.UpdateLowers | rt-thread-am/src/ipc.c:786-834 | a downward update never changes a thread on a cycle |
| Deadlock.CloseExactWhen | rt-thread-am/src/ipc.c:942-981 | closing a thread leaves every priority exact if and only if each thread on a cycle without it has its priority from a chain without it |
| Deadlock.StepExact | rt-thread-am/src/ipc.c:1159-1516 | in an exact state, any operation leaves every priority exact if and only if it is harmless: it does not close the only source of a deadlocked thread's priority |
| Deadlock.RunExact | rt-thread-am/src/ipc.c:1159-1516 | all priorities are exact after any run of harmless operations, deadlocks or not |
| Deadlock.ReachableExactInDeadlock | rt-thread-am/src/ipc.c:1159-1516 | the same for every run from a fresh start, with nothing assumed about priorities |
| Deadlock.DeadlockReached | rt-thread-am/src/ipc.c:1202-1264 | five takes lead from rest to two deadlocked threads boosted by a third |
| Deadlock.DeadlockKeepsBoost | rt-thread-am/src/ipc.c:942-981 | in that state all priorities are exact, and closing the third thread leaves a boost nobody justifies |
| MutexCode.Kernel.ListSuspend | rt-thread-am/src/ipc.c:125-184 | the queue search and insertion on objects is ordered insertion behind equals |
| MutexCode.Kernel.MutexUpdatePriority | rt-thread-am/src/ipc.c:745-760 | the mutex gets the priority of the head of its queue, or 0xff |
| MutexCode.Kernel.ThreadGetMutexPriority | rt-thread-am/src/ipc.c:763-783 | the loop returns the minimum of the base priority and all held mutex priorities |
| MutexCode.Kernel.ThreadUpdatePriority | rt-thread-am/src/ipc.c:786-834 | the recursive update on objects is the update function, and it terminates |
| MutexCode.Kernel.MutexTake | rt-thread-am/src/ipc.c:1159-1284 | take on objects is the take function, with its outcome |
| MutexCode.Kernel.MutexRelease | rt-thread-am/src/ipc.c:1402-1516 | release on objects is the release function, with its outcome |
| MutexCode.Kernel.MutexDropThread | rt-thread-am/src/ipc.c:942-981 | dropping a waiter on objects is the drop function |
| MutexCode.Kernel.ThreadClose | rt-thread-am/src/thread.c:435-448 | the mutex part of detaching a thread is the close function |
| MessageSafety.PoolStep | rt-thread-am/src/ipc.c:3181-3788 | no step of any thread loses a pool node, frees one twice or gives one to two threads |
| MessageSafety.WaitersStep | rt-thread-am/src/ipc.c:3228-3343 | the two waiting lists hold exactly the waiting threads, once each |
| MessageSafety.DataStep | rt-thread-am/src/ipc.c:3295-3305 | copies outside the critical sections never collide: what a sender has copied stays, what a receiver copies is what it popped |
| MessageSafety.WakeStep | rt-thread-am/src/ipc.c:3581-3690 | while a receiver waits, available messages are at most the resumed receivers not yet run; dually for senders and free nodes |
| MessageSafety.InvRun | rt-thread-am/src/ipc.c:3181-3788 | all of these hold after every interleaving of any number of steps |
| MessageSafety.InitialInv | rt-thread-am/src/ipc.c:2909-2966 | a fresh queue satisfies them |
| MessageSafety.LinkNeverFull | rt-thread-am/src/ipc.c:3317-3326 | the overflow branch behind the copy is unreachable and the count grows by one |
| MessageSafety.NoLostWakeup | rt-thread-am/src/ipc.c:3228-3343 | at rest receivers wait only for an empty queue and senders only for a full one, so never both |
| MessageRefinement.StepRefines | rt-thread-am/src/ipc.c:3228-3330 | each step is one step of an atomic bounded deque or invisible: a send gets a place unless all are taken and later appends the very message it was called with, or prepends it when it was urgent; a receive pops the front unless there is none and later hands out as many of its bytes as it was called for; waiting calls, retries and refusals keep or drop what they asked for |
| MessageRefinement.PoolCount | rt-thread-am/src/ipc.c:3224-3330 | free nodes, queued messages, messages being prepared and messages being handed out add up to the pool |
| MessageRefinement.RunRefines | rt-thread-am/src/ipc.c:3181-3788 | the events of every run, refusals included, are those of the bounded deque, ending in its contents |
| MessageOrder.OrderedRun | rt-thread-am/src/ipc.c:3181-3788 | after every interleaving both waiting lists are in order of priority and then arrival, or of arrival alone |
| MessageOrder.LinkResumesFirst | rt-thread-am/src/ipc.c:3332-3343 | a completed send resumes the receiver whose turn it is: no waiting receiver is more urgent, and none as urgent has waited longer |
| MessageOrder.PutBackResumesFirst | rt-thread-am/src/ipc.c:3676-3690 | a completed receive resumes the sender whose turn it is |
| MessageQueueCode.ChainAppend | rt-thread-am/src/ipc.c:3309-3315 | linking a node behind the tail appends it to the chain |
| MessageQueueCode.MessageQueue.constructor | rt-thread-am/src/ipc.c:2909-2966 | the init loop puts every node on the free chain, last first |
| MessageQueueCode.MessageQueue.TakeFree | rt-thread-am/src/ipc.c:3224-3298 | unlinking the first free node, or none |
| MessageQueueCode.MessageQueue.LinkTail | rt-thread-am/src/ipc.c:3300-3343 | head, tail, links and count append the node; the first receiver is resumed; the call succeeds |
| MessageQueueCode.MessageQueue.LinkHead | rt-thread-am/src/ipc.c:3475-3510 | the same at the front for an urgent message |
| MessageQueueCode.MessageQueue.PopHead | rt-thread-am/src/ipc.c:3650-3663 | unlinking the first message keeps head, tail and count in agreement |
| MessageQueueCode.MessageQueue.PutFree | rt-thread-am/src/ipc.c:3671-3690 | the node returns to the free chain and the first sender is resumed |
| MessageQueueCode.MessageQueue.SuspendSender | rt-thread-am/src/ipc.c:3243-3252 | a sender that finds no free node goes to its place in the senders' list |
| MessageQueueCode.MessageQueue.SuspendReceiver | rt-thread-am/src/ipc.c:3598-3607 | a receiver that finds no message goes to its place in the receivers' list |
| MessageQueueCode.MessageQueue.Reset | rt-thread-am/src/ipc.c:3748-3783 | the reset loop moves every queued node to the free chain and empties the waiting lists |
| TimerSkipList.CompareAgrees | rt-thread-am/src/timer.c:468-475 | 32-bit modular comparison of two timeouts agrees with the order of their deadlines across wrap-around |
| TimerSkipList.DueAgrees | rt-thread-am/src/timer.c:672 | the modular due test agrees with the order of deadline and time |
| TimerSkipList.FilterNested | rt-thread-am/src/timer.c:485-496 | every row is the row below with some timers left out, in the same order |
| TimerSkipList.FilterInsert | rt-thread-am/src/timer.c:482-496 | inserting in deadline order into the bottom row is inserting in deadline order into every row reached |
| TimerSkipList.FilterRemove | rt-thread-am/src/timer.c:188-196 | unlinking from the bottom row is unlinking from every row |
| TimerCode.TimerService.Search | rt-thread-am/src/timer.c:447-480 | for any number of rows, the descending search stops in each row exactly where a linear scan of that row would, behind all timers due no later |
| TimerCode.TimerService.RowsLink | rt-thread-am/src/timer.c:482-496 | the timer enters the bottom row, and a further row exactly when the counter is a multiple of the power of MASK + 1 for that row, at the positions found; the counter advances by one and wraps |
| TimerCode.TimerService.TimerRemove | rt-thread-am/src/timer.c:188-196 | the timer leaves all rows, or the local list |
| TimerCode.TimerService.TimerStart | rt-thread-am/src/timer.c:407-498 | start on the rows is ordered insertion by deadline in the model; the rows stay consistent |
| TimerCode.TimerService.TimerStop | rt-thread-am/src/timer.c:533-560 | stop fails exactly for an inactive timer and otherwise unlinks and deactivates it |
| TimerCode.TimerService.TimerDetach | rt-thread-am/src/timer.c:290-311 | detach unlinks and deactivates in any state |
| TimerCode.TimerService.TimerCheck | rt-thread-am/src/timer.c:647-714 | the dispatch loop with its modular test is the rounds of the model, for any callbacks and times with which it comes to rest |
| TimerCode.TimerService.TickIncrease | rt-thread-am/src/clock.c:91-127 | a tick advances the wrapped counter and dispatches, for any times and callbacks with which the check comes to rest |
| TimerModel.StartKeeps | rt-thread-am/src/timer.c:407-498 | starting a timer, of any time, keeps the list sorted and sound; the timer is due at once exactly when its time is zero |
| TimerModel.StartDoes | rt-thread-am/src/timer.c:432-498 | a started timer is due its time from now and stands behind exactly the timers due no later, equal ones included; nothing else changes |
| TimerModel.OthersDo | rt-thread-am/src/timer.c:290-590 | detach always, and stop exactly when active, takes the timer out of its list and deactivates it; setting a time changes that time alone |
| TimerModel.DoKeeps | rt-thread-am/src/timer.c:407-560 | with times of at least one tick, no operation makes a timer due at once |
| TimerDispatch.DispatchKeeps | rt-thread-am/src/timer.c:662-707 | a round keeps the list sound for any callback and times; without zero times it uses up a due timer and no callback can create another, so the loop terminates |
| TimerDispatch.CheckRests | rt-thread-am/src/timer.c:647-714 | after the check no due timer is left |
| TimerDispatch.FiresInOrder | rt-thread-am/src/timer.c:647-714 | everything that fires was due when the check began, fires once, at the current tick and in list order |
| TimerRounds.CheckRounds | rt-thread-am/src/timer.c:662-707 | without zero times the loop comes to rest after some number of rounds, in the state the check function gives |
| TimerRounds.IdleRests | rt-thread-am/src/timer.c:662-707 | with callbacks that do nothing, the loop ends if and only if no due timer is periodic with a zero period |
| TimerRounds.ZeroPeriodSpins | rt-thread-am/src/timer.c:696-705 | started while nothing is due, a timer of zero ticks makes the check spin if and only if it is periodic |
| TimerRounds.RestsUnlessZero | rt-thread-am/src/timer.c:662-707 | the loop ends under all callbacks that set no zero times if and only if nothing is due or no timer has a zero time |
| TimerRounds.RestsUnderAll | rt-thread-am/src/timer.c:587-590 | the loop ends under all callbacks whatever if and only if nothing is due |
| TimerRounds.NothingSkipped | rt-thread-am/src/timer.c:647-714 | whenever the check comes to rest, zero times included, a due timer fires unless a callback of the same check operated on it first |
| TimerRuns.CallbackDecides | rt-thread-am/src/timer.c:679-705 | a fired timer is armed again exactly when its callback last started it, or when it is periodic and its callback neither started, stopped nor detached it |
| TimerRuns.CheckUndisturbed | rt-thread-am/src/timer.c:674-705 | an undisturbed timer fires once if due, not at all otherwise, and is re-armed exactly when periodic |
| TimerRuns.RunRests | rt-thread-am/src/clock.c:91-127 | over any run without zero times nothing due is ever left over |
| TimerRounds.RestingRunRests | rt-thread-am/src/clock.c:91-127 | the same for every run whose checks come to rest, zero times included |
| TimerRounds.RunComesToRest | rt-thread-am/src/clock.c:91-127 | without zero times every check of a run comes to rest, and the two kinds of run agree |
| TimerRuns.PeriodicFires | rt-thread-am/src/timer.c:672-705 | an undisturbed periodic timer fires at its deadline and every period after it, and at no other tick |
| TimerRuns.StartedPeriodicFires | rt-thread-am/src/timer.c:432 | started at s, it fires at s + k * init for every k |
| TimerRuns.OneShotFires | rt-thread-am/src/timer.c:679-682 | an undisturbed one-shot timer fires exactly once, at its deadline |
| MemheapSafety.CarveKeeps | rt-thread-am/src/memheap.c:231-311 | taking a block, split or whole, keeps tiling, merging, free list and accounting |
| MemheapSafety.ReleaseKeeps | rt-thread-am/src/memheap.c:646-714 | release with all its merges keeps them |
| MemheapRealloc.BlocksApart | rt-thread-am/src/memheap.c:87-140 | live payloads overlap no header and stay within the pool |
| MemheapRealloc.AllocGives | rt-thread-am/src/memheap.c:184-347 | a success returns a formerly free block with room for the rounded request and leaves every live block as it was; a failure changes nothing |
| MemheapRealloc.RequestMeans | rt-thread-am/src/memheap.c:194-197 | what is really asked for is the least multiple of the alignment that covers the request and 12 bytes |
| MemheapOutcome.AllocTakes | rt-thread-am/src/memheap.c:218-336 | a success takes the first block of the free list that is large enough; what is left over becomes a free block exactly when it holds the minimum payload, else the whole block is handed out; free list and available bytes follow |
| MemheapRealloc.AllocFails | rt-thread-am/src/memheap.c:201-229 | allocation fails exactly when no free block is large enough or the request reaches all available bytes |
| MemheapRealloc.AllocRefusesLast | rt-thread-am/src/memheap.c:201 | although a block fits, allocation fails exactly when the request equals the available size |
| MemheapRealloc.FreshRefusesAll | rt-thread-am/src/memheap.c:201 | a fresh heap refuses a request for exactly its one free block |
| MemheapRealloc.AllocReleaseRoundTrip | rt-thread-am/src/memheap.c:184-714 | releasing an allocation restores blocks, their status and the accounting |
| MemheapRealloc.ReleaseOthers | rt-thread-am/src/memheap.c:646-694 | release leaves every other live block in place and size |
| MemheapOutcome.ReleaseGives | rt-thread-am/src/memheap.c:646-714 | a release gives back the payload and a header for each neighbour merged with; a block not merged to the left becomes the head of the free list |
| MemheapRealloc.GrowKeeps | rt-thread-am/src/memheap.c:429-486 | growth into the free right neighbour keeps the invariant |
| MemheapRealloc.ShrinkKeeps | rt-thread-am/src/memheap.c:506-579 | shrinking, with or without a merge to the right, keeps the invariant |
| MemheapRealloc.MoveGives | rt-thread-am/src/memheap.c:490-503 | moving a block carries its bytes over and touches no other block; a failed move changes nothing |
| MemheapRealloc.ReallocKeeps | rt-thread-am/src/memheap.c:362-589 | for a block, every branch of realloc keeps the invariant, returns a block with room that starts with the old contents, and leaves all other live blocks' place, size and bytes alone; a null result for a nonzero size changes nothing |
| MemheapOutcome.ReallocNone | rt-thread-am/src/memheap.c:370-386 | without a block it succeeds if and only if the size is not zero, some free block fits the rounded request and that is below the available bytes; then it hands over a formerly free block |
| MemheapOutcome.ReallocSome | rt-thread-am/src/memheap.c:379-589 | with a block: the same block at exactly the rounded size when it shrinks past the threshold or grows into a free neighbour with room, the block unchanged below the threshold, otherwise another block if and only if an allocation would succeed |
| MemheapOutcome.ReallocRest | rt-thread-am/src/memheap.c:425-579 | a resize in place leaves a free block behind the payload at the head of the free list; the bytes change sides and only a new block costs a header |
| MemheapRuns.RunKeeps | rt-thread-am/src/memheap.c:184-725 | tiling, merging, free list and accounting hold after any sequence of calls by callers that use only what they own |
| MemheapRuns.BlockSurvives | rt-thread-am/src/memheap.c:184-725 | over any such run, stores included, a live block no call is about keeps its place, its size and every byte |
| MemheapPeak.PeakIsMaximum | rt-thread-am/src/memheap.c:286-298 | any call, reallocation included, sets the recorded maximum to the maximum of the old one and of the bytes in use at all its moments |
| MemheapPeak.RunPeak | rt-thread-am/src/memheap.c:286-298 | over any run the recorded maximum is exactly the most bytes in use at any moment, those inside a moving reallocation included |
| MemheapRuns.AllGivenBack | rt-thread-am/src/memheap.c:646-694 | whatever happened in between, once every block is given back the blocks, the free list and the available bytes are those of a fresh heap |
| MemheapAligned.FreshAligned | rt-thread-am/src/memheap.c:75-90 | a fresh pool of any size is aligned when its header size is |
| MemheapAligned.RunAligned | rt-thread-am/src/memheap.c:184-725 | every header stays aligned over any run |
| MemheapAligned.PointersAligned | rt-thread-am/src/memheap.c:184-589 | after any run, every pointer that allocation or reallocation returns is aligned |
| MemheapCode.InsertLinked | rt-thread-am/src/memheap.c:263-274 | the four link assignments insert an entry into a circular list |
| MemheapCode.CutLinked | rt-thread-am/src/memheap.c:42-50 | the two link assignments remove an entry from a circular list |
| MemheapCode.Memheap.constructor | rt-thread-am/src/memheap.c:75-150 | initialisation rounds the pool size down and leaves the fresh heap, one free block and the used tail, correctly linked |
| MemheapCode.Memheap.FindFit | rt-thread-am/src/memheap.c:218-232 | the search loop finds the first block of the free list that fits |
| MemheapCode.Memheap.RtAlloc | rt-thread-am/src/memheap.c:184-347 | allocation on the links is the allocation function |
| MemheapCode.Memheap.RtFree | rt-thread-am/src/memheap.c:598-725 | release on the links is the release function |
| MemheapCode.Memheap.RemoveNextPtr | rt-thread-am/src/memheap.c:42-50 | a free block leaves ring and free list |
| MemheapCode.Memheap.GrowBlock | rt-thread-am/src/memheap.c:429-486 | in-place growth on the links is the growth function |
| MemheapCode.Memheap.ShrinkMerge | rt-thread-am/src/memheap.c:528-571 | shrinking into a free neighbour on the links moves the boundary |
| MemheapCode.Memheap.ShrinkSplit | rt-thread-am/src/memheap.c:528-571 | shrinking beside a used neighbour on the links splits the block |
| MemheapCode.Memheap.CopyPayload | rt-thread-am/src/memheap.c:499 | the copy moves the payload bytes and no others |
| MemheapCode.Memheap.RtRealloc | rt-thread-am/src/memheap.c:362-589 | reallocation on the links is the reallocation function |
| Event.ServeLeavesNone | rt-thread-am/src/ipc.c:1784-1841 | after a send no remaining waiter is satisfied: those passed over cannot become so by later clears |
| Event.ServePartition | rt-thread-am/src/ipc.c:1784-1841 | one marking of the queue tells those who remain, in order, from those who are served, in order: each gets the bits it asked for out of what those before it left, all of them if it needs them all; what remains set is what was set without what the served ones clear |
| Event.SatisfiedMeans | rt-thread-am/src/ipc.c:1921-1937 | an AND waiter needs all the bits it asked for, an OR waiter any of them |
| Event.RecvDoes | rt-thread-am/src/ipc.c:1921-1989 | a receive takes away exactly the bits it asked for, and only when it succeeds with the clear option; it joins the waiters exactly when it fails and may wait |
| Event.SendDoes | rt-thread-am/src/ipc.c:1761-1851 | a send adds its bits, without those that the waiters it serves clear, and keeps the others waiting |
| Event.LeaveDoes | rt-thread-am/src/thread.c:127-152 | a timeout takes one entry of its waiter out of the list and changes no bit |
| EventOrder.OrderedRun | rt-thread-am/src/ipc.c:1761-2017 | over every run the waiters stand in order of priority and then arrival, or of arrival alone |
| EventOrder.ServedInTurn | rt-thread-am/src/ipc.c:1784-1841 | a send serves them in that order |
| Event.ServeOne | rt-thread-am/src/ipc.c:1794-1832 | clearing the bits an OR waiter received clears the same as clearing those it asked for |
| Event.ReachableNone | rt-thread-am/src/ipc.c:1761-2017 | after any sequence of sends, receives, timeouts and resets from an empty event set, every AND waiter lacks a bit and every OR waiter lacks all |
| Event.EventObject.Send | rt-thread-am/src/ipc.c:1761-1851 | a send serves the waiters as if each asked again, in queue order, and leaves none satisfied |
| Event.EventObject.Recv | rt-thread-am/src/ipc.c:1887-2017 | receive returns the bits, waits or times out by the condition, clears what it asked for exactly when it succeeds with the clear option, and keeps every waiter unsatisfied |
| Event.EventObject.Leave | rt-thread-am/src/thread.c:127-152 | a waiter whose timer ran out leaves the list, and still no waiter's condition holds |

## Left out

- WaitingOrder.SuspendKeeps: the priority of a thread is fixed while it waits for messages or events; the source does not re-sort those lists when it changes.
- MemheapAligned.PointersAligned: alignment is counted from the start of the pool, whose own address is not part of this model.
- Mutex timeouts greater than 0, priority ceilings, mutex detach and delete, user priority changes: the inheritance equation is not kept there (the error path at ipc.c:1295-1336 leaves `pending_object` set, the hand-over at ipc.c:1466-1501 applies no ceiling).
- The ready queue and bitmap updates inside `rt_thread_control` and `rt_thread_resume`; a resumed thread is only marked runnable. Both schedulers are not part of this model.
- Timers with `init_tick` of RT_TICK_MAX/2 or more, late checks and `rt_tick_set`, which can leave the window in which modular comparison is meaningful; timers are checked on every tick.
- The soft timer thread, switching a timer between periodic and one-shot, and reading back its state.
- Delivery of a timer callback is atomic with its operations, as interrupts stay disabled for hard timers.
- MessageSafety.WakeStep: timeouts, retries and resets are covered, signals and interruptible waits are not.
- Time itself in the message queue: whether a retry has expired is a free choice of each step.
- MessageQueueCode.dfy shows single critical sections on the linked pool; interleaving them is the subject of MessageProtocol.dfy, which uses the same functions.
- Mailbox, semaphore and memory-pool operations, and the slab and small-memory allocators.
- The memheap's lock, magic numbers and memory tracing; headers are kept beside the payload bytes, and that no header lies in a live payload is proved (`MemheapRealloc.BlocksApart`).
- RT_MEMHEAP_BEST_MODE, sizes beyond the signed 32-bit local at memheap.c:432, and overflow in rounding up a request.
- `rt_memheap_free` of an address that is no live block: the source asserts on it.
- Event bits are sets of bit numbers, so the 32-bit width does not appear; an option with neither AND nor OR is an assertion failure in the source.
