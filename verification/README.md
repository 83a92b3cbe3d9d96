# Verified model of the coronet runtime

coronet runs C++20 coroutines on event-loop threads. Its synchronisation
objects are a stack of small protocols over intrusive lists, each built on the
one below, and its scheduler is a ring with wrapping cursors, some fallback
queues and a coalesced wakeup. This project models those protocols in Dafny and
proves what each promises to the next one.

## How the model is organised

Most components have three layers, in this order inside one file, and a fourth
in a file of its own.

* **Values.** What one atomic access, one critical section or one call does to
  the shared words and lists, as functions on values (`MutexWords`, `CvLists`,
  `ChannelRing`, `SharedWord`, `SemaphoreLists`, `SpscRing`, `WorkerQueues`,
  `EpollQueue`, `TimerQueue`, `FramePools`).
* **Protocol.** A state machine with any number of coroutines, threads or
  children: `Enabled` says when a step may happen, `Apply` what it does, built
  from the functions of the first layer. `Runs` and `Exec` are runs of any
  length, and the main results are about every run. Histories (who was granted
  what, what was inserted, how often something was destroyed) are components of
  the state that no step reads.
* **Heap.** Classes with the program's fields and loops: nodes linked by `next`,
  in-place reversals, slot arrays, cursors. Every method states its whole effect
  with the same functions of the first layer, so the two descriptions can not
  drift apart.
* **Trace.** What a run comes to, computed from its list of steps without the
  protocol's program counters and histories (`ChannelTrace`, `CvTrace`,
  `SemaphoreTrace`, `RefCountTrace`, `WorkerTrace`, `WhenAllTrace`, `WhenSomeTrace`;
  `WakeupTrace` and `TimerTrace` also look at what the steps met in the queues):
  ledgers, logs and replays that every run of the protocol is proved to agree with.
  The mutex and the shared task have instead a law of what one undisturbed call
  comes to, with a bound on its steps, and the generator and the task a second
  meaning of their bodies, by what comes after them.

The granularity is one atomic access per step for the mutex, the shared task
and the wakeup path; lock, body, unlock and notification are separate steps of
the channel; a notification of a condition variable, and `await_ready`,
`await_suspend` and `release` of the semaphore, are one step each.

The condition variable and the channel stand on `FifoLock`, the abstract lock
with an owner and a queue; `MutexProtocol.RunRefines` proves that the mutex is
one. A number in `MutexProtocol` is one attempt to lock, that is, one awaiter
object: a notification registers with the mutex on behalf of the sleeping
coroutine, and its steps are those of that attempt whichever thread takes them.
A number is likewise one `acquire` of the semaphore and one `co_await` of the
shared task; the coroutines of the channel and of the condition variable go
round as often as they like.
In the channel and condition-variable machines the coroutine that runs the
predicate wait hands its result back to the waiting coroutine while the mutex is
still held (include/coronet/detail/trivial_task.hpp:86-120); the hand-back is
part of the step that finds the predicate true.

Machine integers are unbounded except where their width is the point: the ring
cursors and the countdown of `all` wrap at 2^32, and so does the reference count
of a shared task. Handle variables live outside all frames or in one, as locals
or inside its result, and end with it. Atomic accesses are sequentially consistent. A weak
compare-and-swap may fail although the values agree (`spurious`). Answers of the
kernel, of the system allocator and of the clock are parameters of the steps.

## What is proved

* The mutex refines a first-in first-out lock: one owner, no waiter lost or
  doubled, nobody barges in, and a waiter with `k` ahead owns the lock after
  exactly `k + 1` unlocks. A `lock` once begun is registering, queued or holding
  until its unlock completes; an unlock takes at most four accesses.
* With a condition variable on top every coroutine is in exactly one place,
  `notify_one` moves the oldest waiter, `notify_all` moves everybody once, and
  a waiter that saw its predicate false is listed before the mutex is free and
  does not come back before a later check that did not fail.
* A channel delivers the items its putters were asked to put, in order, each
  operation passing its critical section once, and never has more sleepers than the counting
  bound accounts for; it can not come to rest with a taker asleep beside an item
  or a putter beside a free slot, for any capacity of at least one, unless an
  element throws in a critical section.
* Iterating a generator yields the recursive flattening of its nested bodies,
  exceptions included; running tasks by parent handles gives the outcome of
  direct recursive evaluation and runs each body at most once.
* A shared task starts once and wakes each waiter once, and an undisturbed
  `co_await` starts it, joins or proceeds within six accesses; its reference count
  is the number of its handles, wherever they are kept, and each variable holds what
  the operations on it put there.
* The ring answers any sequence of operations as a bounded queue does, wherever
  the 32-bit cursors wrap; the worker conserves handles; cross-thread wakeups
  are not lost unless the ring overflows.
* The semaphore's units add up; `all`, `any` and `some` resume their caller once
  and with the right results; timers fire in order, not early and not unattended;
  pooled frames are never handed out twice.

Where the code does less than one might read into it, the model follows the
code and says exactly when it holds:

* **Ring overflow.** A handle that does not fit in the ring goes to the cross
  queue without a wakeup (src/coronet/detail/worker_meta.cpp:151-160), although
  the comment there says that the drain will move it. If the cross queue was
  empty, the loop can park with it: `ParkedWithWorkIffStranded` gives the exact
  condition and `OverflowStrands` a run for every ring size.
* **Order under overflow.** The ring resumes handles in the order they were
  forwarded as long as each finds room; it accepts every call if and only if each
  does (`ForwardingOrder`), and for every ring size an overflowed handle can be
  overtaken by a later one (`OverflowReorders`).
* **A lone yield.** A coroutine that yields when nothing else is ready waits in
  the deferred queue while the loop blocks in its wait. A parked loop holds
  exactly the coroutines that yielded since its deferred loop last ended
  (`ParkedWithYieldedIff`); `YieldParks` is a run in which there is one.
* **Late timers.** Completion order is deadline order if and only if no entry is
  pushed with a deadline before that of an entry the worker has taken out
  already (`InOrderIffOnTime`). That holds when the clock is read and the entry
  pushed in one go; the code reads the clock before it takes the lock
  (include/coronet/platform/iocp/iocp_win_io.hpp:604-607), and `LateBreaksOrder`
  is a run in which that matters.
* **Assigning handles.** Both assignment operators give the old handle back before
  they read the source. If that destroys the frame in which the source or the
  destination lives, a variable is used after it has ended: `t = t.result().next`
  with `t` the last handle of its frame (`AdvancingIsUnsafe`). An assignment is
  right if and only if neither variable lives in a frame that only the
  destination's handle keeps alive (`EndsIffKept`, `RightIffSafe`); it always is
  when both live outside all frames or the handle is not the last one
  (`UsuallySafe`). In runs in which every assignment is right, 2^32 handle
  variables are safe (`DestroyedWithLastHandle`); one more is not
  (`DestroyedTooEarly`).
* **A predicate that throws.** The coroutine of the predicate wait swallows the
  exception and hands back as if the predicate held. A wait returns with its
  predicate holding if and only if evaluating it did not throw (`WaitReturns`,
  `ThrowingReturns`).
* **An element that throws.** The channel unlocks its mutex by hand, so an
  exception from constructing an item or moving it out leaves it locked. The owner
  of the mutex can go on if and only if that has not happened to it
  (`OwnerMovesIff`), somebody can always go on while it has happened to nobody
  (`SomebodyCanMove`), and afterwards nothing enters or leaves the channel again
  (`ThrownHoldsForever`, `ThrowSticks`).
* **Combinators.** `all` without children never resumes its caller; `some(0)`
  behaves as `some(1)`; `some` that needs more than there are never resumes.

## Model

| member | source | states |
|---|---|---|
| MutexProtocol.Refines | src/coronet/co/mutex.cpp:49-117 | each atomic access of `try_lock`, registration and `unlock` keeps the invariant and is one step, or no step, of the FIFO lock whose queue is the cached list followed by the reversed stack; its coroutine is outside afterwards iff it completed an unlock or tried a held mutex, and one that has to retry has seen the current word |
| MutexProtocol.RunRefines | src/coronet/co/mutex.cpp:49-117 | every run of any number of coroutines is a run of the FIFO lock |
| MutexProtocol.MutualExclusion | include/coronet/co/mutex.hpp:96-113 | in every reachable state at most one coroutine is between acquiring and releasing |
| MutexProtocol.NoBarging | src/coronet/co/mutex.cpp:96-106 | in every run a coroutine that acquires without having waited does so only when the lock is free and nobody waits |
| MutexProtocol.NeverStuck | src/coronet/co/mutex.cpp:49-79 | every coroutine that is not suspended can take its next step, which brings it closer to the end of its `unlock` and outside only by completing that; the assertions inside `unlock` hold in every state of the invariant |
| MutexProtocol.TryLockTakesFree | src/coronet/co/mutex.cpp:18-23 | `try_lock` makes its coroutine the owner of a free mutex and otherwise changes nothing |
| MutexProtocol.TurnRegistersIff | src/coronet/co/mutex.cpp:96-117 | a turn of the registration loop registers with the FIFO lock iff the word is the one last seen, and otherwise only learns the current word |
| MutexProtocol.SecondTurnRegisters | src/coronet/co/mutex.cpp:96-117 | so an undisturbed registration succeeds in its second turn at the latest |
| MutexProtocol.InsideUntilUnlocked | src/coronet/co/mutex.cpp:18-117 | in every run a coroutine is registering, queued or holding exactly from the start of a `lock`, or a `try_lock` of a free mutex, to the step that completes its unlock, told by steps and words |
| MutexProtocol.OthersOnlyHandOver | src/coronet/co/mutex.cpp:76-79 | the steps of others move a coroutine only from the head of the queue to ownership |
| MutexProtocol.UnlockTakesFour | src/coronet/co/mutex.cpp:49-79 | in every run an unlock completes within four steps of its coroutine, whatever others do |
| MutexProtocol.WaiterAdvances | src/coronet/co/mutex.cpp:61-79 | a waiter with `k` ahead has moved up by exactly the number of completed unlocks |
| MutexProtocol.WaiterServed | src/coronet/co/mutex.cpp:61-79 | it becomes the owner at the unlock that completes `k + 1`, and at no earlier one |
| MutexHeap.CoMutex.TryLockMutex | src/coronet/co/mutex.cpp:18-23 | the compare-and-swap on the encoded word is the abstract one |
| MutexHeap.CoMutex.RegisterAwaiting | src/coronet/co/mutex.cpp:96-117 | one turn of the loop, spurious failures included, links the node in front of the stack, takes a free lock, or changes nothing and reports the current word; it does the last iff the word was not the one seen or the failure is spurious |
| MutexHeap.CoMutex.UnlockSwap | src/coronet/co/mutex.cpp:61-74 | the exchange and the in-place reversal give a private list of exactly the waiters, oldest first |
| MutexHeap.CoMutex.Unlock | src/coronet/co/mutex.cpp:49-79 | undisturbed, it frees a mutex nobody waits for and otherwise hands it to the first of the queue, leaving the rest in order |
| WaiterLists.ReverseList | src/coronet/co/mutex.cpp:68-73 | the relinking loop turns a null-terminated list into the list of its reversal |
| WaiterLists.ReverseBehindOldest | src/coronet/co/condition_variable.cpp:86-95 | the loop of `notify_one` isolates the oldest waiter and relinks the others oldest first |
| CvLists.ParkIsLast | src/coronet/co/condition_variable.cpp:23-28 | a new waiter is last in the order of arrival |
| CvLists.TakeOneIsFirst | src/coronet/co/condition_variable.cpp:58-105 | `notify_one` takes exactly the oldest waiter, from the cache or from the reversed stack |
| CvLists.TakeAllVisits | src/coronet/co/condition_variable.cpp:122-144 | `notify_all` visits every waiter present exactly once and leaves none |
| CvLists.TakeAllOrder | src/coronet/co/condition_variable.cpp:122-144 | those not in the cache are visited newest first, then the cached ones oldest first |
| CvProtocol.StepKeeps | src/coronet/co/condition_variable.cpp:20-144 | locking, checking, parking, unlocking, notifying and writing keep every coroutine in its one place and every owed notification owed |
| CvProtocol.ExactlyOnePlace | src/coronet/co/condition_variable.cpp:20-144 | in every run a coroutine is listed once in mutex queue, stack or cache while it waits, and nowhere while it runs |
| CvProtocol.NotifyOneMovesOldest | src/coronet/co/condition_variable.cpp:58-114 | the oldest waiter owns a free mutex or goes to the end of its queue; nobody else moves |
| CvProtocol.NotifyAllMovesEveryone | src/coronet/co/condition_variable.cpp:122-144 | every waiter, once, becomes the owner or joins the mutex queue, and the condition variable is empty |
| CvProtocol.WaitReturns | include/coronet/co/condition_variable.hpp:92-97 | the predicate wait returns only to a coroutine that owns the mutex, and its predicate holds then iff evaluating it did not throw |
| CvTrace.ReturnsAfterCheck | include/coronet/co/condition_variable.hpp:92-97 | in every run, if a check failed and its coroutine is past the wait at the end, a later check of the same coroutine did not fail on the data of that moment |
| CvTrace.StandsWhereStepsSay | src/coronet/co/condition_variable.cpp:20-144 | in every run the owner and queue of the mutex, the two lists, the data and the place of each coroutine follow from the steps alone: the replay knows who registered, who is listed and whose last check failed |
| CvTrace.MayDo | include/coronet/co/condition_variable.hpp:92-97 | what a coroutine may do next follows from the steps alone: one that was listed only suspends, one notified only checks again |
| CvProtocol.ThrowingReturns | include/coronet/detail/trivial_task.hpp:101-135 | a predicate that throws lets its coroutine out of the wait with the mutex |
| CvProtocol.ListedSince | src/coronet/co/condition_variable.cpp:20-33 | whoever is listed put itself there after the last `notify_all`, while it owned the mutex and its predicate failed |
| CvProtocol.NobodyOverlooked | include/coronet/co/condition_variable.hpp:92-97 | once every write has been announced by `notify_all`, every listed waiter's predicate fails |
| CvHeap.ConditionVariable.ParkWaiter | src/coronet/co/condition_variable.cpp:23-28 | one turn of the insertion loop parks the node or leaves the list as it was |
| CvHeap.ConditionVariable.NotifyOne | src/coronet/co/condition_variable.cpp:69-105 | the two lists and the unlinked waiter are those of the abstract operation |
| CvHeap.ConditionVariable.NotifyAll | src/coronet/co/condition_variable.cpp:133-143 | both lists are walked completely, in the stated order, and emptied |
| ChannelRing.PushAppends | include/coronet/co/channel.hpp:100-101 | an insertion constructs a slot that was dead and appends to the contents |
| ChannelRing.PopRemovesFirst | include/coronet/co/channel.hpp:83-85 | a removal destroys a slot that was live, the one with the oldest item |
| ChannelRing.SingleSlotIsRing | include/coronet/co/channel.hpp:145-183 | the optional of the single-slot channel is a ring of one slot: empty, full, emplace and reset agree |
| ChannelBuffer.Buffer.Put | include/coronet/co/channel.hpp:100-131 | the slot array and the wrapping pointer after `release` |
| ChannelBuffer.Buffer.Take | include/coronet/co/channel.hpp:83-126 | the item returned by `acquire`, and the slot array and pointer after it |
| ChannelProtocol.StepKeeps | include/coronet/co/channel.hpp:64-104 | every step keeps the places of all coroutines, the items and the counting bound |
| ChannelProtocol.FirstInFirstOut | include/coronet/co/channel.hpp:78-131 | in every run the removed items are a prefix of the inserted ones, the ring holds exactly the rest, and a slot is constructed iff it is in the live window |
| ChannelTrace.BooksFromSteps | include/coronet/co/channel.hpp:78-131 | in every run the content and both histories are those of a ledger kept from the steps alone, in which each passed put enters the item its coroutine was last asked to put and each passed take or drop removes the oldest |
| ChannelTrace.StandsWhereStepsSay | include/coronet/co/channel.hpp:64-104 | in every run mutex, lists and the place and operation of each coroutine follow from the steps alone: whoever is not idle is at work on what it was asked |
| ChannelTrace.EachOperationOnce | include/coronet/co/channel.hpp:64-104 | in every run each operation begun passes its critical section once, then unlocks once and notifies once |
| ChannelTrace.MayDo | include/coronet/co/channel.hpp:64-104 | the critical section is open exactly to the owner of the mutex that has yet to pass, after a wait as before; every other step follows its predecessor |
| ChannelProtocol.SleepersAccountedFor | include/coronet/co/channel.hpp:64-104 | in every run a sleeping taker bounds the items by notified takers plus putters that have yet to notify, and a sleeping putter bounds the free slots likewise |
| ChannelProtocol.QuiescentIsLegitimate | include/coronet/co/channel.hpp:64-104 | when every coroutine is idle or asleep, takers sleep only on an empty ring, putters only on a full one, and never both |
| ChannelProtocol.SomebodyCanMove | include/coronet/co/channel.hpp:64-104 | as long as an operation is under way and no element operation has thrown in a critical section, some coroutine can take a step |
| ChannelProtocol.OwnerMovesIff | include/coronet/co/channel.hpp:78-104 | the owner of the mutex can take its next step iff no exception has ended it inside the critical section |
| ChannelProtocol.ThrownHoldsForever | include/coronet/co/channel.hpp:83-86 | once one has, in every continuation the mutex stays locked, the ring stays as it is and nobody leaves the mutex queue |
| ChannelProtocol.ThrowSticks | include/coronet/co/channel.hpp:95-102 | for every capacity a run in which constructing an item throws leaves another coroutine waiting and no step but beginning new operations |
| GeneratorBody.NestKeeps | include/coronet/generator.hpp:606-631 | entering a nested generator leaves the remaining flattening as it is and reduces the remaining work |
| GeneratorBody.ReturnKeeps | include/coronet/generator.hpp:548-567 | so does returning to the parent, normally or with an exception |
| GeneratorMachine.Generator.AwaitNested | include/coronet/generator.hpp:606-631 | the nested generator becomes the innermost one and the root's `_Top` points to it, at any depth |
| GeneratorMachine.Generator.ReturnToParent | include/coronet/generator.hpp:548-567 | the parent becomes the innermost one, and goes on after its await point or fails there with the stored exception |
| GeneratorMachine.Generator.Resume | include/coronet/generator.hpp:687-691 | `++` runs to the next value of the flattening, or to the end with its exception, and terminates |
| GeneratorMachine.Iterate | include/coronet/generator.hpp:681-699 | `begin`, `*` and `++` give exactly the values of the recursive flattening, in order, and then its exception; so too what performing the body with its continuations comes to, and without handlers the values written before the first throw |
| GeneratorLaws.FlattenIsPerformed | include/coronet/generator.hpp:548-636 | the flattening is what performing the body comes to when each part is given what follows its end and what follows its exception |
| GeneratorLaws.CatchFreeEndsAtFirstThrow | include/coronet/generator.hpp:633-636 | a body without handlers yields what it writes, nested or not, up to the first throw, and ends with that |
| TaskSteps.NeverStuck | include/coronet/task.hpp:745-764 | what a running task awaits is finished or not started, never waiting itself |
| TaskSteps.StepSound | include/coronet/task.hpp:713-761 | every step keeps each task in agreement with its direct recursive evaluation |
| TaskSteps.StepWorks | include/coronet/task.hpp:713-761 | every step reduces the work left |
| TaskMachine.Tasks.EnterTask | include/coronet/task.hpp:755-761 | starting a child records its awaiter as parent and leaves every other frame as it was |
| TaskMachine.Tasks.FinishTask | include/coronet/task.hpp:33-37 | the outcome is stored and control goes to the frame that awaits, or to nobody |
| TaskMachine.Tasks.Turn | include/coronet/task.hpp:713-761 | one turn on linked frames is the step of the machine, and the next frame is the one it names |
| TaskMachine.Tasks.Run | include/coronet/task.hpp:303-353 | awaiting a task gives the value or exception of direct evaluation; each body runs at most once ever, and awaiting a finished task again returns what is stored and changes nothing |
| TaskLaws.EvalIsPerformed | include/coronet/task.hpp:745-764 | direct evaluation is what performing the body comes to when each awaited task is given the rest of the body and its handler as continuations, whatever is done with the outcome |
| TaskLaws.StraightTakesAll | include/coronet/task.hpp:745-764 | a body that awaits one task after the other without handlers fails with the exception of the first that fails, and otherwise is computed from all values in the order awaited |
| SharedProtocol.OneStartOneWake | include/coronet/shared_task.hpp:32-94 | in every interleaving the body starts at most once, and has started as soon as a coroutine is past the starting compare-and-swap; each coroutine that slept is in the list or was spawned, once in all, and one that did not sleep saw the result ready |
| SharedProtocol.AwaitArrives | include/coronet/shared_task.hpp:73-94 | from any state of the invariant an undisturbed `co_await` has a next step until it has started an unstarted task and joined, joined a started one, or taken a ready result, and that within six steps |
| SharedProtocol.OthersOnlySpawn | include/coronet/shared_task.hpp:32-45 | the steps of others move a coroutine only from waiting to spawned |
| SharedProtocol.BodyArrives | include/coronet/shared_task.hpp:32-45 | a started body can complete and its walk go on, each step bringing it closer to the end, with the waiters kept in order |
| SharedProtocol.ReadyIsFinal | include/coronet/shared_task.hpp:32-45 | once ready the word stays so, nobody joins, and the waiters found are spawned in order |
| SharedProtocol.StepKeeps | include/coronet/shared_task.hpp:73-94 | every atomic access of `try_await` and of the completion keeps the invariant |
| SharedHeap.SharedPromise.Join | include/coronet/shared_task.hpp:86-91 | one turn of the loop, spurious failures included: it links the node, sees the result ready, or changes nothing and reports the current head |
| SharedHeap.SharedPromise.FinalSuspend | include/coronet/shared_task.hpp:33-45 | the walk spawns exactly the waiters found by the exchange, newest first |
| RefCounts.EndsIffKept | include/coronet/shared_task.hpp:198-251 | giving back a handle ends a variable iff the variable lives in a frame that, through any number of frames, only that handle keeps alive |
| RefCounts.RightIffSafe | include/coronet/shared_task.hpp:198-214 | an operation leaves every count right and touches no variable that has ended, iff it is not an assignment whose own drop ends its source or destination |
| RefCounts.UsuallySafe | include/coronet/shared_task.hpp:198-214 | an assignment is safe if both variables live outside all frames, or the destination is empty or does not hold the last handle of its frame |
| RefCounts.NeverUsedAfterEndIff | include/coronet/shared_task.hpp:183-251 | with at most 2^32 handle variables, a run never uses a variable that has ended iff every assignment in it is safe |
| RefCounts.DestroyedWithLastHandle | include/coronet/shared_task.hpp:183-251 | and then every frame is destroyed exactly once, when its last handle goes, no live handle refers to a destroyed frame, no live variable lives in one, and the count is the number of handles, whatever is created, copied, moved, assigned, swapped or destroyed, inside frames or outside |
| RefCountTrace.HoldsWhatStepsSay | include/coronet/shared_task.hpp:183-251 | in every run whose assignments are safe a variable lives iff the steps built it and its home has not been destroyed, and then it holds the handle that constructions, copies, moves and swaps put there |
| RefCounts.AdvancingIsUnsafe | include/coronet/shared_task.hpp:198-214 | assigning to the last handle of a frame from a handle inside that frame, by copy or by move, leaves a handle of a destroyed frame |
| RefCounts.DestroyedTooEarly | include/coronet/shared_task.hpp:65-71 | with more than 2^32 handle variables, a run of copies and one destruction destroys a frame that handles still refer to |
| SharedHandles.Program.GiveBack | include/coronet/shared_task.hpp:247-251 | `destroy` on linked objects: counts fall, a frame without handles is destroyed, the variables in it end and give theirs back, to any depth |
| SharedHandles.SharedTask.MoveAssign | include/coronet/shared_task.hpp:198-205 | the state after move assignment, which drops first and reads the source afterwards, ended or not; also onto itself and between handles of one frame |
| SharedHandles.SharedTask.CopyAssign | include/coronet/shared_task.hpp:207-214 | the state after copy assignment, which drops first and reads the source afterwards, ended or not; no operation between handles of one frame |
| SharedHandles.SharedTask.Destruct | include/coronet/shared_task.hpp:196-251 | the state after a handle variable ends, with all that ends in consequence |
| CursorWords.MaskIsRemainder | include/coronet/detail/spsc_cursor.hpp:62-67 | for every capacity the static assertion admits, masking with `capacity - 1` is the remainder |
| CursorWords.CapacityDivides | include/coronet/detail/spsc_cursor.hpp:62-63 | such a capacity divides 2^32 and is at most half of it |
| SpscRing.SlotsDistinct | include/coronet/detail/spsc_cursor.hpp:72-89 | live elements have different slots, across the wrap too |
| SpscRing.CursorPops | include/coronet/detail/spsc_cursor.hpp:72-78 | a pop is refused iff the ring is empty, else gives the oldest slot and shortens the wrapped length by one; the refusal is no slot |
| SpscRing.CursorPushes | include/coronet/detail/spsc_cursor.hpp:83-89 | a push is refused iff the ring is full, else gives the slot after the newest and lengthens it by one |
| SpscRing.PushRefines | src/coronet/detail/worker_meta.cpp:150-161 | writing the pushed slot appends to the contents and disturbs no other element |
| SpscRing.PopRefines | src/coronet/detail/worker_meta.cpp:134-139 | reading the popped slot gives the oldest element |
| SpscRing.RingIsQueue | include/coronet/detail/spsc_cursor.hpp:67-101 | any sequence of pushes and pops is answered as by a FIFO queue with a length limit |
| WorkerHeap.SpscCursor.Pop | include/coronet/detail/spsc_cursor.hpp:72-78 | cursor and slot are those of the value function |
| WorkerHeap.SpscCursor.Push | include/coronet/detail/spsc_cursor.hpp:83-89 | likewise |
| WorkerHeap.Worker.Schedule | src/coronet/detail/worker_meta.cpp:134-139 | the oldest ready handle leaves the ring, or there is none |
| WorkerHeap.Worker.ForwardTask | src/coronet/detail/worker_meta.cpp:144-162 | the handle is appended to the ring, or to the cross queue when the ring is full |
| WorkerHeap.Worker.CoSpawnCross | src/coronet/detail/worker_meta.cpp:86-102 | the handle is appended to the cross queue, and a wakeup is due exactly when it was empty |
| WorkerHeap.Worker.DrainCrossThread | src/coronet/detail/worker_meta.cpp:106-128 | the loop forwards every queued handle, in order, starting from an emptied queue |
| WorkerHeap.Worker.DrainDeferred | include/coronet/detail/worker_meta.hpp:139-144 | the loop forwards every deferred handle, in order, and empties the queue |
| WorkerQueues.ForwardAllIs | src/coronet/detail/worker_meta.cpp:119-123 | a drain fills the ring and puts exactly the rest back, in order |
| WorkerProtocol.DrainIsSteps | src/coronet/detail/worker_meta.cpp:119-123 | the undisturbed drain is its handle-by-handle steps |
| WorkerProtocol.SwapAndDrain | src/coronet/detail/worker_meta.cpp:106-128 | with the swap before them they are the whole drain |
| WorkerProtocol.DeferredIsSteps | include/coronet/detail/worker_meta.hpp:139-144 | one forwarding per deferred handle is the deferred loop |
| WorkerProtocol.StepKeeps | src/coronet/detail/worker_meta.cpp:106-162 | every spawn, deferral, drain turn and resumption conserves the handles and the orders |
| WorkerProtocol.HandlesConserved | src/coronet/io_context.cpp:222-226 | in every run, overflow included, submitted handles are those resumed plus those queued, so none is resumed more often than submitted; the cross queue is left in the order it was entered and the ring in the order it accepted |
| WorkerTrace.QueuesFromSteps | src/coronet/detail/worker_meta.cpp:86-162 | in every run each queue is the part between two cursors of an append-only log kept from the steps alone: nothing is reordered within a queue, and a swap takes all of the cross queue |
| WorkerProtocol.ForwardingOrder | src/coronet/detail/worker_meta.cpp:144-162 | in every run the ring accepts every forwarded handle, in order, iff each call finds it not full; then handles are resumed in the order they were forwarded |
| WorkerProtocol.OverflowReorders | src/coronet/detail/worker_meta.cpp:150-160 | for every ring size a run resumes a handle before one that was forwarded earlier and overflowed |
| WakeupProtocol.RunKeeps | src/coronet/io_context.cpp:155-177 | throughout every run a non-empty cross queue is always covered by a pending write, a raised counter, a coming drain or a stranding overflow, and a raised counter by an edge or an unread event |
| WakeupTrace.LoopConserves | src/coronet/detail/worker_meta.cpp:86-284 | in every run handles submitted, by spawns, deferrals and completed operations, are those queued plus those resumed; the cross queue holds what came since its swap, the eventfd the writes since it was read, and every spawner that found the queue empty writes once |
| WakeupTrace.TurnsInOrder | src/coronet/io_context.cpp:155-226 | in every run each turn of the loop swaps the cross queue, empties batch, deferred list and ring, and polls once, in that order, and a resumed coroutine suspends before the loop goes on |
| WakeupProtocol.ParkedWithWorkIffStranded | src/coronet/platform/epoll/epoll_reactor.cpp:178-202 | a parked loop has an empty ring and batch, and a non-empty cross queue iff the ring overflowed into it while it was empty |
| WakeupProtocol.NoWakeupLost | src/coronet/detail/worker_meta.cpp:86-102 | in runs in which no forwarded handle meets a full ring, the loop never parks with cross-thread work queued |
| WakeupProtocol.DrainedWithinFour | src/coronet/platform/epoll/epoll_reactor.cpp:137-202 | from a poll every run passes through an empty cross queue within four steps of the loop itself, whatever the kernel answers and the spawners do in between |
| WakeupProtocol.NextDrain | src/coronet/platform/epoll/epoll_reactor.cpp:178-202 | such steps are not blocked: once all spawners have written, and nothing was stranded, a run of at most four of them to an empty cross queue exists |
| WakeupProtocol.OverflowStrands | src/coronet/detail/worker_meta.cpp:150-160 | for every ring size a run parks the loop with an overflowed handle |
| WakeupProtocol.ParkedWithYieldedIff | src/coronet/io_context.cpp:165-177 | in every run a parked loop holds exactly the coroutines that yielded since its deferred loop last ended, so one iff there is such a yield |
| WakeupProtocol.YieldParks | include/coronet/detail/worker_meta.hpp:133-144 | a run parks the loop with a yielded coroutine |
| WakeupProtocol.WaitIsSteps | src/coronet/platform/epoll/epoll_reactor.cpp:178-202 | one call of `wait_completion` is its wait, handle and re-arm steps |
| EpollHeap.Proactor.FillReadyQueue | src/coronet/platform/epoll/epoll_reactor.cpp:137-160 | the fetched batch replaces the exhausted one and the eventfd leaves the kernel's ready list iff it was reported |
| EpollHeap.Proactor.WaitForCompletion | src/coronet/platform/epoll/epoll_reactor.cpp:178-202 | an eventfd event is drained and re-armed and completes nothing; any other event completes; an interrupted wait leaves the batch empty |
| SemaphoreLists.TryReleaseTakesOldest | src/coronet/co/semaphore.cpp:80-121 | `try_release` takes exactly the oldest waiter that has not woken itself, and nobody iff there is none |
| SemaphoreLists.SuspendLive | src/coronet/co/semaphore.cpp:131-159 | a waiter is last among those waiting, unless it woke itself, when it does not count |
| SemaphoreProtocol.WakeUpToGrants | src/coronet/co/semaphore.cpp:53-70 | `release(n)` resumes exactly the oldest waiters, as many as there are units or waiters, and leaves the other units in the counter |
| SemaphoreProtocol.ReleaseIsOne | src/coronet/co/semaphore.cpp:33-45 | `release()` is `release(1)` |
| SemaphoreProtocol.StepKeeps | src/coronet/co/semaphore.cpp:33-159 | every step keeps the balance of units, the list of waiters, and that no unit lies unused while somebody waits |
| SemaphoreProtocol.UnitsAddUp | include/coronet/co/semaphore.hpp:60-71 | in every run the counter is not negative, counter plus grants is initial plus released, each acquire is granted at most once, and a suspended one means a zero counter |
| SemaphoreTrace.StandsWhereStepsSay | src/coronet/co/semaphore.cpp:14-159 | in every run counter, waiters, grants and the place of each acquirer follow from the steps alone: an acquire takes a unit iff there is one, and otherwise suspends last in the queue |
| SemaphoreTrace.MayDo | src/coronet/co/semaphore.cpp:131-159 | an acquirer suspends only after it found no unit, and does nothing more once it waits or has its unit |
| SemaphoreHeap.ReverseUnconsumed | src/coronet/co/semaphore.cpp:95-103 | the reversal loop links exactly the unconsumed waiters, oldest first |
| SemaphoreHeap.Semaphore.TryReleaseOne | src/coronet/co/semaphore.cpp:80-121 | the lists and the awaiter found are those of the value function |
| SemaphoreHeap.Semaphore.AwaitSuspend | src/coronet/co/semaphore.cpp:131-159 | the node enters the list and takes a unit left in the meantime, marked so that no release wakes it again |
| SemaphoreHeap.Semaphore.ReleaseMany | src/coronet/co/semaphore.cpp:53-70 | the loop wakes a prefix of the waiters of length the minimum of units and waiters, and the counter keeps the difference |
| ResultSlots.SlotsInOrder | include/coronet/co/when_all.hpp:226-237 | different non-void positions have different result slots, in the same order, inside the tuple |
| ResultSlots.SlotTaken | include/coronet/co/when_all.hpp:226-237 | every result slot belongs to a non-void position |
| ResultSlots.NonVoidIdx | include/coronet/co/when_all.hpp:226-237 | the scan counts the non-void positions before the given one |
| WhenAllProtocol.CompleteKeeps | include/coronet/co/when_all.hpp:100-111 | a child constructs a slot that was empty, its own, and no other |
| WhenAllProtocol.ResumedOnceAfterLast | include/coronet/co/when_all.hpp:80-92 | the caller is resumed at most once, iff there are children and all have counted down; every slot is then filled with the result of its child, in order |
| WhenAllTrace.AnswersFollowSteps | include/coronet/co/when_all.hpp:80-111 | in every run each child stands where its own steps put it, its slot holds the value it completed with, and the caller is resumed when as many have counted down as there are |
| WhenSomeProtocol.FirstOnes | include/coronet/co/when_all.hpp:166-176 | the caller is resumed at most once, with the first completions in order, as many as needed, whatever completes later |
| WhenSomeProtocol.ResumedIffEnough | include/coronet/co/when_all.hpp:166-176 | once all children are through, it was resumed iff there were as many as needed, where zero needs one |
| WhenSomeTrace.ResumesAtQuota | include/coronet/co/when_all.hpp:166-176 | in every run the child that completed as the last needed one, and no other, has to resume the caller, with the first completions of the steps, in order |
| WhenHeap.AllState.CountDown | include/coronet/co/when_all.hpp:80-83 | the wrapping 32-bit decrement, and whether it was the last |
| WhenHeap.AllState.Take | include/coronet/co/when_all.hpp:88-92 | the result tuple holds the value of every slot, in order |
| WhenHeap.AnyState.Complete | include/coronet/co/when_all.hpp:166-175 | the fields after `on_complete` and whether to resume are those of the value function |
| TimerQueue.InsertSorted | include/coronet/platform/iocp/iocp_win_io.hpp:618-630 | the queue order by deadline and submission is kept by insertion |
| TimerProtocol.InOrderIffOnTime | include/coronet/platform/iocp/iocp_win_io.hpp:602-685 | in every run the whole sequence of completions, past and to come, is sorted by deadline, equal deadlines by submission, if and only if no entry was pushed with a deadline before that of an entry already taken out |
| TimerProtocol.PromptFiresInOrder | include/coronet/platform/iocp/iocp_win_io.hpp:602-612 | completions are sorted when submitting is one step and delays are not negative, and the library asks for at least one millisecond |
| TimerProtocol.LateBreaksOrder | include/coronet/platform/iocp/iocp_win_io.hpp:602-612 | for every late entry, by however little, there is a run in which it completes out of order, after an entry with a delay of one |
| TimerProtocol.NothingEarlyNothingLost | include/coronet/platform/iocp/iocp_win_io.hpp:661-685 | whatever the delays, nothing completes before its deadline, and completed, expired and pending entries are the submitted ones |
| TimerProtocol.BlockedIsArmed | include/coronet/platform/iocp/iocp_win_io.hpp:634-677 | in every run a worker blocked in its wait while entries are pending has a running timer that goes off no later than the earliest is due |
| TimerProtocol.DueIsCollected | include/coronet/platform/iocp/iocp_win_io.hpp:661-685 | once an entry is due, three steps of the timer and the waiting worker take it out |
| TimerTrace.CollectTakesDue | include/coronet/platform/iocp/iocp_win_io.hpp:661-685 | a round takes exactly the due entries, waits iff there were none, and sets the timer for the earliest of the rest |
| TimerTrace.SubmitArms | include/coronet/platform/iocp/iocp_win_io.hpp:602-645 | a submission sets the timer for the earliest entry, the new one included |
| TimerTrace.TimerFollowsSteps | include/coronet/platform/iocp/iocp_win_io.hpp:602-685 | in every run the entries are the submissions of the steps, numbered in order, each delivery hands over one, the timer runs from its setting until it goes off, both signals last from their setting to the wake they cause, and the worker waits once per round that found nothing |
| TimerHeap.TimerThread.Submit | include/coronet/platform/iocp/iocp_win_io.hpp:602-612 | the entry is inserted under the next number, the queue stays in order, the timer is set for the earliest of all deadlines and the event for the worker |
| TimerHeap.TimerThread.CollectDue | include/coronet/platform/iocp/iocp_win_io.hpp:665-674 | a locked round takes exactly the due entries, in order, and sets the timer for the rest |
| FramePools.SwapRemoveIs | include/coronet/task.hpp:130-134 | moving the last slot into the gap removes exactly one frame and keeps all others, each once |
| FramePoolProtocol.AllocateKeeps | include/coronet/task.hpp:127-137 | an allocation returns a block of exactly the requested size that nobody else has, a pooled one if there is one |
| FramePoolTrace.AllocateExactly | include/coronet/task.hpp:127-137 | the system is asked iff the pool of the thread has no frame of that size, and no other block is touched |
| FramePoolTrace.FreeExactly | include/coronet/task.hpp:138-145 | a freed frame stays in the pool of the freeing thread iff that holds fewer than eight, and no other block is touched |
| FramePoolTrace.ExitExactly | include/coronet/task.hpp:88-103 | a thread that exits gives back exactly the frames of its pool |
| FramePoolTrace.FreeThenAllocate | include/coronet/task.hpp:127-145 | after a free that found room the same thread allocates that size without the system |
| FramePoolProtocol.StepKeeps | include/coronet/task.hpp:88-145 | allocation, freeing by any thread and thread exit keep every pool exact |
| FramePoolProtocol.BlocksConserved | include/coronet/task.hpp:88-145 | in every run pooled blocks are distinct within and across threads and not with the program, no block is lost, and no pool exceeds eight |
| FramePoolHeap.FramePool.OperatorNew | include/coronet/task.hpp:127-137 | the search loop and the swap on the slot array are the value function |
| FramePoolHeap.FramePool.OperatorDelete | include/coronet/task.hpp:138-145 | likewise for pooling a frame or giving it back |

## Left out

- `channel<T,0>`: it waits on a condition variable without holding the mutex, so neither invariant applies to it.
- Two overlapping calls of `notify_one`: a notification is one step, which makes the append branch (src/coronet/co/condition_variable.cpp:107-113) unreachable.
- Interleavings inside the semaphore's `release` and `await_suspend`, and a negative argument of `release`: each call is one step.
- WorkerProtocol.HandlesConserved: says nothing about when an overflowed or deferred handle is resumed; the wakeup results show that it may wait for the next event.
- The resumption loop of the worker (src/coronet/io_context.cpp:222-226) as a method: what a resumed coroutine does is unknown, so it is the `Resume` and `Schedule` steps instead.
- Stopping the loop, its start barrier and the draining of what is left when it stops.
- Frames freed while another thread still reads a `next` field: list nodes are never freed in the model.
- Memory orders, cache-line layout, and the atomic variant of the ring cursor.
- TimerProtocol.BlockedIsArmed: the time set is exact; the truncation to microseconds and the resolution of system timers are not modelled, nor the wrap of the 64-bit submission number.
- The binary heap of the standard library: a priority queue is the sequence in which it would be popped.
- Detached tasks, tasks without a frame, moving the result out of a finished task, and task bodies that suspend for anything but another task.
- TaskMachine.Tasks.Run: tasks are numbered so that each awaits only tasks with smaller numbers, which some numbering does unless a task awaits itself through others; such cycles are excluded.
- GeneratorMachine.Iterate: a nested generator has not been iterated before it is nested, as `begin` demands of its own generator; ranges other than generators are generators that yield their elements.
- Children of `all`, `any` and `some` that throw, or that complete before the caller is suspended: they are spawned on the caller's own worker, which runs them later.
- RefCounts.DestroyedWithLastHandle: interleavings of handle operations are the order of the steps; a frame that is destroyed while its body runs is not distinguished from one that is suspended.
- What freed storage holds: a variable that has ended keeps the pointer it had, and a destination that ends during its own assignment gives its old handle back once (in the code twice); such assignments are unsafe either way.
- The state of an item whose move has thrown: nobody reads it again.
- The count of requests in flight, chained operations beyond whether a completion resumes a coroutine, the io_uring and IOCP back ends, sockets, files, name resolution, TLS and logging.
