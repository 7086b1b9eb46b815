# A verified model of the FreeRTOS kernel

This project models the single-core core of the FreeRTOS V11.1.0 kernel that the
repository carries under `FreeRTOS/Source`, and proves what that code promises. Check
it with `dafny verify dfyconfig.toml`.

Each part has a specification on values, in unbounded time, and a class whose
methods change its fields the way the C code does and are proved against it. What
the kernel promises over whole runs is proved about the specification, and a method
that performs any run on the objects (`RunOn`, or `TimerTask`) carries it to the code.

- **Lists** (`Rings`, `Lists`): the circular doubly linked list with its end marker
  and walking index, on the heap, against a sequence with an index.
- **Time** (`Ticks`, `Deadlines`): the 32-bit tick count against unbounded time;
  time-outs and periodic wake times.
- **Scheduler** (`Schedule`, `ScheduleRuns`, `DelayedLists`, `Tasks`, `KernelRuns`): ready lists,
  the two delayed lists and the cached next unblock time, pended ticks, the
  pending-ready list, selection. `Schedule` is the scheduler with one list of
  sleepers and a clock that never wraps; `DelayedLists` shows that the two lists
  are that one; `Tasks.Kernel` is the code, each operation an operation of
  `Schedule` on the state it represents. `Tasks` methods relate the new state to the
  old by that operation, and the lemmas named `...KeepsInv` in `Schedule` say that
  each operation keeps the invariant. `SchedulerCalls` says what each operation does to
  the task it names and that it touches no other; `SchedulerEvents` and `Preemption`
  say what events, endless waits and requests for a switch come to over whole runs;
  `Fairness` what joining and leaving a ready list does to whose turn it is.
- **Queues** (`QueueProtocol`, `Queues`, `QueueRuns`): sending, receiving, peeking, locking and
  the lock counts as a state machine in which interrupts come between any two
  critical sections; the byte store as a bounded deque. `QueueOrder` says which item
  each call puts in or hands out and whom it wakes.
- **Mutexes** (`MutexProtocol`, `Mutexes`, `MutexRuns`): holders, recursive counts, priority
  inheritance and its undoing on give and on time-out. `MutexPriorities` says exactly
  which priority each call leaves its task with.
- **Timers** (`Timers`, `TimerCommands`, `TimerRuns`): the timer service task with its two lists and its commands,
  against a schedule in unbounded time. Every timer carries an account of its
  callbacks: for which expiry, and when; `Books` are the accounts of all timers, and
  each method of the daemon is a function on books. `TimerCommands` says what each
  command does to its timer, `TimerRuns` what becomes of a timer over whole runs.
- **Stream and message buffers** (`Bytes`, `StreamBuffers`, `StreamRaces`, `StreamSteps`):
  the byte store and its messages; one writer and one reader interleaved byte by byte;
  and how much each of their steps moves.
- **Event groups** (`EventGroupProtocol`, `EventGroups`, `EventGroupRuns`): bits, waiters, the word that
  carries a request and then a result, and the rendezvous. `EventGroupCalls` says bit
  by bit what each call returns, clears and leaves.

A critical section, and a stretch of code with the scheduler suspended, is one
step. A yield is a request (`yieldPending`); the switch is a step of its own.

## Where the code and its promises part

The code is modelled as it is. Where a property holds only under a condition, the
exact condition is proved.

- A time-out is judged by one overflow count and one tick: more than a turn of the
  counter after its snapshot an expiry can go unreported (`Deadlines.CheckExactIff`,
  `Deadlines.TwoWrapsMissADeadline`). The same bound applies to a periodic delay
  (`Deadlines.DelayUntilExactIff`, `Deadlines.VeryLateCallerDelayed`) and to a timer
  command that waits in the queue (`Timers.PlaceExactIff`, `Timers.OldCommandMisjudged`).
- The timer service notices a new epoch by comparing two samples. One sample in
  each epoch is not enough: they must be less than a full turn apart
  (`Timers.SwitchSeenIff`, `Timers.WrapBetweenSamplesMissed`). While no timer is active
  the service may sleep longer.
- A command takes its timer off the list before the time is sampled. Every expiry
  reached before the command was sent has its callback if and only if the timer's next
  expiry is later than the command; otherwise a start, reset, stop, period or delete
  command discards it (`Timers.CommandKeepsExpiriesIff`, `Timers.StartOvertakesExpiry`).
- Overwriting a full queue whose items have no size counts one item too many
  (`QueueProtocol.CountFitsIff`).
- A queue reset wakes one sender only (`QueueProtocol.ResetAccountsForSendersIff`,
  `QueueProtocol.ResetStrandsASender`).
- Priority inheritance stops after one link (`MutexProtocol.BlockingIsSafeIff`,
  `MutexProtocol.InheritanceIsNotTransitive`), and a task that takes a freed mutex does
  not inherit from those who already wait for it (`MutexProtocol.TakingIsSafeIff`,
  `MutexProtocol.BargingBreaksTheOrder`).
- Setting a priority below an inherited one ranks the task in event lists by the new
  base priority while it runs at the inherited one
  (`MutexProtocol.PrioritySetRanksIff`).
- The header says that an item inserted at the end of a list is the last to be
  returned by the walk. It comes before the item the walking index is on
  (`Rings.InsertEndIsLast`).

## Model

| member | source | states |
|---|---|---|
| `Ticks.Add` | FreeRTOS/Source/tasks.c:8459 | C's sum of two tick counts is the sum modulo 2^32 |
| `Ticks.Sub` | FreeRTOS/Source/tasks.c:5548 | C's difference of two tick counts is the value that added back gives the first |
| `Ticks.SubIsElapsed` | FreeRTOS/Source/tasks.c:5548 | the difference of two readings is the elapsed time modulo one turn of the counter |
| `Deadlines.TimeOut.SetState` | FreeRTOS/Source/tasks.c:5522-5531 | a time-out records the overflow count and the tick count |
| `Deadlines.TimeOut.CheckForTimeOut` | FreeRTOS/Source/tasks.c:5534-5600 | an aborted delay is reported once and leaves the time-out alone; otherwise the call does what Check says, changing the time-out only when it has not expired |
| `Deadlines.CheckExact` | FreeRTOS/Source/tasks.c:5534-5600 | with at most one wrap since the snapshot: expired iff the elapsed time has reached the budget, and entry + remaining ticks stays constant |
| `Deadlines.CheckExactIff` | FreeRTOS/Source/tasks.c:5572-5594 | with any number of wraps the answer is right iff less than a full turn has elapsed, or its residue exhausts the budget, or the overflow count differs and the tick is past the entry tick |
| `Deadlines.TwoWrapsMissADeadline` | FreeRTOS/Source/tasks.c:5572-5594 | a concrete expiry that is not reported after more than a turn |
| `Deadlines.DeadlineKept` | FreeRTOS/Source/tasks.c:5534-5600 | over every run of re-checks the first to report expiry is the first at or after the deadline |
| `Deadlines.ForEverNeverExpires` | FreeRTOS/Source/tasks.c:5561-5569 | with the maximal block time no check of any run ever reports expiry |
| `Deadlines.ForEverKeepsBudget` | FreeRTOS/Source/tasks.c:5561-5569 | and each such check leaves the maximal block time |
| `Deadlines.DelayUntilExact` | FreeRTOS/Source/tasks.c:2356-2405 | the task is delayed iff previous + increment lies ahead in unbounded time, and for exactly the difference |
| `Deadlines.DelayUntilExactIff` | FreeRTOS/Source/tasks.c:2365-2392 | however late the caller: the decision is right iff it is less than a turn late or the increment is within the residue of its lateness |
| `Deadlines.VeryLateCallerDelayed` | FreeRTOS/Source/tasks.c:2365-2392 | a concrete caller a whole turn late that is delayed for a release long passed |
| `Deadlines.PeriodicWithoutDrift` | FreeRTOS/Source/tasks.c:2343-2405 | over a run of calls, each less than a turn late, call k waits for exactly release k + 1 or finds it due |
| `Rings.InsertPosition` | FreeRTOS/Source/list.c:161-193 | the position of the first value above the new one: everything before is not above it |
| `Rings.InsertKeepsSorted` | FreeRTOS/Source/list.c:139-211 | insertion keeps a list sorted and puts a value behind its equals |
| `Rings.RemoveUndoesInsert` | FreeRTOS/Source/list.c:215-245 | removal undoes insertion, walking index included |
| `Rings.RoundRobin` | FreeRTOS/Source/include/list.h:286-304 | as many steps of the walk as there are items return each exactly once, those behind the index first |
| `Rings.InsertEndIsLast` | FreeRTOS/Source/list.c:105-136 | an item inserted at the end is walked to after all others, except that the item under the index comes round after it |
| `Rings.WithoutIsRemoveAt` | FreeRTOS/Source/include/list.h:322-338 | removing an item by name is removing it where it is |
| `Fairness.RemoveKeepsWalk` | FreeRTOS/Source/list.c:215-245 | a removal does not disturb the walk: the others are returned in the order they would have been |
| `Fairness.ReadiedComesLast` | FreeRTOS/Source/tasks.c:268-274 | a task made ready runs after all that were ready at its priority, except that the one that ran last comes round after it |
| `Lists.List.constructor` | FreeRTOS/Source/list.c:49-86 | a new list is empty, linked to itself, with the index on the end marker |
| `Lists.ListItem.constructor` | FreeRTOS/Source/list.c:89-102 | a new item is in no list |
| `Lists.List.InsertEnd` | FreeRTOS/Source/list.c:105-136 | the linked structure represents the ring with the item before the index |
| `Lists.List.FindInsertPoint` | FreeRTOS/Source/list.c:161-193 | the search ends for every value, the maximum included, behind the last item not above it |
| `Lists.List.Insert` | FreeRTOS/Source/list.c:139-211 | the linked structure represents the ring with the item at its sorted position |
| `Lists.ListItem.Remove` | FreeRTOS/Source/list.c:215-245 | links, container, count and index represent the ring without the item; the count left is returned |
| `Lists.List.OwnerOfNextEntry` | FreeRTOS/Source/include/list.h:286-304 | the index steps on, passing over the end marker, and the owner there is returned |
| `Bytes.DecodeEncode` | FreeRTOS/Source/stream_buffer.c:1000-1050 | a length prefix reads back as the length written |
| `Bytes.EncodeDecode` | FreeRTOS/Source/stream_buffer.c:1276-1328 | every four bytes are the prefix of the length they decode to |
| `Bytes.ParseFlatten` | FreeRTOS/Source/stream_buffer.c:1000-1050 | messages laid out one behind the other parse back as those messages |
| `Bytes.FlattenParse` | FreeRTOS/Source/stream_buffer.c:1276-1328 | bytes that parse as messages are those messages laid out |
| `StreamBuffers.StreamBuffer.constructor` | FreeRTOS/Source/stream_buffer.c:1587-1632 | a new buffer is empty, with one byte more than it can hold |
| `StreamBuffers.StreamBuffer.BytesInBuffer` | FreeRTOS/Source/stream_buffer.c:1566-1584 | the number of published bytes across the wrap |
| `StreamBuffers.StreamBuffer.SpacesAvailable` | FreeRTOS/Source/stream_buffer.c:754-788 | the number of free bytes across the wrap |
| `StreamBuffers.StreamBuffer.WriteBytes` | FreeRTOS/Source/stream_buffer.c:1476-1519 | bytes are stored in one or two pieces from an index on, and nothing else is |
| `StreamBuffers.StreamBuffer.ReadBytes` | FreeRTOS/Source/stream_buffer.c:1522-1563 | the bytes from an index on are copied across the wrap, and nothing is consumed |
| `StreamBuffers.StreamBuffer.WriteMessage` | FreeRTOS/Source/stream_buffer.c:1000-1050 | a message is published whole with its prefix or not at all; a stream takes as many bytes as fit |
| `StreamBuffers.StreamBuffer.ReadMessage` | FreeRTOS/Source/stream_buffer.c:1276-1328 | a message that does not fit the receiver's buffer stays; otherwise prefix and message are consumed |
| `StreamBuffers.StreamBuffer.SendMessage` | FreeRTOS/Source/stream_buffer.c:808-940 | sending appends one whole message to the queue of messages or leaves the buffer unchanged, and it is sent iff it fits |
| `StreamBuffers.StreamBuffer.ReceiveMessage` | FreeRTOS/Source/stream_buffer.c:1053-1166 | receiving returns and removes the oldest message, or leaves it in place when the buffer is too small |
| `StreamBuffers.StreamBuffer.NextMessageLength` | FreeRTOS/Source/stream_buffer.c:1169-1210 | the length of the oldest message, or zero |
| `StreamRaces.StoreKeepsInv` | FreeRTOS/Source/stream_buffer.c:1476-1519 | a byte stored by the writer never lands on a published byte, however stale its view of the tail |
| `StreamRaces.PublishKeepsInv` | FreeRTOS/Source/stream_buffer.c:1040-1047 | publishing the head makes exactly the bytes stored since visible |
| `StreamRaces.TakeKeepsInv` | FreeRTOS/Source/stream_buffer.c:1318-1325 | publishing the tail hands over exactly the oldest bytes |
| `StreamRaces.SafeForEveryInterleaving` | FreeRTOS/Source/stream_buffer.c:867-915 | for every interleaving of one writer's and one reader's memory steps: what was received is a prefix of what was sent, and the space a writer works with never exceeds the real space |
| `StreamSteps.TakesWhatFits` | FreeRTOS/Source/stream_buffer.c:1000-1050 | a stream takes the longest start of the data that fits, a message buffer all or nothing |
| `StreamSteps.SpaceIsExactWhenQuiet` | FreeRTOS/Source/stream_buffer.c:754-788 | if tail stays put the space found is all there is |
| `StreamSteps.MovedTailIsReread` | FreeRTOS/Source/stream_buffer.c:754-788 | if tail moved between its readings the writer starts again |
| `StreamSteps.PreparesWhatFits` | FreeRTOS/Source/stream_buffer.c:943-997 | the writer copies the message if it fits, or what fits of a stream, and otherwise has finished |
| `StreamSteps.PublishesAll` | FreeRTOS/Source/stream_buffer.c:1040-1047 | once every byte is stored exactly the prefix and the payload are sent |
| `StreamSteps.TakesOldestBytes` | FreeRTOS/Source/stream_buffer.c:1276-1328 | a stream gives min(capacity, counted) of its oldest bytes |
| `StreamSteps.TakesOneMessage` | FreeRTOS/Source/stream_buffer.c:1276-1328 | a message buffer gives exactly the next message, or stays as it is if that is longer than the receiver can hold |
| `QueueProtocol.CountFitsIff` | FreeRTOS/Source/queue.c:2401-2467 | the count stays within the length iff no full queue of empty items is overwritten |
| `QueueProtocol.StepKeepsInv` | FreeRTOS/Source/queue.c:258-300 | every critical section keeps: waiting receivers leave no item unaccounted for, senders no place, and each task is in one place |
| `QueueProtocol.RunKeepsInv` | FreeRTOS/Source/queue.c:939-1153 | the same over every interleaving of tasks and interrupts |
| `QueueProtocol.NoLostWakeup` | FreeRTOS/Source/queue.c:1502-1648 | in every reachable state of an unlocked queue: while a receiver waits there are no more items than woken receivers yet to look; the same for senders and places |
| `QueueProtocol.UnlockWakesForEveryPost` | FreeRTOS/Source/queue.c:2494-2578 | the first half of unlocking wakes min(posts while locked, waiters) receivers, head first, although the count is capped at the number of tasks and fits in an int8_t |
| `QueueProtocol.UnlockWakesForEveryRemoval` | FreeRTOS/Source/queue.c:2580-2611 | the second half of unlocking wakes min(removals while locked, waiters) senders, head first, although the count is capped |
| `QueueProtocol.FirstInFirstOut` | FreeRTOS/Source/queue.c:939-1153 | over every run with sends to the back, items come out in the order they went in, none lost and none twice |
| `QueueOrder.BackComesLast` | FreeRTOS/Source/queue.c:959-1033 | a send to the back goes through iff there is room, and its item comes last |
| `QueueOrder.FrontIsNext` | FreeRTOS/Source/queue.c:2432-2467 | an item sent to the front, by a task or an interrupt, is the next delivered, and then the queue is as it was |
| `QueueOrder.FrontNeedsRoom` | FreeRTOS/Source/queue.c:959-1033 | a send to the front of a full queue does not go through |
| `QueueOrder.OverwriteIsNext` | FreeRTOS/Source/queue.c:2432-2467 | after an overwrite the queue of length one holds and delivers exactly the item written |
| `QueueOrder.ReceiveTakesFront` | FreeRTOS/Source/queue.c:1526-1566 | a receive takes the front item and leaves the others, or takes nothing from an empty queue |
| `QueueOrder.PeekTakesNothing` | FreeRTOS/Source/queue.c:1902-1946 | a peek leaves every item |
| `QueueOrder.SendWakesFirst` | FreeRTOS/Source/queue.c:1031-1050 | a send that goes through wakes the first waiting receiver and nobody else, one that does not wakes nobody |
| `QueueOrder.ReceiveWakesFirst` | FreeRTOS/Source/queue.c:1541-1560 | a receive that gets an item wakes the first waiting sender and nobody else |
| `QueueOrder.PeekWakesFirst` | FreeRTOS/Source/queue.c:1923-1942 | a peek that sees an item wakes the next waiting receiver |
| `QueueOrder.IsrSendWakesFirst` | FreeRTOS/Source/queue.c:1274-1311 | a send from an interrupt wakes the first receiver, or records the post while the queue is locked |
| `QueueOrder.IsrReceiveWakesFirst` | FreeRTOS/Source/queue.c:2074-2117 | a receive from an interrupt wakes the first sender, or records the removal while the queue is locked |
| `QueueOrder.LockForgetsRecords` | FreeRTOS/Source/queue.c:257-270 | locking starts both counts at none and changes nothing else |
| `QueueOrder.PlaceWaits` | FreeRTOS/Source/tasks.c:5243-5269 | a task that blocks joins the list of its side and nobody else is moved |
| `QueueOrder.TimeOutTakesOff` | FreeRTOS/Source/tasks.c:4755-4763 | a task whose time is up leaves the list it is on and nobody else is moved or woken |
| `QueueOrder.LowestNumberFirst` | FreeRTOS/Source/queue.c:2401-2491 | over every run of sends to the back, to the front and overwrites the queue hands out what a line of numbered places does: always the lowest number |
| `QueueOrder.NoneLostNoneTwice` | FreeRTOS/Source/queue.c:2401-2491 | over every run without overwrites, front sends included, no item is lost and none is delivered twice |
| `QueueProtocol.ResetAccountsForSendersIff` | FreeRTOS/Source/queue.c:334-343 | after a reset every free place is accounted for iff at most one sender waited or the woken ones fill the queue |
| `QueueProtocol.ResetStrandsASender` | FreeRTOS/Source/queue.c:334-343 | a concrete reset that leaves a sender asleep beside a free place |
| `Queues.Queue.constructor` | FreeRTOS/Source/queue.c:303-323 | a new queue is empty, unlocked, with the read position on the last slot |
| `Queues.Queue.CopyDataToQueue` | FreeRTOS/Source/queue.c:2401-2467 | at byte granularity: to the back appends, to the front prepends, overwrite replaces the front; positions stay consistent unless a full queue of empty items is overwritten |
| `Queues.Queue.CopyDataFromQueue` | FreeRTOS/Source/queue.c:2473-2491 | the read position steps on round the store and the item there is copied |
| `Queues.Queue.Send` | FreeRTOS/Source/queue.c:959-1056 | the critical section is the protocol's send; it goes through iff there is room or it overwrites |
| `Queues.Queue.SendFromISR` | FreeRTOS/Source/queue.c:1157-1326 | the same from an interrupt, which counts instead of waking while the queue is locked |
| `Queues.Queue.Receive` | FreeRTOS/Source/queue.c:1526-1593 | the front item is returned and removed iff there is one, and a sender is woken |
| `Queues.Queue.ReceiveFromISR` | FreeRTOS/Source/queue.c:2035-2132 | the same from an interrupt |
| `Queues.Queue.Peek` | FreeRTOS/Source/queue.c:1902-1955 | the front item is returned and the contents are unchanged |
| `Queues.Queue.Lock` | FreeRTOS/Source/queue.c:258-270 | locking marks both counts as unmodified unless they are locked already |
| `Queues.Queue.WakeForEach` | FreeRTOS/Source/queue.c:2507-2578 | the unlock loop takes one waiter off the list for each count, as long as there are any |
| `Queues.Queue.UnlockTx` | FreeRTOS/Source/queue.c:2494-2580 | the first half of the unlock is the protocol's |
| `Queues.Queue.UnlockRx` | FreeRTOS/Source/queue.c:2582-2611 | the second half likewise |
| `Queues.Queue.MustBlock` | FreeRTOS/Source/queue.c:1604-1613 | under the lock a receiver goes on to block iff the queue is empty, a sender iff it is full |
| `Queues.Queue.PlaceOnEventList` | FreeRTOS/Source/tasks.c:5243-5270 | the task joins the waiting list of its side and no other list changes |
| `Queues.Queue.TimeOut` | FreeRTOS/Source/tasks.c:4756-4762 | a task whose time is up leaves the list it waits on, and nothing else changes |
| `QueueRuns.RunOn` | FreeRTOS/Source/queue.c:939-1153 | any interleaving of calls and interrupts takes the queue to the state the protocol reaches, and hands out the items the protocol delivers, in that order |
| `QueueRuns.RunFromStart` | FreeRTOS/Source/queue.c:1502-1648 | the same from the creation of the queue, so that NoLostWakeup and FirstInFirstOut hold of the code |
| `MutexProtocol.PrioritySetRanksIff` | FreeRTOS/Source/tasks.c:2869-2897 | after a priority is set the task is ranked by the priority it runs at iff it used no inherited priority above the new one; a value in use for something else stays |
| `MutexProtocol.StepKeepsAccounts` | FreeRTOS/Source/tasks.c:6580-6890 | every mutex operation, time-out and priority change keeps the accounts |
| `MutexProtocol.MutexAccounting` | FreeRTOS/Source/queue.c:614-637 | in every reachable state: mutexes held = mutexes naming the task holder; count 1 iff no holder; base <= priority, equal when nothing is held |
| `MutexProtocol.InheritKeepsSafe` | FreeRTOS/Source/tasks.c:6580-6676 | inheritance raises the holder to the waiter's priority and breaks no other order |
| `MutexProtocol.HandsOver` | FreeRTOS/Source/tasks.c:6683-6770 | the waiter a give wakes outranks those it leaves waiting |
| `MutexProtocol.AfterTimeOutAt` | FreeRTOS/Source/tasks.c:6777-6890 | after a time-out the holder drops no lower than the waiters left, and not at all if it holds other mutexes |
| `MutexPriorities.TimeOutLowersHolder` | FreeRTOS/Source/tasks.c:6777-6890 | after a time-out the holder of one mutex runs at exactly the higher of its base and the highest task still waiting, lower than before if need be; a holder of several and everybody else keep their priority |
| `MutexPriorities.NothingOwedToTheTimedOut` | FreeRTOS/Source/tasks.c:6798-6824 | its priority is its base or that of a task still waiting |
| `MutexPriorities.HighestWaitingIsOne` | FreeRTOS/Source/queue.c:2365-2385 | the priority read from the waiting list is that of a waiter, or idle if there is none |
| `MutexPriorities.TakeKeepsPriorities` | FreeRTOS/Source/queue.c:1679-1733 | a take counts the mutex, names the holder and changes no priority and no waiter |
| `MutexPriorities.BlockRaisesHolder` | FreeRTOS/Source/tasks.c:6580-6676 | a task that blocks raises the holder to the higher of both priorities and no further, and changes no other task |
| `MutexPriorities.BlockQueuesByPriority` | FreeRTOS/Source/tasks.c:5243-5269 | it waits behind those of its priority and above and before all others |
| `MutexPriorities.GiveRestoresPriority` | FreeRTOS/Source/tasks.c:6683-6770 | giving the last mutex restores the base priority, giving another keeps the priority |
| `MutexPriorities.GiveWakesFirst` | FreeRTOS/Source/queue.c:1031-1050 | a mutex given back is free and its first waiter has been woken |
| `MutexPriorities.TimeOutTakesOff` | FreeRTOS/Source/tasks.c:4755-4763 | a task whose time is up waits for no mutex and no priority changes |
| `MutexPriorities.PrioritySetIs` | FreeRTOS/Source/tasks.c:2798-2884 | the base priority is set, and the task runs at it unless it uses a higher inherited one |
| `MutexPriorities.ValueInUseStays` | FreeRTOS/Source/tasks.c:6594-6606 | an event item value in use stays while priorities change |
| `MutexProtocol.HighestWaitingIs` | FreeRTOS/Source/queue.c:2365-2385 | the priority read from the head of the waiting list is the highest of all waiters |
| `MutexProtocol.StepKeepsSafe` | FreeRTOS/Source/queue.c:1679-1873 | every step under the rules keeps holders at or above their waiters |
| `MutexProtocol.InheritanceIsSafe` | FreeRTOS/Source/tasks.c:6580-6890 | over every run under the rules (no blocking while holding, base priorities fixed, a freed mutex not taken by a task its woken waiter outranks) each holder runs at the priority of each of its waiters or above |
| `MutexProtocol.BlockingIsSafeIff` | FreeRTOS/Source/tasks.c:6580-6676 | without the rules: when any task blocks, holders go on outranking waiters iff the holder need not be raised or waits for nobody lower than the newcomer |
| `MutexProtocol.TakingIsSafeIff` | FreeRTOS/Source/queue.c:1679-1733 | without the rules: a take keeps that iff the taker outranks all who already wait for the mutex |
| `MutexProtocol.GivenBackIsSafe` | FreeRTOS/Source/queue.c:1679-1733 | a concrete state, within the rules, of a mutex given back while two tasks waited |
| `MutexProtocol.BargingBreaksTheOrder` | FreeRTOS/Source/queue.c:1679-1733 | in that state a low task can take the mutex before the woken one, and then runs below a waiter |
| `MutexProtocol.InheritanceIsNotTransitive` | FreeRTOS/Source/tasks.c:6580-6676 | a concrete chain of three tasks along which inheritance stops |
| `MutexProtocol.ReleasedByTheMatchingGive` | FreeRTOS/Source/queue.c:756-855 | whatever all tasks do, a recursive mutex stays with its holder while its takes outnumber its gives and is free as soon as they are equal |
| `Mutexes.Tcb.constructor` | FreeRTOS/Source/tasks.c:1900-1919 | a new task runs at its base priority and is ranked by it |
| `Mutexes.PriorityInherit` | FreeRTOS/Source/tasks.c:6580-6676 | the holder's TCB becomes the inherited one, its event item value left alone while in use; true iff the holder's base is below the waiter |
| `Mutexes.PriorityDisinherit` | FreeRTOS/Source/tasks.c:6683-6770 | the holder's TCB becomes the disinherited one; a yield is asked for iff its priority changed |
| `Mutexes.PriorityDisinheritAfterTimeout` | FreeRTOS/Source/tasks.c:6777-6890 | the holder's TCB drops to the higher of its base and the highest waiter, if it holds one mutex, its event item value left alone while in use |
| `Mutexes.PrioritySet` | FreeRTOS/Source/tasks.c:2798-2897 | the base is set in any case, the priority unless an inherited one is higher, the rank from the base unless the value is in use |
| `Mutexes.Mutex.constructor` | FreeRTOS/Source/queue.c:614-637 | a mutex is created free |
| `Mutexes.Mutex.TryTake` | FreeRTOS/Source/queue.c:1679-1733 | a free mutex is taken: count, holder, recursive count and the task's count of mutexes |
| `Mutexes.Mutex.Block` | FreeRTOS/Source/queue.c:1778-1800 | the holder inherits before the task is queued by its rank |
| `Mutexes.Mutex.Give` | FreeRTOS/Source/queue.c:2401-2416 | the giver disinherits, the mutex is freed and the first waiter is woken |
| `Mutexes.Mutex.GiveRecursive` | FreeRTOS/Source/queue.c:756-808 | only the holder can give, and only its last give frees the mutex |
| `Mutexes.Mutex.TakeAgain` | FreeRTOS/Source/queue.c:815-850 | the holder's recursive count goes up |
| `Mutexes.Mutex.DisinheritPriorityAfterTimeout` | FreeRTOS/Source/queue.c:2365-2385 | the priority of the first waiter, or the idle priority |
| `Mutexes.Mutex.AfterTimeOut` | FreeRTOS/Source/queue.c:1826-1868 | a timed-out waiter that had passed its priority on takes it back from the holder |
| `Mutexes.Mutex.TimeOut` | FreeRTOS/Source/tasks.c:4756-4762 | a timed-out waiter leaves the waiting list |
| `MutexRuns.RunOn` | FreeRTOS/Source/queue.c:1651-1873 | any sequence of calls, time-outs and priority changes takes the task and mutex objects to the state the protocol reaches, so that MutexAccounting and InheritanceIsSafe hold of the code |
| `MutexRuns.CreatedIsValid` | FreeRTOS/Source/queue.c:614-637 | tasks and mutexes as created are the start of those runs |
| `Timers.PlaceExact` | FreeRTOS/Source/timers.c:894-935 | for command time C <= N < C + 2^32 and period P: process now iff C + P <= N, otherwise the list of the epoch of C + P |
| `Timers.PlaceExactIff` | FreeRTOS/Source/timers.c:894-935 | beyond a full turn the decision is right iff P is within the residue of N - C |
| `Timers.OldCommandMisjudged` | FreeRTOS/Source/timers.c:894-935 | a concrete command, older than a turn, whose timer was due and is filed as if it were not |
| `Timers.SwitchSeenIff` | FreeRTOS/Source/timers.c:871-891 | whatever the samples: the lists are switched as often as a new epoch began iff less than a full turn has passed |
| `Timers.WrapBetweenSamplesMissed` | FreeRTOS/Source/timers.c:871-891 | two concrete samples, each in an epoch of its own, between which the wrap is not seen |
| `Timers.BacklogIs` | FreeRTOS/Source/timers.c:699-715 | a timer due at E has floor((N - E) / P) + 1 expiries by N |
| `Timers.BacklogEnds` | FreeRTOS/Source/timers.c:699-715 | the expiry after those is the least beyond N |
| `Timers.ReloadIs` | FreeRTOS/Source/timers.c:699-715 | the reload loop makes the callbacks for all of them but the last, and leaves that next expiry |
| `Timers.ExpiredKeepsAccount` | FreeRTOS/Source/timers.c:718-745 | processing a due timer keeps: callbacks are for successive expiries, none early, and the next expiry is the one after |
| `Timers.RunOnSchedule` | FreeRTOS/Source/timers.c:748-779 | over every run of the daemon every account stays on schedule: callbacks for successive expiries, none early, and the next expiry the one after and at most a period ahead |
| `Timers.BlockedNoneDue` | FreeRTOS/Source/timers.c:797-827 | when the daemon blocks no active timer has reached its next expiry |
| `Timers.BlocksOnlyWhenAllFired` | FreeRTOS/Source/timers.c:748-841 | over every run: whenever the daemon blocks, each active timer has fired exactly once for every expiry reached since it was set going |
| `Timers.CommandKeepsExpiriesIff` | FreeRTOS/Source/timers.c:971-1081 | for every command: each expiry owed when it was sent has its callback once it is carried out iff the next expiry was later than the command; later callbacks are for expiries after it |
| `TimerCommands.StopSilences` | FreeRTOS/Source/timers.c:1030-1034 | a stopped timer is inactive and the command makes no callback |
| `TimerCommands.DeleteSilences` | FreeRTOS/Source/timers.c:1051-1075 | a deleted timer is gone, or inactive without a callback if it is static |
| `TimerCommands.PeriodRestarts` | FreeRTOS/Source/timers.c:1036-1049 | after a new period the timer is active, due one period after the sample and has not fired since |
| `TimerCommands.StartRestarts` | FreeRTOS/Source/timers.c:999-1028 | a started auto-reload timer is active, has fired at C + P, C + 2P and so on up to the sample and is due at the least of these beyond it; a one-shot timer has fired once iff C + P has been reached |
| `TimerCommands.OthersKeepTheirAccounts` | FreeRTOS/Source/timers.c:971-997 | a command changes no other timer, unless its sample begins a new epoch |
| `TimerRuns.StoppedStaysSilent` | FreeRTOS/Source/timers.c:1030-1075 | over every run a stopped or deleted timer makes no callback until a later start or period command |
| `TimerRuns.RunGoesOn` | FreeRTOS/Source/timers.c:718-745 | over every run in which no command names it a timer keeps its schedule, only adds callbacks, stays active if auto-reload, and becomes inactive with its one callback if one-shot |
| `TimerRuns.RunningTimerKeepsItsPromise` | FreeRTOS/Source/timers.c:718-841 | then whenever the daemon blocks an auto-reload timer has fired once for each period passed, and a one-shot timer once iff its period has passed |
| `TimerRuns.EachLookGetsOn` | FreeRTOS/Source/timers.c:797-808 | a look that does not block deals with the head and no other: one timer fewer is due |
| `TimerRuns.NewEpochGetsOn` | FreeRTOS/Source/timers.c:1086-1108 | a look in a new epoch fires every timer that was due in the old one |
| `Timers.StartOvertakesExpiry` | FreeRTOS/Source/timers.c:977-1027 | the witness: a start command discards an expiry that was due before it was sent but not yet processed, and the timer would have fired for it |
| `Timers.FiledByEpoch` | FreeRTOS/Source/timers.c:871-935 | each active timer is in exactly one list: the current one iff due in the sampled epoch, the overflow one iff due in the next |
| `Timers.TimerService.constructor` | FreeRTOS/Source/timers.c:1111-1140 | both lists start empty |
| `Timers.TimerService.CreateTimer` | FreeRTOS/Source/timers.c:417-445 | a new timer is inactive and in no list |
| `Timers.TimerService.InsertTimerInActiveList` | FreeRTOS/Source/timers.c:894-935 | the timer is entered at its sorted place in the list of its epoch, or in none and processed now iff its expiry has been reached |
| `Timers.TimerService.ReloadTimer` | FreeRTOS/Source/timers.c:699-715 | the loop terminates, makes the callbacks of the specification and files the timer for the next expiry |
| `Timers.TimerService.ProcessExpiredTimer` | FreeRTOS/Source/timers.c:718-745 | the head of the current list fires for every expiry reached, or once, and is filed again or becomes inactive |
| `Timers.TimerService.SwitchTimerLists` | FreeRTOS/Source/timers.c:1086-1108 | every timer left in the current list is processed as of the end of the epoch, no other is touched, and the lists change roles |
| `Timers.TimerService.SampleTimeNow` | FreeRTOS/Source/timers.c:871-891 | what is left of the current list in a new epoch is processed as of its end, every other account is unchanged, and the lists are for the epoch sampled |
| `Timers.TimerService.GetNextExpireTime` | FreeRTOS/Source/timers.c:844-868 | the head of the current list is due before every other active timer; without one nothing is due before the wrap |
| `Timers.TimerService.ProcessTimerOrBlockTask` | FreeRTOS/Source/timers.c:782-841 | either the lists are switched, or the head is processed if due, or the daemon blocks, with no active timer due: for ever iff none is active, otherwise for at least one tick and exactly until the first is due or the counter wraps |
| `Timers.TimerService.StartTimer` | FreeRTOS/Source/timers.c:999-1028 | a timer started at C is due at C + P, and has fired for every expiry reached by the time the command is processed |
| `Timers.TimerService.ChangeTimerPeriod` | FreeRTOS/Source/timers.c:1036-1049 | the new period counts from the sample |
| `Timers.TimerService.StopTimer` | FreeRTOS/Source/timers.c:1030-1034 | a stopped timer is inactive and in no list |
| `Timers.TimerService.DeleteTimer` | FreeRTOS/Source/timers.c:1051-1075 | a dynamic timer is gone, a static one inactive |
| `Timers.TimerService.ProcessCommand` | FreeRTOS/Source/timers.c:971-1081 | all accounts after a command: its timer is on no list while the time is sampled, and is then changed as commanded |
| `Timers.TimerService.ProcessReceivedCommands` | FreeRTOS/Source/timers.c:938-1083 | all accounts after any sequence of commands are those of the commands obeyed one after the other |
| `Timers.TimerService.TimerTaskTurn` | FreeRTOS/Source/timers.c:748-779 | all accounts after a turn: the lists looked at, with the head fired if due, then every command obeyed; it blocked in between iff nothing was due |
| `Timers.TimerService.TimerTask` | FreeRTOS/Source/timers.c:748-779 | any number of turns, from any state of the timers, is a run of the books, so that RunOnSchedule and BlocksOnlyWhenAllFired hold of the code |
| `EventGroupProtocol.PackUnpack` | FreeRTOS/Source/event_groups.c:369-393 | a request survives being packed with its control bits into one word |
| `EventGroupProtocol.ReleasedValue` | FreeRTOS/Source/event_groups.c:620-627 | a released task reads back the bits it was released for |
| `EventGroupProtocol.NormalNotInUse` | FreeRTOS/Source/tasks.c:7569-7584 | a task's normal word is not marked as in use |
| `EventGroupProtocol.SetBitsReleases` | FreeRTOS/Source/event_groups.c:547-644 | a set releases exactly the waiters to which old and new bits give all, or any, of the bits they wait for, and clears a bit iff a released request with clear-on-exit has it |
| `EventGroupProtocol.MetIs` | FreeRTOS/Source/event_groups.c:775-809 | a request for all bits is met iff none is missing, one for any iff one is there |
| `EventGroupCalls.ReleasedTasks` | FreeRTOS/Source/event_groups.c:609-627 | a released task holds the old and the new bits in its word, and any other task is as it was |
| `EventGroupCalls.WaitReplies` | FreeRTOS/Source/event_groups.c:336-403 | bit by bit: a wait returns the bits and clears those waited for if they are there and it was asked to; else it changes nothing, or joins the end of the list with its request |
| `EventGroupCalls.SyncReplies` | FreeRTOS/Source/event_groups.c:205-248 | bit by bit: a sync that covers the mask returns old and new bits and clears the mask; else it leaves and returns what a set does, or waits for the mask |
| `EventGroupCalls.ReturnAfterRelease` | FreeRTOS/Source/event_groups.c:406-459 | a released task returns the bits in its word and clears nothing |
| `EventGroupCalls.ReturnAfterTimeOut` | FreeRTOS/Source/event_groups.c:417-450 | a timed-out task returns the bits there are and clears those it waited for iff they are there after all and it was asked to |
| `EventGroupCalls.ClearClears` | FreeRTOS/Source/event_groups.c:472-500 | the bits given are cleared, no other, and nobody is woken |
| `EventGroupCalls.TimeOutTakesOff` | FreeRTOS/Source/tasks.c:4755-4763 | a waiter whose time is up leaves the list, its word and the bits as they were |
| `EventGroupCalls.DeleteReleases` | FreeRTOS/Source/event_groups.c:647-670 | every waiter is released with no bits and no other task changes |
| `EventGroupCalls.WordHoldsNumber` | FreeRTOS/Source/tasks.c:7569-7584 | the word of a number has a one exactly where the number has one in binary |
| `EventGroupCalls.PriorityInWord` | FreeRTOS/Source/tasks.c:2892-2901 | after a priority change the word of a task in no wait holds the number of priorities less the new one; that of a waiting task stays |
| `EventGroupCalls.RunningWord` | FreeRTOS/Source/tasks.c:7569-7584 | the word of a task in no wait holds the number of priorities less its own |
| `EventGroupProtocol.OrderDoesNotMatter` | FreeRTOS/Source/event_groups.c:576-637 | the order of the waiting list changes neither what is released nor what is cleared |
| `EventGroupProtocol.StepKeepsInv` | FreeRTOS/Source/event_groups.c:336-403 | every call, time-out, return and priority change keeps: the condition of no listed waiter is met, and the word of a released task meets its request |
| `EventGroupProtocol.NoStrandedWaiter` | FreeRTOS/Source/event_groups.c:547-644 | in every reachable state a listed task that waits for all its bits lacks one and one that waits for any has none; each task released by bits returns all, or one, of its bits whatever its priority became, unless the group was deleted |
| `EventGroupProtocol.AllWaitUntilCovered` | FreeRTOS/Source/event_groups.c:205-240 | until the mask is covered every arrival waits, in order, and the bits add up |
| `EventGroupProtocol.Rendezvous` | FreeRTOS/Source/event_groups.c:205-301 | the arrival that covers the mask returns at once and releases all others with every bit come together; the mask is cleared and nobody waits |
| `EventGroupProtocol.RendezvousInAnyOrder` | FreeRTOS/Source/event_groups.c:205-301 | in any arrival order of tasks that are all needed, none is released before the last arrival and all are by it |
| `EventGroups.EventGroup.constructor` | FreeRTOS/Source/event_groups.c:145-178 | a group starts with no bits and no waiters |
| `EventGroups.EventGroup.RemoveFromUnorderedEventList` | FreeRTOS/Source/tasks.c:5434-5475 | the item leaves the list and its word holds the value, marked as in use |
| `EventGroups.EventGroup.TestWaiter` | FreeRTOS/Source/event_groups.c:577-632 | one turn of the walk judges one waiter and keeps what the walk has established |
| `EventGroups.EventGroup.ReleaseWaiters` | FreeRTOS/Source/event_groups.c:577-632 | the walk over the changing list releases and keeps the waiters of the specification |
| `EventGroups.EventGroup.SetBits` | FreeRTOS/Source/event_groups.c:547-644 | the call is the specified set, and returns the bits that are left |
| `EventGroups.EventGroup.ClearBits` | FreeRTOS/Source/event_groups.c:472-500 | bits are cleared and their former value returned |
| `EventGroups.EventGroup.Place` | FreeRTOS/Source/tasks.c:5272-5297 | the request goes into the word and the task to the end of the list |
| `EventGroups.EventGroup.WaitBits` | FreeRTOS/Source/event_groups.c:336-403 | a met condition returns at once and clears if asked, an unmet one returns or blocks |
| `EventGroups.EventGroup.Sync` | FreeRTOS/Source/event_groups.c:205-248 | the bits are set before the mask is tested, and a complete mask is cleared |
| `EventGroups.EventGroup.Return` | FreeRTOS/Source/event_groups.c:406-460 | after blocking: the released value, or after a time-out the bits now, cleared if the condition is met after all |
| `EventGroups.EventGroup.TimeOut` | FreeRTOS/Source/tasks.c:4756-4762 | a waiter whose time is up leaves the list with its word as it was |
| `EventGroups.EventGroup.SetPriority` | FreeRTOS/Source/tasks.c:2887-2897 | a priority change leaves a word in use alone and sets any other from the priority |
| `EventGroups.EventGroup.Delete` | FreeRTOS/Source/event_groups.c:647-670 | deletion releases every waiter with an empty value |
| `EventGroupRuns.RunOn` | FreeRTOS/Source/event_groups.c:547-644 | any sequence of calls, time-outs and priority changes takes the group to the state the protocol reaches, so that NoStrandedWaiter holds of the code |
| `Schedule.BlockKeepsInv` | FreeRTOS/Source/tasks.c:8415-8490 | blocking files the task in one delayed or suspended list |
| `Schedule.BlockKeepsInvIff` | FreeRTOS/Source/tasks.c:8415-8490 | blocking keeps the scheduler consistent iff the block time is not zero |
| `Schedule.TickKeepsInv` | FreeRTOS/Source/tasks.c:4670-4921 | a tick keeps every task in its place and every sleeper ahead of the time |
| `Schedule.ResumeAllKeepsInv` | FreeRTOS/Source/tasks.c:3956-4103 | resuming leaves nothing pending and every task in its place |
| `Schedule.UnblockKeepsInv` | FreeRTOS/Source/tasks.c:5341-5431 | an event keeps every task in its place and every sleeper ahead of the time |
| `SchedulerCalls.EventReadies` | FreeRTOS/Source/tasks.c:5341-5431 | the task an event is for leaves the event list and is ready at once, or pending while the scheduler is suspended; a switch is asked for iff it outranks; no other task is touched |
| `SchedulerCalls.UnorderedEventReadies` | FreeRTOS/Source/tasks.c:5434-5495 | the task is ready at once and a switch asked for iff it outranks; no other task is touched |
| `SchedulerCalls.PendingReadied` | FreeRTOS/Source/tasks.c:3988-4021 | the first pending task is made ready and a switch asked for iff it outranks |
| `SchedulerCalls.AllPendingReadied` | FreeRTOS/Source/tasks.c:3988-4021 | afterwards exactly the ready and the pending tasks are ready |
| `SchedulerCalls.PendingAsksForSwitch` | FreeRTOS/Source/tasks.c:4005-4008 | a switch is asked for afterwards iff it was before or a pending task outranks |
| `SchedulerCalls.ResumeReadies` | FreeRTOS/Source/tasks.c:3353-3406 | a task in the suspended list that is not current, waits for nothing and is not pending is made ready; otherwise nothing happens |
| `SchedulerCalls.ResumeFromISRReadies` | FreeRTOS/Source/tasks.c:3414-3500 | the same from an interrupt, held pending while the scheduler is suspended |
| `SchedulerCalls.SuspendHolds` | FreeRTOS/Source/tasks.c:3121-3172 | the task is in the suspended list, in no other, and no event is for it; no other task is touched |
| `SchedulerCalls.DeleteForgets` | FreeRTOS/Source/tasks.c:2191-2260 | the task is in no list and forgotten, or awaits termination iff it runs; no other task is touched |
| `SchedulerCalls.CleanUpAllForgets` | FreeRTOS/Source/tasks.c:6043-6072 | exactly the tasks awaiting termination are forgotten |
| `SchedulerCalls.CreateReadies` | FreeRTOS/Source/tasks.c:2019-2093 | the new task is ready at its priority and no other is touched |
| `SchedulerCalls.ReprioritiseMoves` | FreeRTOS/Source/tasks.c:2903-2920 | a ready task is ready at its new priority, any other stays where it is |
| `SchedulerCalls.BlockFiles` | FreeRTOS/Source/tasks.c:8415-8490 | the current task sleeps until now + ticks, or is put with the suspended tasks if for ever, and waits for an event iff it was put on an event list; no other task is touched |
| `SchedulerCalls.TickWakes` | FreeRTOS/Source/tasks.c:4691-4908 | a tick moves time on, makes each task that is due ready and out of any event list, and touches no other; while suspended it is only counted |
| `SchedulerCalls.SwitchMovesNobody` | FreeRTOS/Source/tasks.c:5056-5114 | a switch moves no task and takes the request back; while suspended it is only noted |
| `SchedulerCalls.TickAsksForSwitch` | FreeRTOS/Source/tasks.c:4773-4870 | a tick asks for a switch iff one was asked for, it wakes a task of higher priority than the current one, or two tasks are then ready at that priority |
| `SchedulerCalls.TickPreempts` | FreeRTOS/Source/tasks.c:4773-4870 | if no ready task outranks the current one, which is ready, then iff one was asked for or another ready task is then at least its equal |
| `SchedulerEvents.EventReleases` | FreeRTOS/Source/tasks.c:5341-5431 | over every run after an event for a task that is not suspended or deleted and does not itself block, the task is ready or pending, and ready in each state in which the scheduler is not suspended |
| `SchedulerEvents.ResumptionReleases` | FreeRTOS/Source/tasks.c:3414-3500 | the same of a task resumed by an interrupt |
| `SchedulerEvents.SleepsForEver` | FreeRTOS/Source/tasks.c:8445-8453 | over every run a task that blocks for ever is not ready until an event comes for it, it is deleted or, if it waits for none, resumed |
| `SchedulerEvents.StaysSuspendedUntilResumed` | FreeRTOS/Source/tasks.c:3121-3172 | over every run a suspended task is not ready until it is resumed or deleted |
| `SchedulerEvents.RequestStaysUntilSwitch` | FreeRTOS/Source/tasks.c:5060-5068 | over every run a switch that was asked for stays asked for until one is carried out |
| `SchedulerEvents.EventPreempts` | FreeRTOS/Source/tasks.c:5394-5411 | an event for a task of higher priority asks for a switch, which runs a task of at least that priority |
| `SchedulerEvents.SuspensionsNest` | FreeRTOS/Source/tasks.c:3811-3982 | over every run the scheduler is suspended as often as it was suspended and not resumed |
| `Preemption.NoPreemptionMissed` | FreeRTOS/Source/tasks.c:3956-4103 | over every run of interrupts, ticks, switches and suspensions of the scheduler: whenever a ready task outranks the current one a switch has been asked for |
| `Schedule.SuspendKeepsInv` | FreeRTOS/Source/tasks.c:3121-3172 | a suspended task is in the suspended list and on no event list |
| `Schedule.ResumeFromISRKeepsInv` | FreeRTOS/Source/tasks.c:3414-3500 | a task resumed by an interrupt is ready, or pending while the scheduler is suspended |
| `Schedule.DeleteKeepsInv` | FreeRTOS/Source/tasks.c:2191-2314 | a deleted task is gone, or awaits termination if it runs |
| `Schedule.ReprioritiseKeepsInv` | FreeRTOS/Source/tasks.c:2903-2920 | a ready task moves to the list of its new priority, any other stays where it is |
| `Schedule.IdleIsReady` | FreeRTOS/Source/tasks.c:178-193 | as long as the idle task is ready the scan finds a task |
| `Schedule.BootedInv` | FreeRTOS/Source/tasks.c:6011-6040 | the scheduler with the idle task alone is consistent |
| `Schedule.InsertIsAtPosition` | FreeRTOS/Source/list.c:161-193 | the insertion among the sleepers is insertion where the scan of a list by wake times stops |
| `Schedule.TasksOfRemove` | FreeRTOS/Source/list.c:215-245 | removing a sleeper is removing its task from the list of tasks |
| `ScheduleRuns.RunKeepsInv` | FreeRTOS/Source/tasks.c:3956-4103 | every run of kernel operations keeps the scheduler consistent |
| `ScheduleRuns.EveryTaskInOnePlace` | FreeRTOS/Source/tasks.c:268-274 | in every reachable state each task is in exactly one of the ready, delayed, suspended and termination lists, ready ones in the list of their priority; the lists add up to the number of tasks; nothing is pending while the scheduler runs |
| `ScheduleRuns.WakesExactly` | FreeRTOS/Source/tasks.c:4715-4772 | waking up to a limit wakes a sleeper iff it is due by then |
| `ScheduleRuns.WakesOnTime` | FreeRTOS/Source/tasks.c:8415-8490 | a task that blocks for d ticks at T and is left alone is asleep in every later state before T + d, and ready in the first at or after T + d, however ticks are pended and counters wrap |
| `ScheduleRuns.TicksAreConserved` | FreeRTOS/Source/tasks.c:4905-4908 | over every run ticks processed plus ticks pended equal ticks that occurred |
| `ScheduleRuns.ResumeCatchesUp` | FreeRTOS/Source/tasks.c:3956-4103 | the outermost resume leaves what the release of the pending tasks and then the pended ticks taken directly would leave |
| `ScheduleRuns.SuspensionDefersTicks` | FreeRTOS/Source/tasks.c:3811-4103 | whatever is done while the scheduler is suspended, resuming leaves what the same calls without ticks, the release of pending tasks and then all the ticks would leave |
| `ScheduleRuns.SuspensionIsInvisible` | FreeRTOS/Source/tasks.c:3811-3888 | over any nesting of suspensions in which nothing else happens the time, the sleepers and the ready lists are those after the same ticks taken directly, up to those still pended; none are pended once the scheduler runs |
| `ScheduleRuns.SwitchPicksHighest` | FreeRTOS/Source/tasks.c:178-193 | a switch picks a ready task that no ready task outranks |
| `ScheduleRuns.EqualShares` | FreeRTOS/Source/tasks.c:178-193 | with n unchanged tasks at the top priority n switches run each exactly once |
| `DelayedLists.FiledByWakeTick` | FreeRTOS/Source/tasks.c:8459-8489 | filing under the wrapped wake tick, in the overflow list iff the sum wraps, is insertion at now + ticks in unbounded time |
| `DelayedLists.RemovedFromOne` | FreeRTOS/Source/tasks.c:4756 | leaving the one list that holds the task is removal in unbounded time |
| `DelayedLists.SwitchedLists` | FreeRTOS/Source/tasks.c:248-260 | exchanging the lists at the wrap changes nothing in unbounded time |
| `DelayedLists.ListsAroundTheTick` | FreeRTOS/Source/tasks.c:4695-4704 | the current list wakes after the tick, the overflow list has values below it, and the current list is empty when the counter is about to wrap |
| `Tasks.Kernel.constructor` | FreeRTOS/Source/tasks.c:6011-6040 | the initial lists represent the booted scheduler |
| `Tasks.Kernel.AddTaskToReadyList` | FreeRTOS/Source/tasks.c:268-274 | the task joins the list of its priority and the cached top priority stays an upper bound |
| `Tasks.Kernel.RemoveStateItem` | FreeRTOS/Source/include/list.h:322-338 | leaving the one containing list is removal from all |
| `Tasks.Kernel.ResetNextTaskUnblockTime` | FreeRTOS/Source/tasks.c:6456-6474 | the next unblock time is that of the first delayed task, or the maximum |
| `Tasks.Kernel.AddToDelayedList` | FreeRTOS/Source/tasks.c:8455-8490 | the task is filed by its wrapped wake tick, and the next unblock time is not after it |
| `Tasks.Kernel.AddCurrentTaskToDelayedList` | FreeRTOS/Source/tasks.c:8415-8490 | the current task leaves its ready list and sleeps for ticks, or for ever |
| `Tasks.Kernel.PlaceOnEventList` | FreeRTOS/Source/tasks.c:5243-5297 | the current task joins an event list and blocks |
| `Tasks.Kernel.SwitchDelayedLists` | FreeRTOS/Source/tasks.c:248-260 | with an empty current list the roles change, the overflow count goes up and the unblock time is reset |
| `Tasks.Kernel.AdvanceTick` | FreeRTOS/Source/tasks.c:4691-4704 | the tick moves on; the assertion that the current list is empty at the wrap always holds |
| `Tasks.Kernel.WakeAllExpired` | FreeRTOS/Source/tasks.c:4713-4802 | the loop wakes all who are due, in order, and none else |
| `Tasks.Kernel.UnblockTasks` | FreeRTOS/Source/tasks.c:4711-4803 | skipping the loop before the next unblock time leaves nobody asleep who is due |
| `Tasks.Kernel.ProcessTick` | FreeRTOS/Source/tasks.c:4691-4884 | a tick is the specified tick; a switch is asked for iff a woken task outranks, one of equal priority is ready or a yield is pending |
| `Tasks.Kernel.IncrementTick` | FreeRTOS/Source/tasks.c:4670-4921 | the same, or one more pended tick while the scheduler is suspended |
| `Tasks.Kernel.SuspendAll` | FreeRTOS/Source/tasks.c:3811-3828 | one more suspension |
| `Tasks.Kernel.MovePendingReady` | FreeRTOS/Source/tasks.c:3988-4034 | the loop moves every pending task to its ready list and notes a yield for those that outrank |
| `Tasks.Kernel.ReplayPendedTicks` | FreeRTOS/Source/tasks.c:4043-4068 | the loop processes exactly the pended ticks, one by one, and leaves none |
| `Tasks.Kernel.ResumeAll` | FreeRTOS/Source/tasks.c:3956-4103 | only the outermost resume catches up: pending tasks first, then pended ticks |
| `Tasks.Kernel.Delay` | FreeRTOS/Source/tasks.c:2435-2477 | a delay is a block between a suspension and a resumption; zero delays nothing |
| `Tasks.Kernel.HighestReady` | FreeRTOS/Source/tasks.c:178-187 | the downward scan from the cached top finds the highest non-empty list and never passes zero |
| `Tasks.Kernel.SelectHighestPriorityTask` | FreeRTOS/Source/tasks.c:178-193 | the next task of the highest ready list becomes current and the cached top is exact |
| `Tasks.Kernel.SwitchContext` | FreeRTOS/Source/tasks.c:5056-5114 | while the scheduler is suspended a switch is only noted |
| `Tasks.Kernel.RemoveFromEventList` | FreeRTOS/Source/tasks.c:5341-5431 | the woken task is made ready, or held pending; true iff it outranks the current one |
| `Tasks.Kernel.RemoveFromUnorderedEventList` | FreeRTOS/Source/tasks.c:5434-5495 | the woken task is made ready and a yield noted iff it outranks |
| `Tasks.Kernel.Suspend` | FreeRTOS/Source/tasks.c:3121-3232 | the task leaves every list for the suspended list |
| `Tasks.Kernel.Resume` | FreeRTOS/Source/tasks.c:3353-3406 | only a task that is suspended, not current, not waiting and not already resumed is made ready |
| `Tasks.Kernel.ResumeFromISR` | FreeRTOS/Source/tasks.c:3414-3500 | the same from an interrupt, held pending while the scheduler is suspended; a yield is required iff it outranks |
| `Tasks.Kernel.Delete` | FreeRTOS/Source/tasks.c:2191-2314 | the task leaves every list and is forgotten, or awaits termination if it runs; the number of tasks agrees |
| `Tasks.Kernel.CheckTasksWaitingTermination` | FreeRTOS/Source/tasks.c:6043-6072 | the loop frees every task that awaits termination |
| `Tasks.Kernel.AddNewTask` | FreeRTOS/Source/tasks.c:2019-2093 | a new task is counted and ready |
| `Tasks.Kernel.Reprioritise` | FreeRTOS/Source/tasks.c:2903-2920 | a change of priority moves a ready task to its new list and no other task |
| `KernelRuns.RunOn` | FreeRTOS/Source/tasks.c:3956-4103 | any sequence of calls and interrupts takes the kernel to the state the specification reaches |
| `KernelRuns.RunFromStart` | FreeRTOS/Source/tasks.c:3665-3760 | the same from the start of the scheduler, so that what ScheduleRuns proves holds of the code |

## Left out

- Multi-core branches, core affinity, MPU wrappers, thread-local storage, trace and run-time statistics, tickless idle.
- Context switching, interrupt masking and the port layer: a critical section is an atomic step, memory is sequentially consistent.
- The bit map of ready priorities: the generic downward scan is modelled.
- Memory allocation: creation and deletion add and remove an object. Static buffers are not distinguished, except for timers.
- Task notifications, delay abortion beyond its effect on a time-out, direct tick catch-up, thread hooks and the tick hook.
- Queue sets, the queue registry, co-routines and the co-routine queue API.
- The blocking loops of stream buffers, their trigger levels and their interrupt variants: send and receive without waiting are modelled, and the interleaving of their memory steps.
- The order of a queue's waiting lists: QueueProtocol lets a task be inserted anywhere, so its results hold for every order; MutexProtocol and Lists have the sorted insertion.
- TCBs in Tasks, EventGroups and Queues are values in maps and task numbers, not objects; Mutexes, MutexRuns, Timers and Lists have objects. Aliasing of a TCB's two list items across lists is therefore seen only in Lists.
- Tasks.Kernel.AddNewTask: creates tasks with the scheduler running; the choice of the current task before it starts is not modelled.
- Queues.Queue.Send: the yield when the woken receiver outranks the sender is not modelled, because the queue machine has no priorities.
- Queues.Queue.SendFromISR: the result that tells the interrupt to yield is not modelled, for the same reason.
- Queues.Queue.Receive: the yield when the woken sender outranks the receiver is not modelled, for the same reason.
- Queues.Queue.ReceiveFromISR: the result that tells the interrupt to yield is not modelled, for the same reason.
- Queues.Queue.UnlockTx: the missed yield for a woken task that outranks is not modelled, for the same reason; Tasks.Kernel.RemoveFromEventList has it.
- Queues.Queue.UnlockRx: the missed yield for a woken task that outranks is not modelled, for the same reason.
- Mutexes.PriorityInherit: the ready list of the holder is not part of the TCB; Tasks.Kernel.Reprioritise moves a task between ready lists.
- Mutexes.PrioritySet: the choice to yield is left out, and so is the ready list.
- MutexProtocol.StepKeepsAccounts: no step of the machine puts a task's event item value in use; the functions on TCBs have that test.
- StreamBuffers.StreamBuffer.constructor: the trigger level, the batching flag and the notification index are not modelled.
- StreamBuffers.StreamBuffer.SendMessage: the wait for space and the notification of the reader are left out.
- StreamBuffers.StreamBuffer.ReceiveMessage: the wait for data and the notification of the writer are left out.
- Timers.TimerService.TimerTask: starts from any state of the timers; creation comes between runs, by CreateTimer.
- Schedule.BlockKeepsInv: asks for a block time above zero, as every caller in the kernel does; Schedule.BlockKeepsInvIff says that zero would break the lists.
- Tasks.Kernel.AddToDelayedList: asks for a block time above zero, for the same reason.
- Tasks.Kernel.AddCurrentTaskToDelayedList: asks for a block time above zero, for the same reason.
- Tasks.Kernel.PlaceOnEventList: asks for a block time above zero, for the same reason; the timer service passes at least one tick.
- Sums of sizes in stream_buffer.c that overflow size_t: lengths are mathematical.
- Timer callbacks and pended functions are recorded or left out, and touch no timer.
- Timers.TimerService.ProcessCommand: a timer that is deleted dynamically gets no later command, which is the caller's duty.
- QueueProtocol.NoLostWakeup: suspending or deleting a task that has been woken and has not looked at the queue is not a step of the machine.
- MutexProtocol.InheritanceIsSafe: taking a mutex from an interrupt, and a call made while the scheduler is already suspended, are not steps of the machine.
- EventGroupProtocol.NoStrandedWaiter: a task that timed out does not touch a group deleted meanwhile, which is the caller's duty.
- The choice when to yield after vTaskPrioritySet and after giving a mutex with waiters: the requests made through the pending flag are modelled, the immediate yields are not.
