# A verified model of the FreeRTOS kernel and the receive log of this firmware

The firmware builds on the FreeRTOS V10.0.1 kernel under `FreeRTOS/`. This project models the parts
of the kernel that are hard to get right by reading one function at a time, and the receive log of
`User/app_ch340.c`, and proves what they promise.

Every piece comes as a pair or a triple.

* A specification on unbounded integers and sequences: `ListSpec`, `SchedulerSpec`, `QueueSpec`,
  `TimerSpec`, `EventGroupSpec`, `StreamBytes`, `MutexProtocol`.
* Classes whose fields and methods are those of the C code, with wrapped 32-bit ticks, circular
  arrays, linked lists and bit fields, proved against the specification: `HeapList`, `KernelLists`,
  `Timeouts`, `QueueStorage`, `Inheritance`, `TimerDaemon`, `StreamBuffers`, `EventGroups`,
  `LogRing`.
* State machines over tasks and interrupts, with theorems about every run: `SchedulerRuns`,
  `SchedulerTheorems`, `TimeSlices`, `Deferral`, `QueueProtocol`, `QueueTheorems`, `MutexRuns`, `MutexExact`,
  `MutexTheorems`, `MutexScenarios`, `TimerTheorems`, `MessageProtocol`, `MessageRuns`, `EventRuns`,
  `LogRuns`.
* Laws that fix what each step of those machines does to a task, a list, an item or a bit, in terms of the
  state alone: who becomes ready, who is woken and in which order, what a call answers and when a switch is asked
  for: `SchedulerLaws`, `WaitLaws`, `BlockLaws`, `ReadyLaws`, `QueueLaws`, `MutexLaws`, `TimerLaws`, `EventLaws`.

The configuration is 32-bit ticks, preemption, mutexes, `INCLUDE_vTaskSuspend` 1, five priorities, no
queue sets, no tickless idle, no abort-delay, and the generic task selection of
`FreeRTOS/tasks.c:132-173`. A critical section is one step; a critical section with the scheduler
suspended or a lock held is as many steps as it has points where interrupts can come in. A
`portYIELD` is a pending context switch that a later step serves. True time is a ghost unbounded
clock; the code only sees it modulo 2^32. The bodies of the interrupt and task callers, and the
moments at which anything happens, are free inputs.

## What is false of the code

Some promises hold only under a condition. Lemmas say exactly when, and show a concrete state or run
in which they fail.

* `FreeRTOS/queue.c:810-832` skips the switch that a given-back priority needs when it wakes a task that
  is not above the giver. `MutexTheorems.SwitchIsSkippedIff` is the exact condition, on the state before;
  `MutexTheorems.InheritanceCanFail` shows a mutex holder below a task that waits for it, and
  `MutexScenarios.LateGiveIsReached` that this happens in a real run. `MutexTheorems.HoldersInheritIff`
  is the exact condition for every run under any schedule: holders are as urgent as those they block as long
  as no take overtakes a more urgent waiter, which `MutexRuns.TakeInheritsIff` makes one comparison.
  Strict-priority runs never do (`MutexTheorems.HoldersInherit`).
* The assertion at `FreeRTOS/queue.c:1464-1475`, reached with the mutex taken and no time left, that no
  inheritance has occurred. `MutexScenarios.AssertionFailsIff` says exactly when it fails, in every run under
  any schedule: the task's last step was to find the mutex free after its timeout, and it is taken again.
  `MutexScenarios.AssertionCanFail` gives such a run. The comment there says that the time left cannot become
  0; `FreeRTOS/tasks.c:3158-3161` makes it 0.
* `FreeRTOS/tasks.c:3140-3161` takes an overdue wait for one that still has time left when the check comes
  more than a wrap late: `Timeouts.ExactIff` says for which clock readings, `Timeouts.OverdueMissed` gives
  a case.
* The 128th interrupt operation on a locked queue overflows the `int8_t` count and can lose a wakeup:
  `QueueTheorems.InterruptLosesNoWakeupIff` says exactly when in every run, from
  `QueueTheorems.SendLosesNoWakeupIff` and `QueueTheorems.ReceiveLosesNoWakeupIff`, and
  `QueueTheorems.TooManyInterrupts` gives a run from creation, for a queue of any length above 0, that ends with a
  receiver asleep on a queue with data.
* `FreeRTOS/stream_buffer.c:877-886` moves `xTail` over the length of a message that does not fit and back
  again. A writer that looks in between can destroy messages: `MessageRuns.SendKeepsInvIff` and
  `MessageRuns.AcceptedBytesStayIff` say exactly when, `MessageRuns.MessagesCanBeLost` gives a run from a
  new buffer.
* `FreeRTOS/tasks.c:4625` and `FreeRTOS/tasks.c:4747` assert that a task waiting for a notification has its event
  list item free. `WaitLaws.ItemsStayFreeIff` says when that is safe in every run: as long as no task starts to
  wait for a notification with a wakeup for it pending. `WaitLaws.NotificationItemInUse` gives a run in which it is
  not: a task polls twice with the scheduler suspended, and is notified in both windows.
* `FreeRTOS/list.c:84-86` says that an item inserted at the end is the last to be selected. The item under the
  cursor comes after it, which is the task that has just run only as long as that task stays in the list.
  `ReadyLaws.NewcomerBehindIff` says when a task that becomes ready goes in front of one that waited for its turn:
  when the running task has left the list and the other one had run just before it.
* `User/app_ch340.c:68-72` returns without starting the next receive when the log is full, so a dropped
  chunk ends reception in every run: `LogRuns.DropEndsReception`.

## Model

| member | source | states |
|---|---|---|
| HeapList.List.InsertEnd | FreeRTOS/list.c:74-101 | Keeps the circular doubly linked shape, the count, the owners' container field and the cursor, and puts the item directly behind the cursor of the sequence view |
| HeapList.List.Insert | FreeRTOS/list.c:103-166 | The scan ends for every value, portMAX_DELAY included; the item lands in sorted order behind its equals, and cursor and shape stay right |
| HeapList.List.Remove | FreeRTOS/list.c:170-196 | Found through its container field, exactly that item goes; a cursor on it steps back; the new length is returned |
| HeapList.List.NextEntry | FreeRTOS/include/list.h:276-286 | The cursor advances by one item, skipping the end marker, and that item is returned |
| HeapList.InsertThenRemove | FreeRTOS/list.c:103-196 | Removing a sorted insertion restores the circle, the cursor and every value |
| ListSpec.InsertIsStable | FreeRTOS/list.c:103-166 | Sorted insertion keeps order, loses nothing, and puts an item behind its equals |
| ListSpec.InsertPosUnique | FreeRTOS/list.c:138-153 | No other insertion point is sorted and last among equals |
| ListSpec.RemoveUndoesInsertEnd | FreeRTOS/list.c:74-196 | Removing an item added at the end restores the list with its cursor |
| ListSpec.RoundRobin | FreeRTOS/tasks.c:161-164 | n consecutive selections over n fixed tasks visit each of them exactly once |
| ListSpec.TurnIsKept | FreeRTOS/list.c:74-101 | However many tasks are added in between, a task at place p of the upcoming order is the (p+1)-th selected |
| DelayLists.InsertCurrent | FreeRTOS/tasks.c:4912-4983 | Inserting a wrapped time in the list of this epoch is one sorted insertion of the true time in the merged list |
| DelayLists.InsertOverflow | FreeRTOS/tasks.c:4912-4983 | The same for a time of the next epoch and the overflow list |
| DelayLists.SwapIsInvisible | FreeRTOS/tasks.c:215-227 | With the current list empty, swapping the lists at an epoch change alters no true time |
| DelayLists.WithoutMerged | FreeRTOS/list.c:170-196 | Unlinking a task from whichever of the two lists holds it is unlinking it from the merged list |
| KernelLists.Kernel.NothingLeftBehind | FreeRTOS/tasks.c:215-227 | The code's assertion: at the tick that wraps the count the current delayed list is empty |
| KernelLists.Kernel.ResetNextTaskUnblockTime | FreeRTOS/tasks.c:3730-3751 | The cached unblock time is the head's wake time, or portMAX_DELAY for an empty list |
| KernelLists.Kernel.SwitchDelayedLists | FreeRTOS/tasks.c:215-227 | Lists exchanged, overflow counted, and the cache is the wake time of the new head, or portMAX_DELAY |
| KernelLists.Kernel.IncrementTick | FreeRTOS/tasks.c:2589-2758 | With wrapped times, two lists and the cache, does what the unbounded-clock tick does, return value included; SchedulerLaws.TickWakesTheDue says what that is |
| KernelLists.Kernel.WakeDueTasks | FreeRTOS/tasks.c:2629-2698 | The drain loop wakes exactly the tasks whose true time has come, in order, off their event lists too, and leaves the cache right |
| KernelLists.Kernel.AddCurrentTaskToDelayedList | FreeRTOS/tasks.c:4912-4983 | Blocks the running task until true time now + ticks, or for ever, and lowers the cache when it must |
| KernelLists.Kernel.PlaceOnEventList | FreeRTOS/tasks.c:2910-2924 | The running task goes on the event list in priority order and blocks |
| KernelLists.Kernel.RemoveFromEventList | FreeRTOS/tasks.c:2984-3049 | The first waiter becomes ready, or pending while the scheduler is suspended; a more urgent one leaves a switch pending |
| KernelLists.Kernel.RemoveFromUnorderedEventList | FreeRTOS/tasks.c:3052-3083 | Any waiter leaves its event list and becomes ready while the scheduler is suspended; a more urgent one leaves a switch pending |
| KernelLists.Kernel.Notify | FreeRTOS/tasks.c:4563-4664 | A task that waits for a notification leaves whichever list it sleeps in and becomes ready; a switch is requested for a more urgent one |
| KernelLists.Kernel.NotifyFromIsr | FreeRTOS/tasks.c:4669-4784 | The same from an interrupt, deferred to the pending list while the scheduler is suspended |
| KernelLists.Kernel.NotifyWait | FreeRTOS/tasks.c:4483-4520 | Blocks until true time now + ticks unless a notification has come already |
| KernelLists.Kernel.Suspend | FreeRTOS/tasks.c:1630-1690 | The task leaves its state list and its event list for the suspended list, stops waiting for a notification, and the cached unblock time stays right |
| KernelLists.Kernel.Resume | FreeRTOS/tasks.c:1731-1846 | A task becomes ready only if it is really suspended: not resumed already, and not waiting for an event without a timeout |
| KernelLists.Kernel.ResumeAll | FreeRTOS/tasks.c:2105-2212 | Both drain loops together do what the specification's ResumeAll does; the answer says whether a switch was requested |
| KernelLists.Kernel.SwitchContext | FreeRTOS/tasks.c:2851-2907 | Selects round robin from the highest non-empty ready list, or defers the switch while suspended |
| SchedulerRuns.StepKeepsInv | FreeRTOS/tasks.c:2589-3083 | Every step of tasks and interrupts keeps: one home per task, ready list p only of priority p, wake times ahead by less than a wrap, nothing deferred while running |
| SchedulerTheorems.BootInv | FreeRTOS/tasks.c:1901-2010 | The state in which the scheduler starts meets that invariant |
| SchedulerTheorems.RunningTaskIsHighest | FreeRTOS/tasks.c:2851-2907 | In every run, with no switch outstanding, no ready task is above the running one; uxTopReadyPriority bounds every non-empty list |
| SchedulerTheorems.OutstandingSwitchIsServed | FreeRTOS/tasks.c:2105-2212 | A pending yield makes the next tick, or xTaskResumeAll, request a switch |
| TimeSlices.FairShare | FreeRTOS/tasks.c:2701-2720 | Ticks and the switches they ask for run the ready tasks of the highest priority in turn, while less urgent ones sleep, wake, are notified, suspended and resumed: in as many slices as there are such tasks, each exactly once |
| SchedulerTheorems.DelayEndsExactly | FreeRTOS/tasks.c:2599-2698 | A task that blocks at tick T for d ticks in any way and is not released is not ready before tick T + d is processed and ready right after, across any number of wraps |
| Deferral.IsrTouchesNoStateList | FreeRTOS/tasks.c:3006-3016 | While the scheduler is suspended interrupts change no ready, delayed or suspended list |
| Deferral.WindowSplits | FreeRTOS/tasks.c:2984-3049 | With the scheduler suspended, any interleaving of the task's own steps and interrupts comes to the same, but for the switch flags, as the task's steps first and the interrupts after them |
| Deferral.ResumeAllCatchesUp | FreeRTOS/tasks.c:2105-2212 | After such a window the outermost resume empties the pending list, advances the clock by the pended ticks, and reaches the state of the task's own steps first, then the wakeups with the scheduler running, then those ticks one by one |
| SchedulerLaws.TickWakesTheDue | FreeRTOS/tasks.c:2651-2720 | One tick: exactly the tasks whose time has come leave the sleepers and their event lists and become ready; a switch is asked for if and only if one was pending, one of them is at least as urgent as the running task, or others share its priority |
| SchedulerLaws.ResumeAllWakes | FreeRTOS/tasks.c:2105-2212 | The outermost resume: the pending tasks, and those due after the pended ticks, become ready and leave the sleepers; those due, but for the pending ones, leave their event lists; a switch is asked for exactly for these reasons |
| SchedulerLaws.ReadyAfterStepIff | FreeRTOS/tasks.c:2589-3083 | For every step and task: ready afterwards if and only if the step wakes it, or it was ready and does not block in the step |
| SchedulerLaws.SwitchIsAskedIff | FreeRTOS/tasks.c:2672-2716 | For every step: exactly when it requests a switch, and exactly when it leaves one pending instead |
| SchedulerLaws.SwitchRunsNext | FreeRTOS/tasks.c:2851-2907 | A context switch runs the next in turn of the highest priority that is ready, puts it last, and changes nothing else; with the scheduler suspended it is only put off |
| WaitLaws.StepThins | FreeRTOS/tasks.c:2984-3083 | Every step but a wait only takes items off the event lists; those that stay keep their order |
| WaitLaws.ListedAfterStepIff | FreeRTOS/tasks.c:2910-3083 | For every step, task and event list: on the list afterwards if and only if it has just blocked there, or it was there and has not timed out, been woken or been suspended |
| WaitLaws.MostUrgentIsTaken | FreeRTOS/tasks.c:2984-3005 | In every run an event takes exactly one waiter off its list, of the highest priority of all that wait there, and makes it ready or pending |
| WaitLaws.UnorderedTakes | FreeRTOS/tasks.c:3052-3083 | An event group takes exactly the waiter it chooses off the list and makes it ready |
| WaitLaws.NobodyOvertakes | FreeRTOS/tasks.c:2910-2924 | In every run, as long as a task waits for an event, no task that is not more urgent and was not in front of it gets in front or is given the event; so equals are woken in order of arrival |
| WaitLaws.ItemsStayFreeIff | FreeRTOS/tasks.c:4617-4625 | In every run the assertion that a task waiting for a notification has its event list item free is safe throughout, if and only if no task starts such a wait with a wakeup for it pending |
| WaitLaws.NotificationItemInUse | FreeRTOS/tasks.c:4740-4756 | A run from start-up after which that assertion fails at the next notification |
| BlockLaws.WaitForEverParks | FreeRTOS/tasks.c:4937-4952 | A wait with portMAX_DELAY puts the task on the suspended list |
| BlockLaws.RestsUntilFreed | FreeRTOS/tasks.c:4937-4952 | Such a task is not ready in any later state, however much time passes, until an event, a notification or a resume is for it |
| BlockLaws.FreedIsReady | FreeRTOS/tasks.c:2984-3049 | Each of these makes it ready, at once or when the scheduler resumes |
| BlockLaws.SuspendQuiets | FreeRTOS/tasks.c:1630-1690 | A suspended task waits for no event and no notification any more, and no wakeup for it is pending |
| BlockLaws.SuspendedUntilResumed | FreeRTOS/tasks.c:1731-1846 | In every run a suspended task is not ready until it is resumed, whatever events, notifications and ticks there are, and resuming it makes it ready |
| BlockLaws.NotificationIsKept | FreeRTOS/tasks.c:4483-4560 | In every run a notification is kept until the task finishes a wait for one, and until then such a wait goes through without blocking |
| BlockLaws.NotificationIsReceived | FreeRTOS/tasks.c:4563-4664 | Any notification is recorded; one that the task does not wait for changes nothing else |
| BlockLaws.NotificationServesOnce | FreeRTOS/tasks.c:4527-4555 | After a finished wait the next one blocks |
| ReadyLaws.WokenJoinsBehind | FreeRTOS/tasks.c:235-240 | A task that becomes ready joins behind every task of its priority that waits for its turn |
| ReadyLaws.SleepersJoinInOrder | FreeRTOS/tasks.c:2629-2672 | Tasks of one priority whose delays end with the same tick become ready in the order in which they went to sleep |
| ReadyLaws.NewcomerBehindIff | FreeRTOS/list.c:74-196 | When a member has left a ready list, exactly when a newcomer goes behind a task that waited for its turn |
| Timeouts.NeverEarly | FreeRTOS/tasks.c:3106-3166 | A timeout is never reported before the wait has elapsed, however late the check |
| Timeouts.ExactIff | FreeRTOS/tasks.c:3140-3161 | For exactly which two clock readings the wrapped test agrees with true time for every finite wait |
| Timeouts.ExactWithinOneWrap | FreeRTOS/tasks.c:3140-3161 | With at most one wrap between checks a timeout is reported if and only if the deadline is reached |
| Timeouts.OverdueMissed | FreeRTOS/tasks.c:3140-3161 | A concrete overdue wait that is taken for one with time left |
| Timeouts.TimeOut.Check | FreeRTOS/tasks.c:3106-3166 | Entry time plus remaining ticks never moves below the deadline, and stays the deadline within one wrap |
| Timeouts.ReceiveLoop | FreeRTOS/queue.c:1239-1378 | Over any rounds the receive loop takes the first data it finds, even with its wait over; reports empty only where it finds none, never before its full wait and never with portMAX_DELAY; and does what one fixed deadline on the unbounded clock would do |
| Timeouts.IdealMeans | FreeRTOS/queue.c:1272-1370 | What one deadline would do: take the first data at a top, or give up at the first top after the deadline, or the first check after it that finds the queue empty |
| Timeouts.DelayUntilIsExact | FreeRTOS/tasks.c:1204-1281 | vTaskDelayUntil blocks if and only if previous wake plus increment is ahead, for exactly the missing ticks |
| QueueStorage.Queue.CopyDataToQueue | FreeRTOS/queue.c:2040-2116 | Sending to back appends, to front prepends, overwriting replaces, through every wrap of the circular store |
| QueueStorage.Queue.Receive | FreeRTOS/queue.c:1239-1300 | Removes the head item and wakes the first waiting sender |
| QueueStorage.Queue.Peek | FreeRTOS/queue.c:1600-1668 | Returns the head item and leaves the queue as it was, but for a woken receiver |
| QueueStorage.Queue.SendFromIsr | FreeRTOS/queue.c:923-1071 | Stores the item; wakes a receiver on an unlocked queue and counts on a locked one |
| QueueStorage.Queue.ReceiveFromIsr | FreeRTOS/queue.c:1750-1838 | Takes the head item; wakes a sender on an unlocked queue and counts on a locked one |
| QueueStorage.Queue.WaitForItem | FreeRTOS/queue.c:1330-1347 | With no interrupt in between, locking, looking again, waiting and unlocking wake nobody, leave both counts unlocked, and put the task on the list in priority order only if the queue is empty |
| QueueStorage.Queue.UnlockTx | FreeRTOS/queue.c:2137-2214 | The loop wakes one receiver for each item counted, as far as there are any, first come of the list first, and unlocks |
| QueueStorage.Queue.UnlockRx | FreeRTOS/queue.c:2215-2254 | The same for senders |
| QueueProtocol.StepKeepsInv | FreeRTOS/queue.c:725-1838 | Every critical section of any task, and every interrupt that the counts can hold, keeps the lock protocol's invariant |
| QueueTheorems.NoLostWakeup | FreeRTOS/queue.c:1264-1377 | In every interleaving within the counts: while a receiver waits, items number at most the woken receivers plus the lock count; dually for senders |
| QueueTheorems.WaitersAreRight | FreeRTOS/queue.c:744-919 | With nobody deciding and nobody woken, receivers wait only on an empty queue and senders only on a full one |
| QueueTheorems.HighestWaiterFirst | FreeRTOS/tasks.c:2910-2924 | The first task of a wait list has the highest priority of all on it; QueueLaws.MostUrgentIsWoken says that it is the one woken |
| QueueTheorems.QueueIsFifo | FreeRTOS/queue.c:2040-2134 | What came out, then what is left, is what went in, for any number of tasks and interrupts |
| QueueLaws.WokenReceiverIsMostUrgent | FreeRTOS/queue.c:777-779 | Whatever step wakes receivers, on an unlocked queue or by the count of a locked one, nobody left waiting is more urgent than one that was woken |
| QueueLaws.WokenSenderIsMostUrgent | FreeRTOS/queue.c:1282-1284 | The same for senders |
| QueueLaws.MostUrgentIsWoken | FreeRTOS/queue.c:2137-2254 | The same in every run from creation, for receivers and senders |
| QueueLaws.NoReceiverOvertakes | FreeRTOS/tasks.c:2910-2924 | In every run, while a receiver waits, no other of at most its priority that came later is woken; so equals are woken in order of arrival |
| QueueLaws.NoSenderOvertakes | FreeRTOS/tasks.c:2910-2924 | The same for senders |
| QueueLaws.UnlockWakesCounted | FreeRTOS/queue.c:2137-2254 | An unlock wakes exactly as many tasks as operations were counted, as far as there are any |
| QueueLaws.FrontComesNext | FreeRTOS/queue.c:2066-2116 | An item sent to the front or over another is the next to be handed out, however many are sent to the back in between |
| QueueLaws.ItemsAreConserved | FreeRTOS/queue.c:2040-2134 | In every run without overwriting, what came out and what is left is, each item as often, what was there and what was accepted |
| QueueLaws.MailboxHoldsTheLast | FreeRTOS/queue.c:2083-2116 | A queue that is only overwritten holds the last item sent until that is received |
| QueueLaws.TopAnswers | FreeRTOS/queue.c:744-856 | At the top an operation goes through exactly if there is room or an item; otherwise the queue stays as it is and the call gives up only if it may not block |
| QueueLaws.ExpiredAnswers | FreeRTOS/queue.c:1360-1376 | After its wait a receive gives up only if it finds the queue empty once more; a send gives up |
| QueueLaws.PhaseAfterStep | FreeRTOS/queue.c:1322-1377 | A call blocks exactly if its wait has not expired and it has found nothing to do once more, retries if it has found something, and gives up if the wait has expired |
| QueueLaws.ReturnsOnlyServedOrExpired | FreeRTOS/queue.c:1239-1378 | In every run a call that returns has gone through, or could not block, or its wait has expired |
| QueueTheorems.SendLosesNoWakeupIff | FreeRTOS/queue.c:923-1071 | An interrupt's send loses no wakeup if and only if the count holds it, or enough woken receivers are under way for those that wait and none is about to wait |
| QueueTheorems.ReceiveLosesNoWakeupIff | FreeRTOS/queue.c:1750-1838 | The same for an interrupt's receive and senders |
| QueueTheorems.InterruptLosesNoWakeupIff | FreeRTOS/queue.c:2137-2254 | In every run from creation, the first interrupt that the counts do not hold loses a wakeup if and only if somebody is not served already |
| QueueTheorems.TooManyInterrupts | FreeRTOS/queue.c:2137-2214 | On a queue of any length above 0 a run from creation leaves a receiver asleep on an item, with the scheduler running, the queue unlocked and nobody woken |
| Inheritance.ReadyTasks.PriorityInherit | FreeRTOS/tasks.c:3801-3881 | Raises the holder, moves it to the end of its new ready list, and says whether it has inherited; every ready list stays exact |
| Inheritance.ReadyTasks.PriorityDisinherit | FreeRTOS/tasks.c:3888-3961 | Counts the mutex down, drops to the base priority with the last one, and asks for a switch if and only if the priority changed |
| Inheritance.ReadyTasks.PriorityDisinheritAfterTimeout | FreeRTOS/tasks.c:3968-4063 | Lowers a holder of one mutex to its base priority or the most urgent waiter's, whichever is higher |
| MutexRuns.TakeInheritsIff | FreeRTOS/queue.c:1420-1441 | Taking a free mutex keeps inheritance if and only if the first task of its wait list is not above the taker |
| MutexRuns.StepKeepsCore | FreeRTOS/queue.c:1381-1597 | Ownership accounts, wait lists, priorities and recursive call counts survive every step under any schedule |
| MutexRuns.InheritedKeptIff | FreeRTOS/tasks.c:3801-4063 | Whatever the schedule, every step keeps inheritance but one: a take of a free mutex for which a more urgent task waits |
| MutexTheorems.HoldersInheritIff | FreeRTOS/tasks.c:3801-4063 | In every run of any schedule, every holder has been at least as urgent as those it blocks in all states so far, if and only if no take has overtaken a more urgent waiter |
| MutexTheorems.HoldersInherit | FreeRTOS/tasks.c:3801-4063 | In every strict-priority run, after timeouts and hand-overs too, a mutex holder is at least as urgent as every task blocked on it |
| MutexTheorems.PrioritiesReturn | FreeRTOS/tasks.c:3888-3961 | In every run a priority is never below the base priority and is the base priority when no mutex is held |
| MutexTheorems.OwnershipAccounts | FreeRTOS/queue.c:2049-2064 | In every run a mutex count is 0 if and only if it has a holder, and uxMutexesHeld is the number of mutexes that name the task |
| MutexTheorems.RecursiveCalls | FreeRTOS/queue.c:574-664 | The call count is takes minus gives, 0 without a holder, and positive whenever the holder is between calls |
| MutexTheorems.ExcessIsOwed | FreeRTOS/queue.c:1560-1585 | With one mutex at a time and no overtaking take, a raised priority is that of a task that waits for the mutex held or has not left its call |
| MutexTheorems.PriorityIsExact | FreeRTOS/tasks.c:3968-4063 | And with nobody on the way out, a holder has exactly the most urgent waiter's priority or its own if higher |
| MutexTheorems.SwitchIsSkippedIff | FreeRTOS/queue.c:810-832 | Exactly when a give leaves the giver running below a ready task without asking for a switch |
| MutexTheorems.InheritanceCanFail | FreeRTOS/queue.c:810-832 | Such a give, and a take after it, leave a holder below a task that waits |
| MutexScenarios.LateGiveIsReached | FreeRTOS/queue.c:810-832 | That state is reached from creation by a strict-priority run |
| MutexScenarios.LateRetryIff | FreeRTOS/queue.c:1536-1590 | A task comes to the top with no time left and inheritance on record by one step only, finding the mutex free after its timeout, and stays so until its next step |
| MutexScenarios.AssertionFailsIff | FreeRTOS/queue.c:1464-1475 | In every run from creation, with any schedule and any number of mutexes, the assertion fails at the top if and only if the mutex is taken and the task's last step was that one |
| MutexScenarios.AssertionCanFail | FreeRTOS/queue.c:1464-1475 | A strict-priority run from creation to a step in which the assertion fails |
| MutexLaws.GiveWakesMostUrgent | FreeRTOS/queue.c:810-822 | A give frees the mutex and wakes exactly one of those that wait for it, of the highest priority, and nobody if none waits |
| MutexLaws.NobodyOvertakes | FreeRTOS/tasks.c:2910-2924 | In every run, while a task waits for a mutex, no give wakes one of at most its base priority that was not in front of it; so equals are woken in order of arrival |
| MutexLaws.TakeEnds | FreeRTOS/queue.c:1414-1590 | A take ends with the mutex, found free, or without it, found taken with no wait left or after the timeout |
| MutexLaws.TakeGoesOn | FreeRTOS/queue.c:1497-1590 | In between it blocks only on a mutex that another holds, comes to give up only when its time is over, and goes back to the top if the mutex is free again |
| TimerDaemon.PlacementIsExact | FreeRTOS/timers.c:647-685 | From three wrapped times: process now if and only if command time plus period has passed, else the list of the epoch of the expiry |
| TimerDaemon.TimerService.InsertTimerInActiveList | FreeRTOS/timers.c:647-685 | The branches of the code make that decision and insert the true expiry |
| TimerDaemon.TimerService.SwitchTimerLists | FreeRTOS/timers.c:835-891 | The drain loop ends, fires every expiry of the epoch that ended as often as due in it, and sends the rest as commands |
| TimerDaemon.TimerService.SampleTimeNow | FreeRTOS/timers.c:624-645 | Switches lists if and only if a new epoch has begun |
| TimerDaemon.TimerService.ProcessExpiredTimer | FreeRTOS/timers.c:462-499 | Fires the head and reloads it on a list or by a command |
| TimerDaemon.TimerService.ProcessTimerOrBlock | FreeRTOS/timers.c:538-622 | Fires an expired timer, or sleeps no longer than to the next expiry, exactly to it within this epoch, and for ever only without timers |
| TimerDaemon.TimerService.ProcessReceivedCommand | FreeRTOS/timers.c:688-832 | One command does what it says on the unbounded clock |
| TimerSpec.DrainProgress | FreeRTOS/timers.c:847-885 | Each round of the drain loop brings the expiries nearer to the epoch boundary |
| TimerTheorems.CallbacksAreRegular | FreeRTOS/timers.c:462-499 | A timer that counts from C with period P has its callbacks in every run for C+P, C+2P, ... in order, none lost or doubled, with the next expiry in exactly one place; a one-shot timer for C+P only, whatever callbacks it had before |
| TimerTheorems.NeverEarly | FreeRTOS/timers.c:688-832 | No callback of any timer is made before it is due |
| TimerTheorems.NothingIsLate | FreeRTOS/timers.c:538-596 | When the daemon goes to sleep at n, the callbacks made since are exactly those up to n |
| TimerLaws.FirstDueFires | FreeRTOS/timers.c:538-596 | Within an epoch the daemon makes a callback exactly when a timer is due, for the one due first |
| TimerLaws.OldEpochFires | FreeRTOS/timers.c:835-891 | When a new epoch has begun, every timer due in the old one is called back |
| TimerLaws.PeriodServed | FreeRTOS/timers.c:785-798 | A period change stores the period, makes the timer expire exactly once, one such period from now, and makes no callback |
| TimerLaws.PeriodChangeIsRegular | FreeRTOS/timers.c:785-798 | In every run that begins with serving one at n with period p, the callbacks are for n+p, n+2p, ... and nothing else |
| TimerLaws.PeriodChangeIsNotLate | FreeRTOS/timers.c:538-596 | And when the daemon goes to sleep they are exactly those up to then |
| TimerLaws.RestartIsRegular | FreeRTOS/timers.c:749-777 | In every run that begins with serving a start command issued at C the callbacks count from C, whatever the timer did before |
| TimerLaws.StopServed | FreeRTOS/timers.c:728-784 | Stopping or deleting takes the timer off the list, and makes no callback |
| TimerLaws.StoppedIsSilent | FreeRTOS/timers.c:728-832 | After that there is no further callback of the timer in any run, until a start or period command of it is served |
| StreamBytes.FirstMessage | FreeRTOS/stream_buffer.c:639-689 | Framing round trip: a length and that many bytes give the first message back, and the rest is the wire of the others |
| StreamBuffers.StreamBuffer.WriteBytes | FreeRTOS/stream_buffer.c:1020-1063 | Appends to the byte sequence, across the end of the buffer too |
| StreamBuffers.StreamBuffer.ReadBytes | FreeRTOS/stream_buffer.c:1066-1118 | Removes and returns the first bytes, no more than wanted or available |
| StreamBuffers.StreamBuffer.SpacesAvailable | FreeRTOS/stream_buffer.c:451-472 | Free space plus contents is one less than the length |
| StreamBuffers.StreamBuffer.BytesInBuffer | FreeRTOS/stream_buffer.c:1121-1139 | The number of bytes in the sequence view |
| StreamBuffers.StreamBuffer.WriteMessage | FreeRTOS/stream_buffer.c:639-689 | As much of a stream as fits, a message whole or not at all |
| StreamBuffers.StreamBuffer.ReadMessage | FreeRTOS/stream_buffer.c:852-899 | A message that does not fit the reader stays; a stream is read as far as wanted |
| StreamBuffers.StreamBuffer.SendMessage | FreeRTOS/stream_buffer.c:588-637 | Accepts a message if and only if it fits with its length, and then holds one message more |
| StreamBuffers.StreamBuffer.ReceiveMessage | FreeRTOS/stream_buffer.c:795-850 | Messages come out whole, in the order in which they went in |
| MessageRuns.SendKeepsInvIff | FreeRTOS/stream_buffer.c:877-886 | Accepting a message is safe if and only if it does not count on bytes the reader is about to put back |
| MessageRuns.SendIsAcceptedIff | FreeRTOS/stream_buffer.c:588-637 | A message is accepted exactly when it fits with its length behind the unread bytes, as the writer sees them |
| MessageRuns.AcceptedBytesStayIff | FreeRTOS/stream_buffer.c:877-886 | However the writer and the reader's putting back are interleaved, an accepted message leaves every accepted byte in the buffer when the schedule was roomy, and otherwise a whole buffer of bytes too few |
| MessageRuns.MessagesCanBeLost | FreeRTOS/stream_buffer.c:877-886 | A run from a new buffer in which three accepted messages become three bytes |
| MessageRuns.MessagesArePrefix | FreeRTOS/stream_buffer.c:639-689 | With one writer and one reader interleaved at every byte and index update, the messages received are the first ones accepted, whole, and all of them once the buffer is empty |
| MessageRuns.ReaderSeesWholeMessages | FreeRTOS/stream_buffer.c:770-778 | A reader past its first look reads only a message that is published to its last byte |
| MessageRuns.ReceiveStartsIff | FreeRTOS/stream_buffer.c:770-778 | A reader at rest starts to read exactly when the whole next message is in the buffer |
| MessageRuns.DeliversIff | FreeRTOS/stream_buffer.c:852-899 | It delivers that message exactly when it fits the room offered; otherwise the message stays |
| EventBits.RequestRoundTrip | FreeRTOS/event_groups.c:346-366 | What setting bits decodes from an item value is what the wait encoded |
| EventBits.SatisfiedIsMet | FreeRTOS/event_groups.c:656-688 | The wait condition on the arguments and the match test on the item value agree |
| EventLaws.MetMeans | FreeRTOS/event_groups.c:656-688 | The condition for all bits holds if and only if every bit waited for is set, and the other if and only if one of them is |
| EventGroups.EventGroup.SetBits | FreeRTOS/event_groups.c:504-595 | The walk over the list, removing as it goes, releases every match with one snapshot and clears once at the end what the released tasks asked for (EventLaws.UnaskedBitsStay, EventLaws.AskedBitsGo) |
| EventGroups.EventGroup.WaitBits | FreeRTOS/event_groups.c:296-370 | Blocks only when the condition is not met, and clears only what was asked for |
| EventGroups.EventGroup.Sync | FreeRTOS/event_groups.c:176-240 | Sets bits, then completes the rendezvous or blocks |
| EventGroups.EventGroup.Return | FreeRTOS/event_groups.c:372-443 | A released task returns its snapshot without control bits; a timed-out one returns the bits and clears what it would have |
| EventGroupSpec.SetLeavesNoneSatisfied | FreeRTOS/event_groups.c:504-595 | After setting bits nobody waits whose condition is met, whatever was waiting before |
| EventGroupSpec.SetBitsIsOrderFree | FreeRTOS/event_groups.c:504-595 | Any order of the waiting list gives the same bits, the same released tasks with the same value, and the same remaining ones |
| EventLaws.UnaskedBitsStay | FreeRTOS/event_groups.c:555-590 | A bit that is set stays set, unless a task released by it asked for clearing |
| EventLaws.AskedBitsGo | FreeRTOS/event_groups.c:565-590 | Every bit that such a task waited for is clear afterwards |
| EventLaws.NoOtherBits | FreeRTOS/event_groups.c:504-590 | Setting bits sets no others |
| EventRuns.NoSatisfiedWaiter | FreeRTOS/event_groups.c:314-382 | In every state of every run no task waits whose condition, as it asked, is met |
| EventRuns.ReleasedMeansMet | FreeRTOS/event_groups.c:386-443 | A released task is given bits that met its condition |
| EventRuns.LastArrivalReleasesAll | FreeRTOS/event_groups.c:191-206 | The last arrival releases every task blocked on the same bits with the value it returns itself, which contains them, and leaves them clear |
| EventRuns.RendezvousAgrees | FreeRTOS/event_groups.c:243-292 | All parties return the same value, whatever happens to the bits before they run |
| EventLaws.SetKeepsBits | FreeRTOS/event_groups.c:555-590 | In a run, on the arguments of the waits: a bit stays unless a task that is released waits for it and asked for clearing |
| EventLaws.SetClearsBits | FreeRTOS/event_groups.c:565-590 | And what such a task waits for is clear |
| EventLaws.RendezvousKeepsBits | FreeRTOS/event_groups.c:191-206 | A rendezvous clears nothing else than those, and what it waited for once complete |
| EventLaws.RendezvousAnswers | FreeRTOS/event_groups.c:191-240 | An incomplete rendezvous does what setting the bits does, and blocks or returns the bits left |
| EventLaws.ClearAnswers | FreeRTOS/event_groups.c:446-470 | Clearing clears exactly the bits named and disturbs nobody |
| EventLaws.WaitAnswers | FreeRTOS/event_groups.c:314-366 | A wait whose condition is met returns the bits before clearing and clears exactly what was asked; otherwise it blocks or returns the bits, and clears nothing |
| EventLaws.LeaveAnswers | FreeRTOS/event_groups.c:386-443 | A released task returns its snapshot and clears nothing; a timed-out one the bits of that moment, and clears only if the condition is met and clearing was asked for |
| EventLaws.TimedOutReturnsBits | FreeRTOS/event_groups.c:390-425 | In every run a task that has timed out returns the bits of the moment in which it runs again |
| LogRing.LogBuffer.ReceiveCallback | User/app_ch340.c:53-89 | Takes a chunk if and only if it fits, across the split copy and counter wraps; otherwise no further receive is started |
| LogRing.LogBuffer.LogRound | User/app_ch340.c:116-143 | Counts and passes exactly the unread bytes |
| LogRuns.UnreadIsTheLastAccepted | User/app_ch340.c:66-85 | In every interleaving the counters differ by less than the ring size, and the unread region is the last accepted bytes in order |
| LogRuns.NothingIsUncounted | User/app_ch340.c:116-138 | At the top of the log loop, bytes counted plus bytes unread are the bytes accepted, modulo 2^32 |
| LogRuns.DropEndsReception | User/app_ch340.c:68-72 | After a dropped chunk nothing more is ever accepted |
| LogRuns.ChunkIsTakenIff | User/app_ch340.c:68-72 | A chunk is taken exactly when it and the unread bytes are fewer than the ring has places |
| LogRuns.ArmedUnlessDropped | User/app_ch340.c:66-89 | In every run the next receive is armed between chunks if and only if none has been dropped |
| LogRuns.LookSeesAll | User/app_ch340.c:118-138 | The log task passes over all that is unread as soon as there is anything |

## Left out

- The port layer, stacks, MPU settings, memory allocation, trace hooks, statistics, the queue registry, CMSIS, HAL, USB, LCD, file system and network code: register access, user interface and libraries.
- Queue sets, which the repository's FreeRTOSConfig.h turns on but this application does not use, and tickless idle: each doubles cases without a new argument.
- Port-optimised task selection, which FreeRTOSConfig.h selects: the bitmap is not modelled. Its upkeep differs where a priority changes (`FreeRTOS/tasks.c:4012-4035`), so no claim is made for it.
- `FreeRTOS/croutine.c`: repeats the delayed-list argument in a simpler setting.
- SchedulerTheorems.RunningTaskIsHighest: runs without mutex gives and priority changes, because a switch can be skipped there (MutexTheorems.SwitchIsSkippedIff).
- The class of module KernelLists has sequences for its lists; their heap form is module HeapList, and the two are not composed in one object. Notification values and xTaskResumeFromISR are not modelled.
- WaitLaws.NobodyOvertakes: for runs in which no task waits on an event list inside a wait for a notification, which the code never does, or starts a wait for a notification with a wakeup pending (WaitLaws.ItemsStayFreeIff).
- WaitLaws.MostUrgentIsTaken: the event lists of the scheduler's state machine are in priority order; the unordered lists of event groups (`FreeRTOS/tasks.c:2927-2951`) are in EventGroupSpec, where the order does not matter (EventGroupSpec.SetBitsIsOrderFree).
- ReadyLaws.WokenJoinsBehind: xTaskResumeAll is covered through Deferral.ResumeAllCatchesUp, which makes it the same wakeups and ticks one by one.
- The count of pended ticks is unbounded, so 2^32 ticks in one suspension are not modelled.
- QueueProtocol.StepKeepsInv: interrupts stay within what the lock counts hold (QueueTheorems.SendLosesNoWakeupIff says when a step beyond that does no harm; what follows after a harmless one is not modelled). No reset or delete of the queue, and no suspension of a waiting task.
- Deferral.WindowSplits: interrupts leave the event lists alone on which the suspending task works, as a locked queue and an event group make them; other calls of that task inside the window, such as a notification, are left out.
- TimeSlices.FairShare: the tasks of the highest priority neither block nor are joined by others during the round; ListSpec.TurnIsKept covers tasks that join.
- Item bytes: an item is one value of a type parameter, so the memcpy of an item is one assignment; a counting semaphore is a queue of unit values, and xQueueGiveFromISR is a send from an interrupt to it.
- Peek, send and semaphore take run the same retry loop as Timeouts.ReceiveLoop and are covered as protocol steps, not as separate loops.
- MutexTheorems.HoldersInheritIff: tasks that wait hold no mutex, which is what single-level inheritance is for; vTaskPrioritySet is not modelled, as it can leave a priority below a raised base.
- MutexTheorems.PriorityIsExact: for tasks that take one mutex at a time; with several, the code keeps a raised priority until the last is given.
- The event list item value of a mutex holder: tasks that hold a mutex wait in no priority-ordered list here.
- TimerTheorems.CallbacksAreRegular: the command queue has room, the daemon reads the clock at least once in 2^32 ticks and serves a start command less than 2^32 ticks after it was issued, and from the moment the timer counts nobody else sends commands for it; TimerLaws says what each command does then.
- Pended function calls of the timer daemon; a deleted timer is only stopped.
- The waits of xStreamBufferSend and xStreamBufferReceive on task notifications, and the trigger level. Messages are not empty, as the code asserts, and a buffer has at most 2^31 bytes.
- EventGroups.EventGroup.SetBits: up to the resume of the scheduler; the value returned is read after it, in a later state, so nothing more is said of it.
- Deletion of an event group, and the deferral of its interrupt calls through the timer daemon.
- What the log task does with the bytes: it prints a count, so reading them is stated as what the unread region holds.
- `User/sdram_alloc.c`: a five-slot table with only easy claims.
- Liveness under a fair scheduler: only safety, and what holds when the daemon or a task comes to rest.
