# A verified model of the kernel, the Modbus framing and the block allocator

The firmware runs the FreeRTOS kernel on an STM32F4, talks Modbus over a serial line, and hands out memory in
blocks. This project models the parts of it whose correctness is hardest to see from one function at a time, and
proves what they are for. The program's modules that update variables in place are classes with the same
fields, loops and branches; each of their methods is proved to do what a function on values says, and the theorems
are about these functions, over all inputs, all interleavings and all runs.

| part | theorems | classes | what is shown |
|---|---|---|---|
| time | `DelayModel`, `DelayRun` | | what delays, time-outs and wake-ups mean in unbounded time |
| kernel lists | `ListSpec` | `Lists` | the circular lists on the heap are sequences with a walking index |
| scheduler | `StateLists`, `KernelModel`, `KernelTick`, `KernelSteps`, `KernelResume`, `KernelReady`, `KernelRun`, `KernelPreempt`, `KernelSlices`, `KernelOutcomes`, `ReadyBitmap`, `ReadyBitmapRun` | `Scheduler` | wrapping ticks and two delayed lists refine one queue; selection; preemption; time slices; the bit map of ready priorities |
| time-outs | `Ticks`, `TimeOuts` | `TimeOuts` | block times that are re-checked, periodic delays |
| queues | `QueueModel`, `QueueRun`, `QueueRing` | `Queues` | no wake-up is lost, and the right task is woken; the ring is a double-ended sequence |
| mutexes | `MutexModel`, `MutexSwitch`, `MutexChains`, `MutexRuns`, `MutexTimeouts`, `MutexOutcomes` | `Scheduler` | priority inheritance over every run, and exactly when it fails; no boost beyond need; the switch after a give |
| software timers | `TimerModel`, `TimerRun`, `TimerLife`, `TimerCommands` | `TimerTask` | no callback missed, repeated or early, through wraps and backlogs, while a timer is listed and after; what each command achieves |
| stream buffers | `StreamModel`, `StreamSends` | `StreamBuffers` | one writer and one reader, interleaved byte by byte; how much each call takes |
| event groups | `EventModel` | `EventGroups` | one pass over all waiters; nobody waits in vain |
| allocator | `AllocatorModel` | `Allocator` | disjoint runs of blocks, highest fit, complete search |
| Modbus RTU, ASCII | `Crc`, `RtuModel`, `RtuRuns`, `AsciiModel`, `AsciiRuns` | `Rtu`, `Ascii` | what is sent is what is received, and only that; when a frame is announced |

How the parts fit:

- A *view* maps a kernel state, with its 32-bit tick count, its count of wraps and its two delayed lists, to the state
  of `DelayModel`, in which every blocked task has one wake time and the clock is unbounded. Each step of the kernel is
  shown to be a step there (`KernelRun.StepRefines`), so what is proved about runs there holds for the kernel.
- Concurrency is a choice of steps. What the source does in one critical section, or with the scheduler suspended as
  far as interrupts cannot interfere, is one step; a run is any sequence of steps that the source allows. The writer and
  the reader of a stream buffer are split further, into single byte copies and single index writes.
- Variables that the program does not have (the epoch of the tick count, the tasks woken but not yet run, what has
  been sent so far, the live allocations) are named as such where they are declared. They influence nothing.

Configuration, as in `Driver/FreeRTOS/Source/include/FreeRTOSConfig.h`: 32-bit ticks, five priorities, preemption and
time slicing, mutexes, `INCLUDE_vTaskSuspend`. `configASSERT` and the `assert` of FreeModbus are empty there, so what
they would catch is not excluded. Of the two Modbus ports the configuration builds RTU only
(`Driver/FreeModbus/include/mbconfig.h:49-52`); the ASCII port is modelled as it would be built.

## Where the code does not meet what it is for

- Wake-ups noted while a queue is locked are counted in an `int8_t`; the assertion that guards it is empty. With 128
  tasks or more they can all be forgotten. `QueueRun.NoneLostIff` gives the bound, `QueueRun.WakeUpsAreLost` the run.
- `xTaskPriorityDisinherit` (`Driver/FreeRTOS/Source/tasks.c:4203-4210`) says that a switch should occur when the last
  mutex is returned *whether a task is waiting on it or not*; `xQueueGenericSend`
  (`Driver/FreeRTOS/Source/queue.c:934-957`) looks at its result only if none is. `MutexSwitch.GiveSwitchesIff` says
  exactly when a task that outranks the giver is passed over, `MutexSwitch.GiveCanOverlook` gives a run, and
  `KernelPreempt.NeverOverlooked` says that this is the only step after which a ready task goes unnoticed.
- A holder can be outranked by a task that waits for its mutex, in three ways and no others:
  `MutexRuns.NeverOutranked`.
  - A task takes a free mutex for which a task above it waits, as the giver can that goes on so: `MutexSwitch.TakeCanInvert`.
    If tasks block only while they hold nothing, this is the only way: `MutexModel.NeverInverted`.
  - A task blocks on a mutex whose holder waits for another one, because inheritance is not passed on:
    `MutexChains.BlockInvertsIff`, `MutexChains.ChainsInvert`.
  - A time-out lowers the holder to the priority of the first task that still waits
    (`Driver/FreeRTOS/Source/queue.c:2150-2175`), but a task that has inherited while it waits stands where it
    stood before: `MutexRuns.GiveUpOutranksIff`, `MutexTimeouts.TimeoutsUndercut`.
- `vTaskPriorityDisinheritAfterTimeout` resets the bit of the new priority in the port's bit map of ready priorities
  (`Driver/FreeRTOS/Source/tasks.c:4308`), not of the old one: `ReadyBitmap.BitMapExactIff` says exactly when the bit map
  goes wrong in a run, `ReadyBitmapRun.SelectionFindsNone` gives one.
- A time-out that is first checked 2^32 ticks or more after its snapshot can be missed: `TimeOuts.CheckIsRightIff`,
  `TimeOuts.CheckCanMiss`. Ticks are lost if 2^32 of them are held back: `DelayRun.NoneLostIff`.
- Overwriting a message in a queue longer than 1 breaks its positions: `QueueRing.PutOverBreaksLonger`.
- Freeing a block that is not the first of its allocation breaks the map (`AllocatorModel.FreeKeepsIff`) or runs over
  its end: `AllocatorModel.InteriorFreeOverruns`, `AllocatorModel.InteriorFreeReached`.
- `eMBASCIIStop` leaves the state of a transmission that it cuts off, and `eMBASCIIStart` does not reset it, so that what
  the receiver asserts at `Driver/FreeModbus/ascii/mbascii.c:227` then fails: `AsciiModel.AlwaysAloneIff`. The buffer is
  safe all the same: `AsciiModel.NeverBehindBuffer`.
- The assertions at `Driver/FreeModbus/rtu/mbrtu.c:156` and `Driver/FreeModbus/ascii/mbascii.c:156` would refuse a
  buffer that is exactly full, as it is after an RTU frame with the longest PDU, of 253 bytes. The model follows the code, in
  which they are empty: the frame is received.

## Model

| member | source | states |
|---|---|---|
| `KernelRun.ReleasedOnTime` | Driver/FreeRTOS/Source/tasks.c:5297-5407 | A task that blocks for d ticks (1 to 2^32 - 1) when the unbounded clock stands at T is, in every state of every later run, on its ready list if tick T + d has been processed and on one of the two delayed lists if not, unless something else blocks, wakes or suspends it: through wraps, list swaps, nested suspension and replayed ticks. |
| `KernelRun.RunRefines` | Driver/FreeRTOS/Source/tasks.c:2720-2894 | Every run of kernel steps (ticks, delays, wake-ups, suspend and resume of tasks and of the scheduler, switches, priority changes, inheritance and its end, gives of mutexes, creation) with two wrapping lists and held-back ticks is a run of one queue of unbounded wake times, and keeps the invariant. |
| `KernelRun.StepRefines` | Driver/FreeRTOS/Source/tasks.c:2720-2894 | The same for one step of any kind: it keeps the invariant and does in unbounded time what it should. |
| `KernelRun.ReachableGood` | Driver/FreeRTOS/Source/tasks.c:1954-2076 | Whatever tasks have been created before the scheduler was started, everything reachable from there satisfies the invariant: next unblock time not after the head, both delayed lists sorted, every wake time still to come, pending list empty while the scheduler runs. |
| `KernelRun.ReachableLists` | Driver/FreeRTOS/Source/tasks.c:126-151 | In every reachable state each task is on exactly one list, a ready task on that of its current priority and not above uxTopReadyPriority; nothing is pending while the scheduler runs; the next selection ends at a ready task of highest priority. |
| `KernelRun.OneMembership` | Driver/FreeRTOS/Source/tasks.c:221-225 | In a valid state the lists a task's state item is on are exactly the one that its container names. |
| `KernelTick.TickRefines` | Driver/FreeRTOS/Source/tasks.c:2720-2894 | xTaskIncrementTick on the two lists is, in unbounded time, the release of exactly the tasks whose wake time has come. |
| `KernelTick.TickKeepsConsistent` | Driver/FreeRTOS/Source/tasks.c:2720-2894 | A processed tick keeps the invariant and leaves the pended ticks, the nesting and an empty pending list alone. |
| `KernelTick.DrainReleases` | Driver/FreeRTOS/Source/tasks.c:2754-2835 | The loop of the tick releases exactly the due tasks, each to its own priority and off its event list, and leaves the next unblock time at the new head. |
| `KernelTick.NothingDelayedAtWrap` | Driver/FreeRTOS/Source/tasks.c:201-213 | When the tick count wraps the current delayed list is empty, so that the lists may be exchanged. |
| `KernelTick.CountedView` | Driver/FreeRTOS/Source/tasks.c:201-213 | The exchange of the lists at the wrap changes no wake time in unbounded time; only the clock moves on. |
| `KernelSteps.BlockView` | Driver/FreeRTOS/Source/tasks.c:5297-5407 | Blocking for d ticks sets the wake time clock + d, however the tick count wraps; portMAX_DELAY with indefinite blocking allowed waits for ever. |
| `KernelSteps.BlockValid` | Driver/FreeRTOS/Source/tasks.c:5297-5407 | Blocking keeps the invariant: order of both lists and the next unblock time. |
| `KernelSteps.RemoveFromEventListValid` | Driver/FreeRTOS/Source/tasks.c:3169-3234 | Waking the head of an event list keeps the invariant, with the scheduler running or suspended. |
| `KernelSteps.RemoveFromEventListView` | Driver/FreeRTOS/Source/tasks.c:3169-3234 | It makes the task runnable at once, or notes it as pending while the scheduler is suspended. |
| `KernelSteps.SuspendTaskValid` | Driver/FreeRTOS/Source/tasks.c:1673-1772 | vTaskSuspend of any task, ready, blocked, pending or suspended, keeps the invariant. |
| `KernelSteps.SuspendTaskView` | Driver/FreeRTOS/Source/tasks.c:1673-1772 | It cancels the task's time-out and its wait for an event, and nothing else. |
| `KernelSteps.ResumeTaskValid` | Driver/FreeRTOS/Source/tasks.c:1825-1949 | vTaskResume and xTaskResumeFromISR keep the invariant. |
| `KernelSteps.ResumeTaskView` | Driver/FreeRTOS/Source/tasks.c:1825-1871 | vTaskResume makes exactly a suspended task runnable; one that waits for ever for an event is left alone. |
| `KernelSteps.ResumeTaskFromISRView` | Driver/FreeRTOS/Source/tasks.c:1879-1949 | The same from an interrupt, deferred while the scheduler is suspended. |
| `KernelSteps.AddNewTaskRefines` | Driver/FreeRTOS/Source/tasks.c:1026-1107 | A task created while the scheduler runs joins its ready list; the invariant holds and in unbounded time it is one more runnable task. |
| `KernelSteps.StartedValid` | Driver/FreeRTOS/Source/tasks.c:1954-2076 | After any sequence of creations and vTaskStartScheduler the kernel satisfies the invariant, with exactly the created tasks, all ready, the running one among them. |
| `KernelSteps.CreatedValid` | Driver/FreeRTOS/Source/tasks.c:1026-1107 | The same for the creations alone, each with the branch that is taken before the scheduler runs. |
| `KernelResume.ResumeAllRefines` | Driver/FreeRTOS/Source/tasks.c:2174-2283 | The outermost xTaskResumeAll first releases the pending tasks, then replays every held-back tick, one by one, and ends in a valid state; inner calls only count. |
| `KernelResume.ReleaseAllReleases` | Driver/FreeRTOS/Source/tasks.c:2195-2226 | The first loop ends with the pending list empty and has made exactly the pending tasks runnable. |
| `KernelResume.ReplayRefines` | Driver/FreeRTOS/Source/tasks.c:2233-2258 | The second loop processes as many ticks as were held back, each as a tick interrupt would have. |
| `KernelResume.TickInterruptRefines` | Driver/FreeRTOS/Source/tasks.c:2720-2894 | A tick is processed, or counted as pended while the scheduler is suspended. |
| `KernelResume.SuspendAllRefines` | Driver/FreeRTOS/Source/tasks.c:2090-2108 | vTaskSuspendAll keeps the invariant and only nests. |
| `DelayRun.DelayIsExact` | Driver/FreeRTOS/Source/tasks.c:5297-5407 | In the unbounded model: blocked until tick T + d has been processed, runnable from then on, over any run of events. |
| `DelayRun.WakeIsNotLost` | Driver/FreeRTOS/Source/tasks.c:2174-2283 | A task woken by an event is runnable whenever the scheduler is not suspended, until it blocks again. |
| `DelayRun.TicksConserved` | Driver/FreeRTOS/Source/tasks.c:2174-2283 | Clock plus pended ticks grows by one with each tick, but for 2^32 ticks each time the pended count itself wraps. |
| `DelayRun.NoneLostIff` | Driver/FreeRTOS/Source/tasks.c:2880-2883 | No tick of a run is lost exactly if the count of pended ticks never wraps in it. |
| `DelayRun.FewTicksNoneLost` | Driver/FreeRTOS/Source/tasks.c:2880-2883 | In particular none is lost in a run of fewer than 2^32 ticks. |
| `KernelReady.SelectHighest` | Driver/FreeRTOS/Source/tasks.c:136-151 | With some task ready the search ends, and the selected task is ready and of maximal ready priority. |
| `KernelReady.SwitchContextValid` | Driver/FreeRTOS/Source/tasks.c:3009-3080 | vTaskSwitchContext keeps the invariant and every wake time; it selects, or notes a pending yield while the scheduler is suspended. |
| `KernelReady.EqualShares` | Driver/FreeRTOS/Source/tasks.c:136-151 | Among as many switches as there are ready tasks at the highest priority, each of these tasks is selected exactly once. |
| `KernelSlices.TickAsksIff` | Driver/FreeRTOS/Source/tasks.c:2835-2894 | A processed tick asks for a context switch if and only if afterwards another task is ready at the priority of the running one, or the tick has released one that outranks it, or a yield was pending: in terms of the places and priorities of the tasks before and after. |
| `KernelSlices.SharedIff` | Driver/FreeRTOS/Source/tasks.c:2838-2852 | The length of the ready list, which the code looks at, tells whether another task is ready at the running priority. |
| `KernelSlices.EqualSlices` | Driver/FreeRTOS/Source/tasks.c:2838-2852 | Time slicing over runs: of n tasks that are ready at the highest priority each runs after exactly one of the next n ticks, each followed by the switch if the tick asks for one, as long as no task of that priority or above wakes up in them. |
| `KernelSlices.SliceAlone` | Driver/FreeRTOS/Source/tasks.c:2838-2852 | A task that has its priority for itself keeps the processor. |
| `KernelOutcomes.WokenComesLast` | Driver/FreeRTOS/Source/tasks.c:221-225 | A task that becomes ready has its turn after all that are ready at its priority (but for the one that has just had its own), and no other turn changes. |
| `KernelOutcomes.LeavesTurns` | Driver/FreeRTOS/Source/list.c:199-225 | A task that leaves a ready list leaves the order of the other turns as it was: nobody is passed over or comes twice. |
| `KernelOutcomes.JoinsTurns` | Driver/FreeRTOS/Source/list.c:98-125 | The same for a task that joins one, by creation or by a change of priority too. |
| `KernelReady.SetPriorityValid` | Driver/FreeRTOS/Source/tasks.c:1585-1647 | Moving a task to another priority, ready or not, keeps the invariant and every wake time. |
| `KernelReady.PrioritySetValid` | Driver/FreeRTOS/Source/tasks.c:1507-1666 | vTaskPrioritySet, with its clamp and its rule for inherited priorities, keeps the invariant. |
| `KernelReady.InheritValid` | Driver/FreeRTOS/Source/tasks.c:4067-4150 | xTaskPriorityInherit keeps the invariant and every wake time. |
| `KernelReady.GiveValid` | Driver/FreeRTOS/Source/queue.c:930-962 | Giving a mutex, with the giver falling back and a waiting task woken, keeps the invariant; in unbounded time it is that wake-up. |
| `KernelOutcomes.SuspendedUntilResumed` | Driver/FreeRTOS/Source/tasks.c:1673-1871 | A task that is suspended, whatever state it was in, is on the suspended list in every state of every later run, until a call resumes it; then it is on its ready list. |
| `KernelOutcomes.ResumeAllOutcome` | Driver/FreeRTOS/Source/tasks.c:2195-2275 | The outermost xTaskResumeAll asks for a context switch if and only if a yield was pending, or a woken task is not below the running one, or one of the held-back ticks asks for one when it is replayed. |
| `KernelOutcomes.ResumeOutcome` | Driver/FreeRTOS/Source/tasks.c:1825-1949 | Both resume calls make ready exactly a suspended task that waits for no event; the switch is asked for, or noted, exactly if that task is not below the running one. |
| `KernelOutcomes.WakeOutcome` | Driver/FreeRTOS/Source/tasks.c:3169-3283 | An event makes its task ready at once, or appends it to the pending list while the scheduler is suspended; a yield becomes pending exactly if the task outranks the running one. |
| `KernelOutcomes.CreateOutcome` | Driver/FreeRTOS/Source/tasks.c:1026-1107 | A task created while the scheduler runs is ready at the priority asked for, at most the highest, and a switch is asked for exactly if it outranks the running one. |
| `KernelOutcomes.PrioritySetOutcome` | Driver/FreeRTOS/Source/tasks.c:1507-1647 | The base priority becomes the one asked for, at most the highest; the priority follows unless it is inherited; a ready task is then on that list; nothing else changes. |
| `KernelOutcomes.PriorityAsksIff` | Driver/FreeRTOS/Source/tasks.c:1540-1660 | vTaskPrioritySet yields if and only if another task's base rises to the running priority or above, or the running task's own base falls. |
| `KernelOutcomes.InheritOutcome` | Driver/FreeRTOS/Source/tasks.c:4067-4150 | Inheritance raises the holder to the priority of the running task and not beyond, and changes no other priority. |
| `KernelOutcomes.ResetOutcome` | Driver/FreeRTOS/Source/tasks.c:3999-4017 | The next unblock time becomes the earliest wake time on the delayed list, or portMAX_DELAY if that is empty. |
| `KernelPreempt.NeverOverlooked` | Driver/FreeRTOS/Source/tasks.c:2720-2894 | Over every run from the start: in each of its states a ready task above the running one has a context switch requested or noted as pending, if and only if no mutex is given silently, which means: the giver falls back below another ready task while the task it wakes is not above its new priority, with nothing requested before. |
| `KernelPreempt.RunNoticedIff` | Driver/FreeRTOS/Source/tasks.c:3009-3080 | The same from any good state. |
| `KernelPreempt.StepNoticedIff` | Driver/FreeRTOS/Source/tasks.c:1507-1666 | One step of any kind, creation, resumption, inheritance and priority changes among them, requests or notes the switch that it makes necessary, unless it is such a give. |
| `KernelPreempt.GiveNoticedIff` | Driver/FreeRTOS/Source/queue.c:930-962 | Of a give: the switch is requested or noted exactly if the give is not silent. |
| `KernelPreempt.NoticedAtTick` | Driver/FreeRTOS/Source/tasks.c:2720-2894 | In every reachable state without a silent give before it, the next processed tick turns the note into a request. |
| `ReadyBitmap.HighestBitIsTop` | Driver/FreeRTOS/Source/portable/RVDS/ARM_CM4F/portmacro.h:137-142 | With an exact bit map the highest set bit is the priority at which the generic search ends, so the two selections agree. |
| `ReadyBitmap.ResetOldKeeps` | Driver/FreeRTOS/Source/tasks.c:4095-4114 | Resetting the bit of the priority that a task leaves keeps the bit map exact. |
| `ReadyBitmap.ResetNewKeepsIff` | Driver/FreeRTOS/Source/tasks.c:4266-4312 | vTaskPriorityDisinheritAfterTimeout resets the bit of the new priority instead: the bit map stays exact if and only if another task is ready at the old one. |
| `ReadyBitmap.StepExactIff` | Driver/FreeRTOS/Source/tasks.c:4060-4336 | One kernel step of any kind, with the bits that its code records and resets, keeps the bit map exact if and only if it is not a time-out that lowers a holder that is alone at its priority. |
| `ReadyBitmap.RunExactIff` | Driver/FreeRTOS/Source/tasks.c:4060-4336 | The same for every state of a run from any good state with an exact bit map. |
| `ReadyBitmap.BitMapExactIff` | Driver/FreeRTOS/Source/tasks.c:153-197 | Over every run from the start: the bit map is exact in each of its states, and so both selections agree, if and only if no such time-out is in it. |
| `ReadyBitmapRun.SelectionFindsNone` | Driver/FreeRTOS/Source/tasks.c:4308-4308 | A run from the start, in which one task takes a mutex while it runs, inherits through it, and is lowered by a time-out; after it the highest bit names an empty ready list. |
| `Scheduler.DrainsAboveIff` | Driver/FreeRTOS/Source/tasks.c:2810-2832 | The result that the loop of the tick accumulates is true exactly if a due task outranks the running one. |
| `Scheduler.Scheduler.constructor` | Driver/FreeRTOS/Source/tasks.c:1026-1107 | The fields after the creation of the first task are those of the model, which are valid. |
| `Scheduler.Scheduler.vTaskStartScheduler` | Driver/FreeRTOS/Source/tasks.c:1954-2076 | In-place form of the start that StartedValid is about: next unblock time, tick count, and the flag that later creations look at. |
| `Scheduler.Scheduler.xTaskIncrementTick` | Driver/FreeRTOS/Source/tasks.c:2720-2894 | In-place form of the step proved in TickRefines; its result is the request that KernelSlices.TickAsksIff is about. |
| `Scheduler.Scheduler.ReleaseDelayedTasks` | Driver/FreeRTOS/Source/tasks.c:2754-2835 | The for-loop with its removals is the draining proved exact in DrainReleases, and ends. |
| `Scheduler.Scheduler.taskSWITCH_DELAYED_LISTS` | Driver/FreeRTOS/Source/tasks.c:201-213 | Exchanges the two lists, counts the wrap and resets the next unblock time. |
| `Scheduler.Scheduler.prvResetNextTaskUnblockTime` | Driver/FreeRTOS/Source/tasks.c:3999-4017 | The next unblock time becomes that of the head, or portMAX_DELAY. |
| `Scheduler.Scheduler.prvAddTaskToReadyList` | Driver/FreeRTOS/Source/tasks.c:221-225 | The item joins the end of its ready list, uxTopReadyPriority rises if need be, and nothing else changes. |
| `Scheduler.Scheduler.prvAddNewTaskToReadyList` | Driver/FreeRTOS/Source/tasks.c:1026-1107 | In-place form of the creation of CreatedValid before the scheduler runs and of AddNewTaskRefines after; it yields exactly if the scheduler runs and the new task outranks the running one. |
| `Scheduler.Scheduler.vTaskSuspendAll` | Driver/FreeRTOS/Source/tasks.c:2090-2108 | Nests, and changes nothing else. |
| `Scheduler.Scheduler.xTaskResumeAll` | Driver/FreeRTOS/Source/tasks.c:2174-2283 | In-place form of the step proved in ResumeAllRefines, with both loops; the result tells whether a yield was due. |
| `Scheduler.Scheduler.ReleasePendingTasks` | Driver/FreeRTOS/Source/tasks.c:2195-2226 | The loop over the pending list, and the reset of the next unblock time after it. |
| `Scheduler.Scheduler.ReplayPendedTicks` | Driver/FreeRTOS/Source/tasks.c:2233-2258 | The do-while loop calls xTaskIncrementTick exactly xPendedTicks times. |
| `Scheduler.Scheduler.prvAddCurrentTaskToDelayedList` | Driver/FreeRTOS/Source/tasks.c:5297-5407 | In-place form of the step of BlockView, choosing current, overflow or suspended list. |
| `Scheduler.Scheduler.xTaskRemoveFromEventList` | Driver/FreeRTOS/Source/tasks.c:3169-3234 | In-place form of the step of RemoveFromEventListView; true exactly if the woken task outranks the running one. |
| `Scheduler.Scheduler.vTaskSuspend` | Driver/FreeRTOS/Source/tasks.c:1673-1772 | In-place form of the step of SuspendTaskView; it yields exactly if the task suspends itself. |
| `Scheduler.Scheduler.prvTaskIsTaskSuspended` | Driver/FreeRTOS/Source/tasks.c:1779-1818 | True exactly for a task on the suspended list that waits for no event and is not pending. |
| `Scheduler.Scheduler.vTaskResume` | Driver/FreeRTOS/Source/tasks.c:1825-1871 | In-place form of the step of ResumeTaskView, with the condition of its yield. |
| `Scheduler.Scheduler.xTaskResumeFromISR` | Driver/FreeRTOS/Source/tasks.c:1879-1949 | In-place form of the step of ResumeTaskFromISRView; its result asks for a yield exactly if the task is made ready at once and is not below the running one. |
| `Scheduler.Scheduler.HighestReadyPriority` | Driver/FreeRTOS/Source/tasks.c:136-144 | The loop ends at the highest priority with a ready task. |
| `Scheduler.Scheduler.taskSELECT_HIGHEST_PRIORITY_TASK` | Driver/FreeRTOS/Source/tasks.c:136-151 | In-place form of the selection proved in SelectHighest. |
| `Scheduler.Scheduler.vTaskSwitchContext` | Driver/FreeRTOS/Source/tasks.c:3009-3080 | In-place form of the step of SwitchContextValid. |
| `Scheduler.Scheduler.vTaskPrioritySet` | Driver/FreeRTOS/Source/tasks.c:1507-1666 | In-place form of the step of PrioritySetValid, with the condition under which it yields. |
| `Scheduler.Scheduler.xTaskPriorityInherit` | Driver/FreeRTOS/Source/tasks.c:4067-4150 | Raises the holder to the caller's priority exactly if it is below, moves it between ready lists, and says whether an inheritance is in effect. |
| `Scheduler.Scheduler.xTaskPriorityDisinherit` | Driver/FreeRTOS/Source/tasks.c:4157-4230 | Returns the holder to its base priority exactly when it gives its last mutex while inheriting. |
| `Scheduler.Scheduler.vTaskPriorityDisinheritAfterTimeout` | Driver/FreeRTOS/Source/tasks.c:4237-4336 | Lowers the holder to the larger of its base and the highest waiting priority, only if it holds this one mutex. |
| `TimeOuts.CheckIsRightIff` | Driver/FreeRTOS/Source/tasks.c:3306-3368 | For any elapsed time: xTaskCheckForTimeOut is right exactly if fewer than 2^32 ticks have passed, or the wrapped difference alone reaches the wait, or the wrap count shows it. |
| `TimeOuts.CheckCanMiss` | Driver/FreeRTOS/Source/tasks.c:3306-3368 | 2^32 + 1 elapsed ticks pass unnoticed for a wait of 5. |
| `TimeOuts.CheckStep` | Driver/FreeRTOS/Source/tasks.c:3306-3368 | One check within 2^32 ticks: expired exactly if the wait has passed, else what is left and a new snapshot. |
| `TimeOuts.BudgetIsKept` | Driver/FreeRTOS/Source/tasks.c:3306-3368 | Over any number of re-checks, each fewer than 2^32 ticks after the last, expiry is reported exactly when the original block time has passed, and until then the rest and the elapsed ticks add up to it. |
| `TimeOuts.ForeverNeverExpires` | Driver/FreeRTOS/Source/tasks.c:3330-3340 | A wait of portMAX_DELAY never expires. |
| `TimeOuts.KernelSnapshot` | Driver/FreeRTOS/Source/tasks.c:3286-3303 | The snapshot taken in any kernel state is that of its unbounded clock. |
| `TimeOuts.TimeOut_t.constructor` | Driver/FreeRTOS/Source/tasks.c:3286-3295 | Records the wrap count and the tick count. |
| `TimeOuts.TimeOut_t.vTaskInternalSetTimeOutState` | Driver/FreeRTOS/Source/tasks.c:3298-3303 | Records them again. |
| `TimeOuts.TimeOut_t.xTaskCheckForTimeOut` | Driver/FreeRTOS/Source/tasks.c:3306-3368 | In-place form of the check that CheckStep and BudgetIsKept are about: result, remaining wait and snapshot. |
| `TimeOuts.DelayUntilIsExact` | Driver/FreeRTOS/Source/tasks.c:1214-1294 | Called within 2^32 ticks of the previous wake time: the new wake time is one period later, and the call blocks, for exactly the rest, if and only if that is still ahead. |
| `TimeOuts.DelayUntilBlocks` | Driver/FreeRTOS/Source/tasks.c:1214-1294 | The whole call, with the scheduler suspended and resumed, blocks the caller until exactly previous + increment in unbounded time. |
| `TimeOuts.PeriodDoesNotDrift` | Driver/FreeRTOS/Source/tasks.c:1214-1294 | The k-th call waits until start + (k + 1) * increment, whatever the calls before it did. |
| `TimeOuts.xTaskDelayUntil` | Driver/FreeRTOS/Source/tasks.c:1214-1294 | Method form, on the scheduler object. |
| `Ticks.TickAddWraps` | Driver/FreeRTOS/Source/tasks.c:5339-5339 | 32-bit addition of tick values is addition in unbounded time, wrapped. |
| `Ticks.TickSubWraps` | Driver/FreeRTOS/Source/tasks.c:3318-3318 | 32-bit subtraction of tick values is the elapsed time, if that is below 2^32. |
| `Lists.List.constructor` | Driver/FreeRTOS/Source/list.c:50-83 | An empty cycle through the end marker. |
| `Lists.List.vListInsertEnd` | Driver/FreeRTOS/Source/list.c:98-125 | Keeps the single cycle (next and previous inverse, containers right, count right, index on it) and puts the item just before the index. |
| `Lists.List.vListInsert` | Driver/FreeRTOS/Source/list.c:128-196 | Keeps the single cycle and inserts after all items that are not larger. |
| `Lists.List.InsertionPoint` | Driver/FreeRTOS/Source/list.c:146-182 | The search ends because of the portMAX_DELAY marker, at the position that InsertPosStable is about. |
| `Lists.List.NextEntry` | Driver/FreeRTOS/Source/include/list.h:286-299 | The walking index advances to the next item, skipping the end marker. |
| `Lists.uxListRemove` | Driver/FreeRTOS/Source/list.c:199-225 | Keeps the single cycle without the item, moves an index that stood on it back by one, returns the new count. |
| `ListSpec.InsertPosStable` | Driver/FreeRTOS/Source/list.c:128-196 | Among sorted values the insertion position keeps the order and comes after all equal values. |
| `ListSpec.InsertByValueSorted` | Driver/FreeRTOS/Source/list.c:128-196 | Inserting by value keeps a list sorted. |
| `ListSpec.InsertByValueAt` | Driver/FreeRTOS/Source/list.c:146-182 | Inserting by value is inserting at the position where the search stops. |
| `ListSpec.RoundRobin` | Driver/FreeRTOS/Source/include/list.h:286-299 | Among the next steps of the walking index, as many as there are items, each item is returned exactly once. |
| `ListSpec.AdvanceWalk` | Driver/FreeRTOS/Source/include/list.h:286-299 | A step of the walking index takes the first item of a queue of turns and puts it last. |
| `ListSpec.WalkVisits` | Driver/FreeRTOS/Source/include/list.h:286-299 | The n-th step of the walking index returns the n-th item of that queue of turns. |
| `ListSpec.RemoveWalk` | Driver/FreeRTOS/Source/list.c:199-225 | Removing an item, with the index moved back if it stood on it, leaves the other turns in their order. |
| `ListSpec.InsertWalk` | Driver/FreeRTOS/Source/list.c:98-125 | An item put at the end has its turn after all others, but for the one the index stands on. |
| `ListSpec.InsertEndIsLast` | Driver/FreeRTOS/Source/list.c:98-125 | An item put at the end is the last one that a walk comes to. |
| `ListSpec.InsertEndMembers` | Driver/FreeRTOS/Source/list.c:98-125 | No item is lost or doubled by it. |
| `ListSpec.WithoutNoDup` | Driver/FreeRTOS/Source/list.c:199-225 | Removal takes out that item and no other. |
| `QueueRun.NoneLostIff` | Driver/FreeRTOS/Source/queue.c:251-293 | Over every interleaving of task sends, receives and peeks, interrupt sends and receives, locking, waiting, unlocking and time-outs: while a task waits, every message (or free place) is spoken for by a woken task that has yet to run. This holds if and only if there are at most 127 tasks. |
| `QueueRun.WakeUpsAreLost` | Driver/FreeRTOS/Source/queue.c:270-293 | A run for any larger number of tasks: the int8_t count overflows, and a task is left waiting for the message that is there. |
| `QueueRun.RunKeeps` | Driver/FreeRTOS/Source/queue.c:835-1044 | Over every run: a waiting task means that messages are at most the woken receivers plus the noted wake-ups, or the count is at its cap; likewise for senders and free places. |
| `QueueModel.StepKeeps` | Driver/FreeRTOS/Source/queue.c:835-1044 | The same for one step of any kind. |
| `QueueModel.EventKeeps` | Driver/FreeRTOS/Source/queue.c:1047-1209 | An interrupt that sends or receives wakes a task or, on a locked queue, counts; either way the claim is kept for one more message. |
| `QueueModel.UnlockKeeps` | Driver/FreeRTOS/Source/queue.c:2279-2396 | Unlocking wakes one task for each noted wake-up, or all if the count is at its cap. |
| `QueueModel.PeekKeeps` | Driver/FreeRTOS/Source/queue.c:1731-1879 | A task that only looks wakes the next one, so that nothing is lost. |
| `QueueRun.FirstInFirstOut` | Driver/FreeRTOS/Source/queue.c:2175-2276 | With sends to the back, what has been taken plus what is in the queue is what was there plus what was accepted, in order, over every run. |
| `QueueRun.WaitersInOrder` | Driver/FreeRTOS/Source/tasks.c:3083-3105 | Both event lists stay in priority order through every step. |
| `QueueRun.HighestIsWoken` | Driver/FreeRTOS/Source/tasks.c:3187-3189 | In every run from a new queue and for every step: each task that the step wakes, on either list, has a priority at least as high as each task that goes on waiting, and of equals the one that has waited longer is woken. Sends, receives, interrupts and unlocking with its loops alike. |
| `QueueRun.StepWakesHighest` | Driver/FreeRTOS/Source/queue.c:930-940 | The same for one step from any state with its lists in order. |
| `QueueRun.SendOutcome` | Driver/FreeRTOS/Source/queue.c:858-965 | A send is refused exactly if the queue is full and it may not overwrite; else the message is at the back, in front or alone, and one receiver is woken, or noted if an interrupt finds the queue locked. |
| `QueueRun.ReceiveOutcome` | Driver/FreeRTOS/Source/queue.c:1405-1449 | A receive fails exactly on an empty queue; else it takes the first message and wakes or notes one sender; a peek takes nothing and wakes the next receiver. |
| `QueueRun.FrontIsNext` | Driver/FreeRTOS/Source/queue.c:2217-2230 | A message sent to the front is the next one received, and the rest is as before. |
| `QueueRun.UnlockOutcome` | Driver/FreeRTOS/Source/queue.c:2279-2396 | Unlocking wakes exactly as many tasks as wake-ups were noted, or all there are. |
| `QueueRun.LockOutcome` | Driver/FreeRTOS/Source/queue.c:251-263 | Locking starts both counts of noted wake-ups, and does not touch one that has been started. |
| `QueueRun.PlaceOutcome` | Driver/FreeRTOS/Source/tasks.c:3083-3105 | The task that found the queue full or empty, and only it, joins that list. |
| `QueueRun.TimeOutOutcome` | Driver/FreeRTOS/Source/tasks.c:2790-2800 | A task whose time has come is on neither list; the others wait as before. |
| `QueueRun.FoundIff` | Driver/FreeRTOS/Source/queue.c:2399-2458 | The re-check with the queue locked finds it full or empty exactly if it is. |
| `QueueRing.RunAgrees` | Driver/FreeRTOS/Source/queue.c:2175-2276 | Over any mix of sends to either end, overwrites of length 1, receptions and peeks the storage area holds and returns the same messages as a bounded double-ended sequence, with write = read + 1 + count modulo the length. |
| `QueueRing.PutBackItems` | Driver/FreeRTOS/Source/queue.c:2203-2216 | Writing at pcWriteTo is appending to the sequence, and keeps write = read + 1 + count modulo the length. |
| `QueueRing.PutFrontItems` | Driver/FreeRTOS/Source/queue.c:2217-2230 | Writing at pcReadFrom and moving it back is putting in front. |
| `QueueRing.PutOverItems` | Driver/FreeRTOS/Source/queue.c:2217-2252 | Overwriting in a queue of length 1 leaves exactly the new message. |
| `QueueRing.PutOverBreaksLonger` | Driver/FreeRTOS/Source/queue.c:2217-2252 | In a queue that holds a message, overwriting keeps the positions consistent if and only if the length is 1. |
| `QueueRing.TakeItems` | Driver/FreeRTOS/Source/queue.c:2258-2276 | Reading behind pcReadFrom takes the first element of the sequence. |
| `QueueRing.ResetItems` | Driver/FreeRTOS/Source/queue.c:309-316 | A reset queue is the empty sequence. |
| `Queues.Queue_t.constructor` | Driver/FreeRTOS/Source/queue.c:296-357 | A new queue is the empty one from which the runs start. |
| `Queues.Queue_t.prvCopyDataToQueue` | Driver/FreeRTOS/Source/queue.c:2175-2255 | On the array: the sequence with the message at its back, its front, or over its only element. |
| `Queues.Queue_t.prvCopyDataFromQueue` | Driver/FreeRTOS/Source/queue.c:2258-2276 | Returns the first element of the sequence and moves the read position. |
| `Queues.Queue_t.TrySend` | Driver/FreeRTOS/Source/queue.c:858-965 | The critical section of xQueueGenericSend is the TaskSend step of the machine; it sends exactly if there is room. |
| `Queues.Queue_t.TryReceive` | Driver/FreeRTOS/Source/queue.c:1405-1449 | The critical section of xQueueReceive is the TaskReceive step and returns the oldest message. |
| `Queues.Queue_t.TryPeek` | Driver/FreeRTOS/Source/queue.c:1759-1808 | The same for a peek: the read position is put back. |
| `Queues.Queue_t.prvLockQueue` | Driver/FreeRTOS/Source/queue.c:251-263 | Marks both lock counts, if they are not marked already. |
| `Queues.Queue_t.prvIncrementQueueTxLock` | Driver/FreeRTOS/Source/queue.c:270-278 | Counts up to the number of tasks, in an int8_t. |
| `Queues.Queue_t.prvIncrementQueueRxLock` | Driver/FreeRTOS/Source/queue.c:285-293 | The same for receptions. |
| `Queues.Queue_t.prvIsStillBlocked` | Driver/FreeRTOS/Source/queue.c:2399-2458 | The task that has the queue locked finds it full or empty exactly if it is. |
| `Queues.Queue_t.PlaceOnEventList` | Driver/FreeRTOS/Source/tasks.c:3083-3105 | The running task joins the list of senders or receivers in priority order. |
| `Queues.Queue_t.UnlockQueueTx` | Driver/FreeRTOS/Source/queue.c:2287-2365 | The first loop of prvUnlockQueue is the UnlockTx step. |
| `Queues.Queue_t.UnlockQueueRx` | Driver/FreeRTOS/Source/queue.c:2368-2395 | The second loop is the UnlockRx step. |
| `Queues.Queue_t.xQueueGenericSendFromISR` | Driver/FreeRTOS/Source/queue.c:1047-1209 | Is the SendFromISR step; it sends exactly if there is room. |
| `Queues.Queue_t.xQueueReceiveFromISR` | Driver/FreeRTOS/Source/queue.c:1882-1972 | Is the ReceiveFromISR step and returns the oldest message. |
| `MutexModel.NeverInverted` | Driver/FreeRTOS/Source/tasks.c:4067-4336 | Over every run from the start of takes, blocks, retries, time-outs and gives in which tasks block holding nothing: no holder is ever below its base priority or below a task that waits for its mutex, and no task that holds nothing away from its base, if and only if each mutex is taken by a task that nobody waiting for it outranks. |
| `MutexRuns.NeverOutranked` | Driver/FreeRTOS/Source/tasks.c:4067-4336 | The same over every run from the start, whatever the tasks hold when they block: so if and only if no mutex is taken below a task that waits for it, no task blocks on a mutex whose holder waits for a lower one, and no time-out lowers a holder below a task that waits behind the first. |
| `MutexRuns.OutranksIff` | Driver/FreeRTOS/Source/queue.c:1521-1728 | The same exact condition for one step of any kind, from any state with the books in order. |
| `MutexRuns.StepBooks` | Driver/FreeRTOS/Source/queue.c:1521-1728 | Every step, also one that lets a holder be outranked, keeps the books: counts, base priorities, item values, and each waiting task on one list. |
| `MutexRuns.GiveUpOutranksIff` | Driver/FreeRTOS/Source/tasks.c:4237-4336 | A time-out lets a holder be outranked exactly if it lowers the holder while some task on the list needs more than both the first one and the holder's base. |
| `MutexTimeouts.TimeoutsUndercut` | Driver/FreeRTOS/Source/queue.c:1704-1716 | A run from the start that does so, with no ready task passed over: a waiting task has inherited, so the list is no longer in order, and only its head is looked at. |
| `MutexOutcomes.NeverOverboosted` | Driver/FreeRTOS/Source/tasks.c:4067-4336 | In every reachable state: a task that holds no mutex has its base priority; a task that holds some has at least its own, and exactly the base priority of one of the tasks. |
| `MutexOutcomes.BlockOutcome` | Driver/FreeRTOS/Source/tasks.c:4067-4150 | A block raises the holder to the larger of its own and the blocker's priority, and nobody else; it notes whether the holder owes its priority to an inheritance. |
| `MutexOutcomes.GiveUpOutcome` | Driver/FreeRTOS/Source/tasks.c:4237-4336 | A time-out lowers a holder of one mutex to the larger of its base and the first waiting task's priority, and changes nothing for others. |
| `MutexOutcomes.GiveUpExact` | Driver/FreeRTOS/Source/queue.c:2150-2175 | With the waiting list in order, the first task on it is one of the highest priority of all that wait. |
| `MutexOutcomes.TakeOutcome` | Driver/FreeRTOS/Source/queue.c:1555-1600 | A task that takes a free mutex holds it and one mutex more than before; no priority changes. |
| `MutexOutcomes.GiveOutcome` | Driver/FreeRTOS/Source/tasks.c:4157-4230 | A give returns the giver to its base priority with its last mutex only; the mutex is free and the first waiting task is ready to take it. |
| `MutexOutcomes.ExpireOutcome` | Driver/FreeRTOS/Source/tasks.c:2754-2835 | A task whose block time has expired is ready and waits no longer; the others do as before. |
| `MutexModel.TakeInvertsIff` | Driver/FreeRTOS/Source/queue.c:1555-1600 | Of one take: nobody is outranked after it exactly if nobody who waits for the mutex is above the taker. |
| `MutexModel.HighestIsGuarded` | Driver/FreeRTOS/Source/tasks.c:136-151 | That is so whenever the taker is a ready task of highest priority. |
| `MutexModel.RunKeeps` | Driver/FreeRTOS/Source/queue.c:1521-1728 | Every such run keeps the invariant that this follows from: counts, sorted waiting lists, and a woken task that covers those still waiting for a free mutex. |
| `MutexModel.StepKeeps` | Driver/FreeRTOS/Source/queue.c:1521-1728 | The same for one step of any kind. |
| `MutexModel.TakeKeeps` | Driver/FreeRTOS/Source/queue.c:1555-1600 | Taking a free mutex keeps it, although other tasks may wait, if none of them is above the taker. |
| `MutexModel.BlockKeeps` | Driver/FreeRTOS/Source/tasks.c:4067-4150 | Blocking on a held mutex raises its holder as far as needed. |
| `MutexModel.RetryKeeps` | Driver/FreeRTOS/Source/queue.c:1604-1665 | A woken task that finds the mutex held again keeps it. |
| `MutexModel.GiveUpKeeps` | Driver/FreeRTOS/Source/tasks.c:4237-4336 | A time-out lowers the holder only to what the tasks still waiting need. |
| `MutexModel.GiveKeeps` | Driver/FreeRTOS/Source/tasks.c:4157-4230 | Giving returns the giver to its base with its last mutex only, and the woken task covers the rest. |
| `MutexModel.ExpireKeeps` | Driver/FreeRTOS/Source/tasks.c:2754-2835 | The tick taking a waiting task off the list keeps it. |
| `MutexChains.BlockInvertsIff` | Driver/FreeRTOS/Source/tasks.c:4067-4150 | Whatever mutexes the tasks hold: blocking on a held mutex leaves some holder below a task that waits for it if and only if the holder itself waits for another mutex whose holder is below the task that blocks. Inheritance is not passed on. |
| `MutexChains.ChainsInvert` | Driver/FreeRTOS/Source/tasks.c:4067-4150 | A run from the start that reaches such a block, with no ready task passed over. |
| `MutexSwitch.GiveSwitchesIff` | Driver/FreeRTOS/Source/queue.c:930-962 | After a give the running task is again of highest priority or a switch was requested, if and only if not: the giver falls back from an inherited priority, another ready task is above its base, and a task not above that base waits for the mutex. |
| `MutexSwitch.GiveCanOverlook` | Driver/FreeRTOS/Source/tasks.c:4203-4213 | A run from the start in which it does so: the giver goes on at priority 1 beside a ready task of priority 3, with no switch requested. |
| `MutexSwitch.TakeCanInvert` | Driver/FreeRTOS/Source/queue.c:1555-1600 | A run from the start in which the giver, going on so, takes a mutex back for which a task above it waits, and then holds it at the lower priority. |
| `TimerRun.NeverMissedNeverEarly` | Driver/FreeRTOS/Source/timers.c:604-663 | In every reachable state in which the head is not due, each running timer has had one callback for each expiry up to the last sample of the time, no more and no fewer. |
| `TimerLife.CallbacksExact` | Driver/FreeRTOS/Source/timers.c:604-663 | A timer that is started and that no other command concerns, over any run: whenever the head is not due, its callback has run once for each whole period since the command, or, for a one-shot timer, once if its period has passed and not at all if it has not. |
| `TimerCommands.StoppedForGood` | Driver/FreeRTOS/Source/timers.c:799-856 | A stopped timer has no further callback, is in no list and stays inactive over every later run in which no command concerns it, however others run and the ticks wrap. |
| `TimerCommands.StopOutcome` | Driver/FreeRTOS/Source/timers.c:799-856 | When a stop command has been processed the timer is in no list and inactive, and it has not been called once more. |
| `TimerCommands.NewPeriodExact` | Driver/FreeRTOS/Source/timers.c:858-871 | After a change of period at tick n that no other command follows: whenever the head is not due, the callback has run once for each whole new period since n, or, for a one-shot timer, once after one. |
| `TimerCommands.ActiveIffListed` | Driver/FreeRTOS/Source/timers.c:984-1006 | In every reachable state the flag that xTimerIsTimerActive reads is set exactly for the timers in a list; so it is cleared when a one-shot timer expires. |
| `TimerCommands.CalledInTime` | Driver/FreeRTOS/Source/timers.c:568-663 | A started timer that is left alone: when the timer task wakes at tick n, finitely many passes of its loop bring it to the point at which it blocks again, and then the callback has run exactly once for each whole period. |
| `TimerCommands.CatchesUp` | Driver/FreeRTOS/Source/timers.c:568-663 | From any state: as many passes as timers are due leave the head not due. |
| `TimerCommands.PassTakesHead` | Driver/FreeRTOS/Source/timers.c:604-663 | A pass at the tick sampled last processes the head exactly if it is due, and otherwise changes nothing. |
| `TimerCommands.ModeOutcome` | Driver/FreeRTOS/Source/timers.c:451-469 | The timer has the new mode, which its next expiry and next start go by; its expiry, callbacks and activity are as before. |
| `TimerRun.RunKeeps` | Driver/FreeRTOS/Source/timers.c:568-601 | Every run of the timer task keeps the invariant: lists sorted and disjoint, each timer in the list of its expiry's epoch, callbacks on schedule. |
| `TimerRun.StepKeeps` | Driver/FreeRTOS/Source/timers.c:568-601 | The same for one step of any kind. |
| `TimerRun.StartAutoReload` | Driver/FreeRTOS/Source/timers.c:821-850 | A start command given at c and processed at n, less than 2^32 ticks later: the callback runs exactly (n - c) / p times and the timer lands in the list of the epoch of its first expiry after n. |
| `TimerRun.StartKeeps` | Driver/FreeRTOS/Source/timers.c:821-850 | A start or reset of any timer keeps the invariant. |
| `TimerRun.RolloverFires` | Driver/FreeRTOS/Source/timers.c:908-930 | On rollover each timer of the old list has one callback for each expiry up to the largest tick value; an auto-reload timer is then in the new current list at its next expiry. |
| `TimerRun.SwitchKeeps` | Driver/FreeRTOS/Source/timers.c:908-930 | The switch of the lists ends, keeps the invariant and leaves the overflow list empty. |
| `TimerRun.DrainKeeps` | Driver/FreeRTOS/Source/timers.c:916-926 | The loop empties the current list: no reload re-enters it. |
| `TimerRun.SampleKeeps` | Driver/FreeRTOS/Source/timers.c:693-713 | Sampling the time detects exactly the wraps, if sampled within 2^32 ticks. |
| `TimerRun.ReloadExact` | Driver/FreeRTOS/Source/timers.c:522-538 | The catch-up loop makes one callback for each expiry passed and ends at the first expiry after now. |
| `TimerRun.ProcessHeadKeeps` | Driver/FreeRTOS/Source/timers.c:541-565 | Processing the expired head keeps the invariant; if it is reloaded its expiry is after now. |
| `TimerRun.CaughtUp` | Driver/FreeRTOS/Source/timers.c:604-663 | Once the head is not due, no timer is. |
| `TimerRun.CallsAreFloor` | Driver/FreeRTOS/Source/timers.c:522-538 | The number of callbacks is the number of whole periods since the command. |
| `TimerRun.StopCommandKeeps` | Driver/FreeRTOS/Source/timers.c:852-856 | A stop keeps the invariant. |
| `TimerRun.ChangePeriodKeeps` | Driver/FreeRTOS/Source/timers.c:858-871 | A new period counts from when the command is processed. |
| `TimerRun.SetReloadModeKeeps` | Driver/FreeRTOS/Source/timers.c:451-469 | Changing the mode of a timer keeps the invariant. |
| `TimerModel.FiresIffElapsed` | Driver/FreeRTOS/Source/timers.c:716-757 | For all tick values the branches say that the wrapped time since the command has reached the period. |
| `TimerModel.DecideExact` | Driver/FreeRTOS/Source/timers.c:716-757 | In unbounded time: fire if the expiry has passed, else the list of the expiry's epoch. |
| `TimerTask.TimerTask.prvInsertTimerInActiveList` | Driver/FreeRTOS/Source/timers.c:716-757 | In-place form of the decision that DecideExact is about. |
| `TimerTask.TimerTask.prvReloadTimer` | Driver/FreeRTOS/Source/timers.c:522-538 | The while loop, which ends, is the catching up proved in ReloadExact. |
| `TimerTask.TimerTask.prvProcessExpiredTimer` | Driver/FreeRTOS/Source/timers.c:541-565 | In-place form of the step of ProcessHeadKeeps. |
| `TimerTask.TimerTask.prvSwitchTimerLists` | Driver/FreeRTOS/Source/timers.c:908-930 | In-place form of the step of SwitchKeeps and RolloverFires; its loop ends. |
| `TimerTask.TimerTask.prvSampleTimeNow` | Driver/FreeRTOS/Source/timers.c:693-713 | In-place form of the step of SampleKeeps; true exactly if the lists were switched. |
| `TimerTask.TimerTask.prvProcessTimerOrBlockTask` | Driver/FreeRTOS/Source/timers.c:604-663 | One round: process the head if it is due and the lists were not switched. |
| `TimerTask.TimerTask.StartCommand` | Driver/FreeRTOS/Source/timers.c:821-850 | In-place form of the step of StartAutoReload. |
| `TimerTask.TimerTask.StopCommand` | Driver/FreeRTOS/Source/timers.c:799-856 | In-place form of the step of StopOutcome: out of its list, and inactive. |
| `TimerTask.TimerTask.ChangePeriodCommand` | Driver/FreeRTOS/Source/timers.c:858-871 | In-place form of the step of ChangePeriodKeeps and NewPeriodExact. |
| `StreamModel.ReceivedIsPrefix` | Driver/FreeRTOS/Source/stream_buffer.c:1248-1356 | In every interleaving of one writer and one reader, byte by byte and with the index writes apart, the bytes that the reader has copied out of the ring are a prefix of those that the writer was given, fewer than the length of the ring behind; in message mode message by message, each whole. |
| `StreamSends.SendOutcome` | Driver/FreeRTOS/Source/stream_buffer.c:597-871 | In every run: a writer that has left the loop which samples the space publishes, until its next call, exactly the first min(|data|, free) bytes, free being what the ring really has then; to a message buffer exactly the message if it and its length fit, else nothing. |
| `StreamSends.SendAccepts` | Driver/FreeRTOS/Source/stream_buffer.c:824-871 | What the writer is left with when the loop ends, from the ring: the bytes that fit, or the whole frame if and only if |data| + 4 <= free, published unless it is empty. |
| `StreamSends.LoopsIff` | Driver/FreeRTOS/Source/stream_buffer.c:597-627 | The loop goes round again exactly if the tail has moved since it began. |
| `StreamSends.SampleExact` | Driver/FreeRTOS/Source/stream_buffer.c:597-627 | When the loop ends, the free space it has found is exactly that of the ring: the reader cannot have gone round it once. |
| `StreamSends.StepSamples` | Driver/FreeRTOS/Source/stream_buffer.c:597-627 | Through every step of either side: the space found lies between that at the first look and that of now. |
| `StreamSends.ReceiveOutcome` | Driver/FreeRTOS/Source/stream_buffer.c:874-975 | A reader of a stream gets exactly the first min(room, stored) bytes of those stored when it called, whatever the writer does meanwhile. |
| `StreamSends.MessageOutcome` | Driver/FreeRTOS/Source/stream_buffer.c:1075-1124 | A reader of messages gets exactly the first one if it has room for it, else nothing. |
| `StreamSends.ReceiveTakes` | Driver/FreeRTOS/Source/stream_buffer.c:1075-1124 | A read starts exactly if something is stored, and takes the smaller of room and stored bytes. |
| `StreamSends.FilledHolds` | Driver/FreeRTOS/Source/stream_buffer.c:1248-1291 | Copying in behind the head disturbs nothing stored; moving the head then appends the bytes. |
| `StreamSends.MessageRead` | Driver/FreeRTOS/Source/stream_buffer.c:1075-1124 | The length and the bytes taken out are the first message; what is left is the other messages. |
| `StreamModel.RunKeeps` | Driver/FreeRTOS/Source/stream_buffer.c:824-871 | Every run keeps the invariant: the published bytes lie between the indexes, the writer only fills free places, the reader only reads published ones. |
| `StreamModel.StepKeeps` | Driver/FreeRTOS/Source/stream_buffer.c:824-871 | The same for one step of either side. |
| `StreamModel.LookingKeeps` | Driver/FreeRTOS/Source/stream_buffer.c:597-627 | The free space that the re-read loop settles on is there, whatever the reader does meanwhile. |
| `StreamModel.WholeRead` | Driver/FreeRTOS/Source/stream_buffer.c:1075-1124 | A complete read has got the first message, whole and unchanged. |
| `StreamModel.TooSmallLeavesIt` | Driver/FreeRTOS/Source/stream_buffer.c:1086-1106 | A message longer than the caller's room leaves everything but the reader's progress untouched; one that fits is taken in full. |
| `StreamModel.LengthRoundTrip` | Driver/FreeRTOS/Source/stream_buffer.c:837-848 | The stored length is read back as it was. |
| `StreamModel.FramesAppend` | Driver/FreeRTOS/Source/stream_buffer.c:824-871 | Messages one behind the other are their frames one behind the other. |
| `StreamModel.SpacesExact` | Driver/FreeRTOS/Source/stream_buffer.c:1338-1356 | Free and used bytes computed from the indexes are those of the ring. |
| `StreamModel.FilledTaken` | Driver/FreeRTOS/Source/stream_buffer.c:1294-1335 | What is copied in, around the end, is what is taken out. |
| `StreamModel.FilledChain` | Driver/FreeRTOS/Source/stream_buffer.c:843-868 | Copying the length and then the data is copying the frame. |
| `StreamModel.WholeWrite` | Driver/FreeRTOS/Source/stream_buffer.c:1248-1291 | The byte copies of a write, one step each, and the write of the head make of the ring what the method on the array does. |
| `StreamModel.WholeReceipt` | Driver/FreeRTOS/Source/stream_buffer.c:1294-1335 | The byte copies of a read and the write of the tail give the reader what the method on the array returns. |
| `StreamModel.CopiesLength` | Driver/FreeRTOS/Source/stream_buffer.c:1075-1085 | The copies of a message length do so too. |
| `StreamBuffers.StreamBuffer_t.xStreamBufferSpacesAvailable` | Driver/FreeRTOS/Source/stream_buffer.c:597-627 | Returns the free bytes, by SpacesExact. |
| `StreamBuffers.StreamBuffer_t.prvBytesInBuffer` | Driver/FreeRTOS/Source/stream_buffer.c:1338-1356 | Returns the used bytes, by SpacesExact. |
| `StreamBuffers.StreamBuffer_t.prvWriteBytesToBuffer` | Driver/FreeRTOS/Source/stream_buffer.c:1248-1291 | The two copies fill exactly the places from head on; the new head is returned, not published. |
| `StreamBuffers.StreamBuffer_t.prvReadBytesFromBuffer` | Driver/FreeRTOS/Source/stream_buffer.c:1294-1335 | The two copies take exactly the bytes from tail on; nothing is changed. |
| `StreamBuffers.StreamBuffer_t.prvWriteMessageToBuffer` | Driver/FreeRTOS/Source/stream_buffer.c:824-871 | Returns min(|data|, space) for a stream, and |data| or 0 for a message according to |data| + 4 <= space; the ring has these bytes behind the head, a message with its length in front, and the head moves past them in one write, which an empty message does not make. |
| `StreamBuffers.StreamBuffer_t.prvReadMessageFromBuffer` | Driver/FreeRTOS/Source/stream_buffer.c:1075-1124 | The first message if it fits, else nothing, and one write of xTail. |
| `StreamBuffers.StreamBuffer_t.xStreamBufferSendFromISR` | Driver/FreeRTOS/Source/stream_buffer.c:773-821 | On the array: what was stored is followed by the first min(|data|, free) bytes, or by the frame of the message if it fits, and the result is their number. |
| `StreamBuffers.StreamBuffer_t.xStreamBufferReceiveFromISR` | Driver/FreeRTOS/Source/stream_buffer.c:1018-1072 | On the array: returns the first min(room, stored) bytes, or the first message if there is room for it, and leaves the rest stored. |
| `EventModel.NobodyWaitsInVain` | Driver/FreeRTOS/Source/event_groups.c:533-626 | Over every run of set, clear, wait, sync and time-out from a new group no task is left on the list whose condition the bits meet, and none is on it twice. |
| `EventModel.RunKeeps` | Driver/FreeRTOS/Source/event_groups.c:194-626 | Every run keeps the invariant that this follows from. |
| `EventModel.StepKeeps` | Driver/FreeRTOS/Source/event_groups.c:194-500 | The same for one step of any kind. |
| `EventModel.SetKeeps` | Driver/FreeRTOS/Source/event_groups.c:533-626 | A set call leaves nobody whose condition is met, although it clears bits only after the pass. |
| `EventModel.SyncKeeps` | Driver/FreeRTOS/Source/event_groups.c:194-314 | So does a rendezvous, whether or not its caller blocks. |
| `EventModel.SetReleases` | Driver/FreeRTOS/Source/event_groups.c:551-617 | One set call judges every waiter by the same uncleared bits, releases exactly those satisfied, and gives each of them that value. |
| `EventModel.SetLeaves` | Driver/FreeRTOS/Source/event_groups.c:593-625 | After a set call any single bit is set if and only if it was set before or is set by the call, and no waiting task whose condition these bits meet has asked for it to be cleared. |
| `EventModel.SetLeavesOthers` | Driver/FreeRTOS/Source/event_groups.c:533-626 | A set call does not touch the item value of a task that does not wait. |
| `EventModel.ClearLeaves` | Driver/FreeRTOS/Source/event_groups.c:473-500 | A clear call takes away exactly the bits it names and releases nobody. |
| `EventModel.MetBitwiseIff` | Driver/FreeRTOS/Source/event_groups.c:693-727 | The test is: all, or some, of the single bits asked for are set. |
| `EventModel.WaitReturns` | Driver/FreeRTOS/Source/event_groups.c:317-406 | A wait whose condition is met returns the bits as they were and takes away its own exactly if it asked for that; one that is not met waits with its request, or returns the bits unchanged if it has no block time. |
| `EventModel.SyncReturns` | Driver/FreeRTOS/Source/event_groups.c:194-254 | A sync sets its bits as a set call does; if that completes the rendezvous it returns the bits before the clear and clears those of the rendezvous, else it waits, or returns what is left. |
| `EventModel.TimeOutLeaves` | Driver/FreeRTOS/Source/tasks.c:2790-2800 | A task whose time has come leaves the list, and no other does; the bits stay. |
| `EventModel.ItemValueKeeps` | Driver/FreeRTOS/Source/event_groups.c:376-397 | The packed item value carries the request faithfully and does not look like a release. |
| `EventModel.RendezvousCompletes` | Driver/FreeRTOS/Source/event_groups.c:194-314 | The call that completes the set releases every task waiting for the rendezvous and leaves its bits clear. |
| `EventModel.ReturnsTheReleasingBits` | Driver/FreeRTOS/Source/event_groups.c:424-462 | A released task returns the bits as they were when it was released. |
| `EventModel.TimeOutReturnsTheBits` | Driver/FreeRTOS/Source/event_groups.c:424-462 | A task that timed out returns the bits as they are, and clears its own if its condition has come true since. |
| `EventGroups.EventGroup_t.constructor` | Driver/FreeRTOS/Source/event_groups.c:148-187 | A new group has no bits set and nobody waiting. |
| `EventGroups.EventGroup_t.xEventGroupSetBits` | Driver/FreeRTOS/Source/event_groups.c:533-626 | In-place form of the set call of SetReleases and SetLeaves; it returns the bits that are left. |
| `EventGroups.EventGroup_t.ReleaseMatching` | Driver/FreeRTOS/Source/event_groups.c:555-617 | The pass over the list while items are removed from it: who is kept, who is released, what is to be cleared. |
| `EventGroups.EventGroup_t.vTaskRemoveFromUnorderedEventList` | Driver/FreeRTOS/Source/tasks.c:3237-3283 | The item leaves the list with the value that it is given. |
| `EventGroups.EventGroup_t.xEventGroupClearBits` | Driver/FreeRTOS/Source/event_groups.c:473-500 | Clears the bits and returns them as they were. |
| `EventGroups.EventGroup_t.prvTestWaitCondition` | Driver/FreeRTOS/Source/event_groups.c:693-727 | True exactly if all, or some, of the bits are set. |
| `EventGroups.EventGroup_t.WaitBitsEntry` | Driver/FreeRTOS/Source/event_groups.c:317-406 | xEventGroupWaitBits up to its block, in place. |
| `EventGroups.EventGroup_t.SyncEntry` | Driver/FreeRTOS/Source/event_groups.c:194-254 | xEventGroupSync up to its block, in place. |
| `EventGroups.EventGroup_t.AfterBlocking` | Driver/FreeRTOS/Source/event_groups.c:424-462 | What both do when the task runs again, in place. |
| `AllocatorModel.MallocExact` | Driver/System/malloc.c:109-153 | Fails exactly for size 0 or when no run of enough free blocks exists; else takes the highest such run, and keeps the invariant. |
| `AllocatorModel.ScanExact` | Driver/System/malloc.c:132-152 | The downward scan finds the highest run that fits if there is one. |
| `AllocatorModel.FreeExact` | Driver/System/malloc.c:163-187 | Freeing an allocation gives back its blocks and no others. |
| `AllocatorModel.FreeKeepsIff` | Driver/System/malloc.c:163-187 | Freeing any block that does not overrun the map leaves it sound if and only if an allocation starts there or the block is free. |
| `AllocatorModel.RunKeeps` | Driver/System/malloc.c:109-187 | Over every run that frees no block inside an allocation: allocations are disjoint runs inside the table, and the zero entries are exactly the free blocks. Blocks that are free already may be freed. |
| `AllocatorModel.AllFreedIsEmpty` | Driver/System/malloc.c:163-187 | Once everything has been freed the map is empty. |
| `AllocatorModel.BytesApart` | Driver/System/malloc.c:109-153 | The bytes of two allocations do not overlap and lie in the memory. |
| `AllocatorModel.InteriorFreeOverruns` | Driver/System/malloc.c:175-180 | Freeing a block inside an allocation runs over the end of the map exactly if it is closer to the end than the allocation is long. |
| `AllocatorModel.InteriorFreeReached` | Driver/System/malloc.c:175-180 | A run of one call after which a free overruns. |
| `AllocatorModel.BlocksHold` | Driver/System/malloc.c:126-131 | The blocks for a size hold it, and one fewer would not. |
| `Allocator.MemoryBank.my_mem_init` | Driver/System/malloc.c:73-77 | Clears the map and marks it ready. |
| `Allocator.MemoryBank.my_mem_malloc` | Driver/System/malloc.c:109-153 | In place: the call of MallocExact, with its byte offset or 0xFFFFFFFF. |
| `Allocator.MemoryBank.FindRun` | Driver/System/malloc.c:132-152 | The loop is the scan of ScanExact. |
| `Allocator.MemoryBank.my_mem_free` | Driver/System/malloc.c:163-187 | In place, for any offset that does not overrun the map: 1 for a map not set up, 2 for an offset outside, else the call of FreeKeepsIff; the bank is sound afterwards exactly under its condition. |
| `Crc.TablesExact` | Driver/FreeModbus/rtu/mbcrc.c:33-82 | For each of the 256 indexes the entries of both tables are the bytes of its bit-by-bit remainder for polynomial 0xA001 (section 6.2.2 of MODBUS over Serial Line V1.02). |
| `Crc.RoundExact` | Driver/FreeModbus/rtu/mbcrc.c:91-96 | One round with the tables is eight shifts of the bit-by-bit form. |
| `Crc.usMBCRC16` | Driver/FreeModbus/rtu/mbcrc.c:83-97 | For every byte string the result is the bit-by-bit check with start value 0xFFFF. |
| `Crc.ResidualIff` | Driver/FreeModbus/rtu/mbrtu.c:157-160 | Two more bytes make the check zero if and only if they are the check, low byte first. |
| `RtuModel.RoundTrip` | Driver/FreeModbus/rtu/mbrtu.c:149-359 | From any receiver state: a t3.5 pause, the bytes that a send puts on the line for a PDU of 1 to 253 bytes, another pause, and the same address and PDU are received. |
| `RtuModel.ReceiveIff` | Driver/FreeModbus/rtu/mbrtu.c:149-182 | A frame is accepted as an address and PDU if and only if the buffer holds them with their check. |
| `RtuModel.BurstReceived` | Driver/FreeModbus/rtu/mbrtu.c:229-359 | A burst of up to 256 bytes is stored whole and announced; a longer one never raises a frame event. |
| `RtuRuns.PauseAnnounces` | Driver/FreeModbus/rtu/mbrtu.c:229-359 | After any bytes and pauses since the start: the first pause announces readiness, whatever came before it; a later one announces a frame if and only if 1 to 256 bytes have come since the one before, which are then the buffer. |
| `RtuRuns.SendEnds` | Driver/FreeModbus/rtu/mbrtu.c:289-326 | Each call of the transmitter puts out the next byte of the frame and announces nothing; the call after the last byte announces the end, once, and later ones do nothing. |
| `RtuRuns.RefusedIff` | Driver/FreeModbus/rtu/mbrtu.c:185-226 | A send is refused, changing nothing, exactly while the receiver is not idle. |
| `RtuModel.SendsFrame` | Driver/FreeModbus/rtu/mbrtu.c:185-326 | What goes out is address, PDU and check. |
| `Rtu.RtuPort.xMBRTUReceiveFSM` | Driver/FreeModbus/rtu/mbrtu.c:229-287 | In place, one byte of BurstReceived. |
| `Rtu.RtuPort.xMBRTUTimerT35Expired` | Driver/FreeModbus/rtu/mbrtu.c:327-359 | In place, the pause. |
| `Rtu.RtuPort.eMBRTUReceive` | Driver/FreeModbus/rtu/mbrtu.c:149-182 | On the buffer, what ReceiveIff is about. |
| `Rtu.RtuPort.eMBRTUSend` | Driver/FreeModbus/rtu/mbrtu.c:185-226 | In place, the start of SendsFrame. |
| `Rtu.RtuPort.xMBRTUTransmitFSM` | Driver/FreeModbus/rtu/mbrtu.c:289-326 | In place, one byte of SendsFrame. |
| `AsciiModel.RoundTrip` | Driver/FreeModbus/ascii/mbascii.c:151-407 | From any receiver state and character history: what a send puts on the line for a PDU of 1 to 253 bytes gives the same address and PDU (section 2.5.2 of MODBUS over Serial Line V1.02). |
| `AsciiModel.ReceiveIff` | Driver/FreeModbus/ascii/mbascii.c:151-181 | Accepted if and only if the buffer holds address, PDU and their check. |
| `AsciiModel.FrameArrives` | Driver/FreeModbus/ascii/mbascii.c:220-327 | Colon, hex characters and carriage return put the bytes into the buffer; the line feed announces them. |
| `AsciiRuns.AnnouncedIff` | Driver/FreeModbus/ascii/mbascii.c:220-327 | Of all the characters that may follow a start or a pause: a frame is announced if and only if the character is a line feed right after a carriage return that ends a colon and no more characters than fit; the buffer then holds the bytes they give. |
| `AsciiRuns.BodyIff` | Driver/FreeModbus/ascii/mbascii.c:220-327 | What counts as the characters of a frame: those behind the last colon, if there is no carriage return among them and there are at most 512. |
| `AsciiRuns.PauseForgets` | Driver/FreeModbus/ascii/mbascii.c:409-431 | A pause of a second puts the receiver at rest: what came before announces nothing. |
| `AsciiRuns.SentOnce` | Driver/FreeModbus/ascii/mbascii.c:329-407 | Whatever arrives meanwhile: the end of a send is announced at most once, exactly when the whole frame and line feed have gone out, and the receiver is enabled again. |
| `AsciiRuns.StoppedIsSilent` | Driver/FreeModbus/ascii/mbascii.c:142-149 | After a stop nothing goes out and nothing is received, until a start or a send. |
| `AsciiRuns.RefusedIff` | Driver/FreeModbus/ascii/mbascii.c:183-218 | A send is refused, changing nothing, exactly while a frame is coming in. |
| `AsciiModel.SendsFrame` | Driver/FreeModbus/ascii/mbascii.c:183-407 | What goes out is the frame and the line feed. |
| `AsciiModel.SendUndisturbed` | Driver/FreeModbus/ascii/mbascii.c:183-407 | Whatever characters are on the line meanwhile and whenever the line is free: what a send has put out is always a beginning of its frame and line feed, and all of it once the sender is at rest. |
| `AsciiModel.NeverBehindBuffer` | Driver/FreeModbus/ascii/mbascii.c:130-431 | Over every run of starts, stops, sends, characters, transmissions and pauses, with the interrupts enabled as the code does: the buffer position never passes 256, nor does the place of an awaited second half, although both directions share eBytePos; and no frame is coming in whenever the transmitter can be called. |
| `AsciiModel.OccursKeeps` | Driver/FreeModbus/ascii/mbascii.c:130-431 | One of these keeps the bounds, and that at most one direction is enabled. |
| `AsciiModel.AlwaysAloneIff` | Driver/FreeModbus/ascii/mbascii.c:220-228 | Over every run: whenever the receiver can be called the sender is at rest, as it asserts, if and only if the port is never started again after a stop that has cut off a transmission. |
| `AsciiModel.HexRoundTrip` | Driver/FreeModbus/ascii/mbascii.c:433-468 | A byte written as two characters is read back. |
| `AsciiModel.LrcResidualIff` | Driver/FreeModbus/ascii/mbascii.c:470-483 | One more byte makes the check zero if and only if it is the check. |
| `Ascii.AsciiPort.prvucMBLRC` | Driver/FreeModbus/ascii/mbascii.c:470-483 | The loop is the negated sum that LrcResidualIff is about. |
| `Ascii.AsciiPort.vMBPortSerialEnable` | Driver/FreeModbus/port/portserial.c:62-74 | Which of the two interrupts are enabled, and nothing else. |
| `Ascii.AsciiPort.eMBASCIIStart` | Driver/FreeModbus/ascii/mbascii.c:130-140 | In place: the receiver alone is enabled, and at rest. |
| `Ascii.AsciiPort.eMBASCIIStop` | Driver/FreeModbus/ascii/mbascii.c:142-149 | In place: neither is enabled; an unfinished transmission keeps its state. |
| `Ascii.AsciiPort.xMBASCIIReceiveFSM` | Driver/FreeModbus/ascii/mbascii.c:220-327 | In place, one character of FrameArrives; with its interrupt enabled, the step of NeverBehindBuffer. |
| `Ascii.AsciiPort.eMBASCIIReceive` | Driver/FreeModbus/ascii/mbascii.c:150-181 | On the buffer, what ReceiveIff is about. |
| `Ascii.AsciiPort.eMBASCIISend` | Driver/FreeModbus/ascii/mbascii.c:183-218 | In place, the start of SendsFrame, with the receiver disabled. |
| `Ascii.AsciiPort.xMBASCIITransmitFSM` | Driver/FreeModbus/ascii/mbascii.c:329-407 | In place, one character of SendsFrame, and the receiver enabled again at its end; with its interrupt enabled, the step of NeverBehindBuffer. |
| `Ascii.AsciiPort.xMBASCIITimerT1SExpired` | Driver/FreeModbus/ascii/mbascii.c:409-431 | In place: an unfinished frame is dropped. |

"In-place form" in the table: the method changes the fields of its class, and its contract says that the whole new
state is that of the function which the named lemma is about, and what is returned.

## Left out

- The generic selection of tasks and queues outside queue sets are modelled, although the configuration turns on the
  port-optimised selection and queue sets. `ReadyBitmap` says when the two selections agree.
- KernelRun.RunRefines: runs have no step that deletes a task; `xTaskAbortDelay` is configured out. Of a task that waits for
  an event the kernel machine keeps that it does, not its place on the event list, because that order is part of the
  queue and mutex machines.
- KernelRun.StepRefines: no step that deletes a task, as for KernelRun.RunRefines.
- KernelRun.ReachableGood: no step that deletes a task, as for KernelRun.RunRefines.
- KernelRun.ReachableLists: no step that deletes a task, as for KernelRun.RunRefines.
- KernelPreempt.NeverOverlooked: no step that deletes a task, as for KernelRun.RunRefines.
- KernelPreempt.RunNoticedIff: no step that deletes a task, as for KernelRun.RunRefines.
- KernelPreempt.StepNoticedIff: no step that deletes a task, as for KernelRun.RunRefines.
- The kernel machine has no mutexes: its steps that inherit, lower and give are possible for any task, so that its
  theorems are about more runs than the source has. The run of `ReadyBitmapRun.SelectionFindsNone` names the mutex
  in words; its task takes the mutex while it runs.
- Scheduler.Scheduler.vTaskStartScheduler: the idle task and the timer task, which it creates, are among the tasks
  created before.
- Scheduler.Scheduler.vTaskSuspend: is about a running scheduler; before the start the source selects another first task.
- The retry loops around the critical sections of `xQueueGenericSend`, `xQueueReceive`, `xQueuePeek` and
  `xQueueSemaphoreTake`: the sections are methods, and runs choose their order; when the loop ends is not modelled.
- Queue messages are one cell each, not `uxItemSize` bytes. `xQueueGiveFromISR` and semaphores are the queue steps
  without a message.
- QueueRun.WaitersInOrder: assumes that the priorities of waiting tasks do not change, because a change of priority
  does not re-sort an event list.
- QueueRun.HighestIsWoken: with the same assumption as QueueRun.WaitersInOrder.
- KernelSlices.EqualSlices: for ticks between which the running task neither blocks nor changes anything.
- MutexModel.NeverInverted: a task blocks on a mutex only while it holds none; `MutexRuns.NeverOutranked` is about all
  other runs too.
- MutexRuns.NeverOutranked: a task that a give has woken first tries to take that mutex again, as the loop of
  `xQueueSemaphoreTake` does; `vTaskPrioritySet`, `vTaskSuspend` and `vTaskDelete` are not among the steps, because they
  change a waiting or a holding task without looking at the mutex. Recursive mutexes only count takes by the holder.
- MutexModel.RunKeeps: with the same steps as MutexModel.NeverInverted, and only takes as its condition says.
- MutexModel.StepKeeps: with the same steps as MutexModel.NeverInverted; `MutexRuns.StepBooks` is about all others too.
- MutexModel.BlockKeeps: for a task that holds no mutex; `MutexChains.BlockInvertsIff` is about the others.
- TimerRun.NeverMissedNeverEarly: is about timers that are listed; `TimerLife.CallbacksExact` is about all others that have
  been started.
- Queues.Queue_t.TrySend: the critical section's decision to yield is not stated; which task is woken is, and
  `Scheduler.Scheduler.xTaskRemoveFromEventList` says when that asks for a yield.
- Queues.Queue_t.TryReceive: the decision to yield, as for Queues.Queue_t.TrySend.
- Queues.Queue_t.TryPeek: the decision to yield, as for Queues.Queue_t.TrySend.
- Queues.Queue_t.xQueueGenericSendFromISR: the woken flag for the caller, as for Queues.Queue_t.TrySend, and queue sets.
- Queues.Queue_t.xQueueReceiveFromISR: the woken flag for the caller, as for Queues.Queue_t.TrySend.
- Queues.Queue_t.prvCopyDataToQueue: for messages of one cell; the branch for item size 0 gives a mutex back, which
  `MutexModel` is about.
- Queues.Queue_t.constructor: a new queue only, with messages of one cell.
- Queues.Queue_t.PlaceOnEventList: the event list only; the move of the task to a delayed list is
  `Scheduler.Scheduler.prvAddCurrentTaskToDelayedList`.
- EventGroups.EventGroup_t.vTaskRemoveFromUnorderedEventList: the event item only; the move of the task to its ready list
  is the step RemoveUnorderedStep of `KernelRun`.
- TimerTask.TimerTask.prvProcessTimerOrBlockTask: does not block; the branch that waits for the next expiry or a command
  changes no timer.
- StreamBuffers.StreamBuffer_t.xStreamBufferSpacesAvailable: nothing interleaves with a method, so its loop runs once;
  `StreamSends.SampleExact` is about what the reader does meanwhile.
- StreamBuffers.StreamBuffer_t.xStreamBufferSendFromISR: the notification of a waiting reader, as all blocking on stream buffers.
- StreamBuffers.StreamBuffer_t.xStreamBufferReceiveFromISR: the notification of a waiting writer likewise.
- `xQueueGenericReset` of a queue in use, which wakes at most one sender however many places it frees.
- `vTaskDelete` and the idle task's clean-up, task notifications, tickless idle,
  `xTaskCatchUpTicks`, hooks, statistics, thread-local storage, stack checks.
- The two delayed lists are named by their role, and `pxContainer` with them, so the exchange of pointers is an exchange of
  contents and of roles; `Scheduler`'s lists are sequences, which `Lists` shows the heap lists to be.
- Blocking and trigger levels of stream buffers, and the wrap of `size_t` in their sums: lengths stay below it. Resetting them.
- Deleting event groups, and setting bits from interrupts through the timer task.
- Timer callbacks are counted, not run; deleting timers, and function calls pended to the timer task; the timer's command queue,
  which is that of `Queues`.
- Allocator.MemoryBank.my_mem_free: not for an offset from which the loop overruns the map, because what it then writes to
  is not part of the map; `AllocatorModel.InteriorFreeOverruns` says which these are.
- `myrealloc`; the pointer forms `my_malloc` and `my_free`.
- Of the serial driver the ASCII port takes that an interrupt that is not enabled calls no handler. The overrun
  interrupt, which `USART2_IRQHandler` also looks at (`Driver/FreeModbus/port/portserial.c:125`), is never enabled.
- Serial port and timer calls of the Modbus port are bytes and events given to the model; Modbus function handlers, the
  polling loop and Modbus TCP.
- Peripherals, board support and the network stack.
