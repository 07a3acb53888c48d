/** The scheduler of tasks.c as the program has it, step by step, proved to do what KernelModel's steps say. */
module Scheduler {
  import opened Ticks
  import opened ListSpec
  import opened DelayModel
  import opened StateLists
  import opened KernelModel
  import opened KernelTick
  import opened KernelSteps
  import opened KernelResume
  import opened KernelReady
  import M = MutexModel

  // ----- what the loop of the tick reports -------------------------------------------------------

  // Whether one of the tasks that the loop releases outranks the running task.
  predicate DrainsAbove(s: Kernel)
    decreases |s.lists.delayed|
  {
    if s.lists.delayed == [] || s.tick < ValueOf(s.value, s.lists.delayed[0]) then false
    else
      var s' := MakeReady(s, s.lists.delayed[0]);
      Above(s, s.lists.delayed[0]) || (|s'.lists.delayed| < |s.lists.delayed| && DrainsAbove(s'))
  }

  lemma ReleaseAboveStep(s: Kernel, t: Task, s': Kernel)
    requires t in s.prio && Due(s, t) && s'.prio == s.prio && s'.current == s.current
    requires s'.value == s.value && s'.tick == s.tick && s'.lists.at == s.lists.at[t := Ready(s.prio[t])]
    ensures ReleasesAbove(s) <==> Above(s, t) || ReleasesAbove(s')
  {
    assert forall x :: x in s.prio ==> (Due(s', x) <==> Due(s, x) && x != t);
    assert forall x :: Above(s', x) <==> Above(s, x);
    if ReleasesAbove(s) {
      var x :| x in s.prio && Due(s, x) && Above(s, x);
      assert x != t ==> Due(s', x) && Above(s', x);
    }
  }

  lemma {:induction false} DrainsAboveIff(s: Kernel)
    requires Structure(s)
    ensures DrainsAbove(s) <==> ReleasesAbove(s)
    decreases |s.lists.delayed|
  {
    hide Structure, MakeReady, ReleasesAbove, Above;
    HeadKnown(s);
    if s.lists.delayed == [] || s.tick < s.value[s.lists.delayed[0]] {
      NothingDue(s);
      assert !ReleasesAbove(s) by { NoneReleased(s); }
    } else {
      var t := s.lists.delayed[0];
      HeadDue(s);
      MakeReadyStructure(s, t);
      MakeReadyMoves(s, t);
      MakeReadyLeaves(s, t);
      ReleaseAboveStep(s, t, MakeReady(s, t));
      DrainsAboveIff(MakeReady(s, t));
    }
  }

  lemma NoneReleased(s: Kernel)
    requires forall t :: t in s.prio ==> !Due(s, t)
    ensures !ReleasesAbove(s)
  {
  }

  // ----- the scheduler ---------------------------------------------------------------------------

  class Scheduler {
    var xTickCount: nat
    var xPendedTicks: nat
    var xNumOfOverflows: nat
    var xNextTaskUnblockTime: nat
    var uxSchedulerSuspended: nat
    var xYieldPending: bool
    var xSchedulerRunning: bool
    var pxDelayedTaskList: seq<Task>
    var pxOverflowDelayedTaskList: seq<Task>
    var xSuspendedTaskList: seq<Task>
    var pxReadyTasksLists: seq<Ring<Task>>
    var uxTopReadyPriority: nat
    var xPendingReadyList: seq<Task>
    var pxCurrentTCB: Task
    // The fields of the task control blocks: xStateListItem (value and container), the container of
    // xEventListItem, uxPriority and uxBasePriority.
    var xItemValue: map<Task, nat>
    var pxContainer: map<Task, Place>
    var pxEventContainer: map<Task, EventPlace>
    var uxPriority: map<Task, nat>
    var uxBasePriority: map<Task, nat>
    // Also of the task control blocks: uxMutexesHeld and the value of xEventListItem.
    var uxMutexesHeld: map<Task, nat>
    var xEventItemValue: map<Task, nat>
    // How often xTickCount has wrapped.
    ghost var epoch: nat

    ghost function TaskLists(): StateLists
      reads this
    {
      StateLists(pxDelayedTaskList, pxOverflowDelayedTaskList, xSuspendedTaskList, pxReadyTasksLists,
                 uxTopReadyPriority, pxContainer)
    }

    ghost function State(): Kernel
      reads this
    {
      Kernel(xTickCount, xPendedTicks, xNumOfOverflows, xNextTaskUnblockTime, uxSchedulerSuspended, xYieldPending,
             TaskLists(), xPendingReadyList, pxCurrentTCB, xItemValue, pxEventContainer, uxPriority,
             uxBasePriority, epoch)
    }

    // What MutexModel is about.
    ghost function Priorities(): M.Priorities
      reads this
    {
      M.Priorities(uxBasePriority, uxPriority, uxMutexesHeld, xEventItemValue)
    }

    // The creation of the first task, and with it of the lists.
    constructor (t: Task, priority: nat)
      ensures State() == FirstTask(t, Clamp(priority)) && Valid(State()) && !xSchedulerRunning
    {
      xTickCount, xPendedTicks, xNumOfOverflows, xNextTaskUnblockTime := 0, 0, 0, 0;
      uxSchedulerSuspended, xYieldPending, xSchedulerRunning := 0, false, false;
      pxDelayedTaskList, pxOverflowDelayedTaskList, xSuspendedTaskList := [], [], [];
      var p := Clamp(priority);
      pxReadyTasksLists := InsertReady(NoneReady(), p, t);
      uxTopReadyPriority, xPendingReadyList, pxCurrentTCB := p, [], t;
      xItemValue, pxContainer, pxEventContainer := map[t := 0], map[t := Nowhere][t := Ready(p)], map[t := NoEvent];
      uxPriority, uxBasePriority, epoch := map[t := p], map[t := p], 0;
      uxMutexesHeld, xEventItemValue := map[t := 0], map[t := M.ItemValue(p)];
      new;
      hide Valid, InsertReady, NoneReady, M.ItemValue;
      FirstTaskValid(t, p);
    }

    // vTaskStartScheduler, once the idle task has been created.
    method vTaskStartScheduler()
      modifies `xNextTaskUnblockTime, `xSchedulerRunning, `xTickCount
      ensures State() == StartScheduler(old(State())) && xSchedulerRunning
    {
      xNextTaskUnblockTime := MAX_DELAY;
      xSchedulerRunning := true;
      xTickCount := 0;
    }

    // ----- lists ---------------------------------------------------------------------------------

    // The list that the container names, without the item.
    method LeaveList(t: Task)
      requires t in pxContainer
      modifies `pxDelayedTaskList, `pxOverflowDelayedTaskList, `xSuspendedTaskList, `pxReadyTasksLists
      ensures TaskLists().(at := pxContainer[t := Nowhere]) == RemoveItem(old(TaskLists()), t)
    {
      match pxContainer[t] {
        case Ready(p) => pxReadyTasksLists := RemoveReady(pxReadyTasksLists, p, t);
        case Delayed => pxDelayedTaskList := Without(pxDelayedTaskList, t);
        case Overflow => pxOverflowDelayedTaskList := Without(pxOverflowDelayedTaskList, t);
        case Suspended => xSuspendedTaskList := Without(xSuspendedTaskList, t);
        case Nowhere => assert pxContainer[t := Nowhere] == pxContainer;
      }
    }

    // uxListRemove of the state item.
    method RemoveStateItem(t: Task)
      modifies `pxDelayedTaskList, `pxOverflowDelayedTaskList, `xSuspendedTaskList, `pxReadyTasksLists, `pxContainer
      ensures State() == old(State()).(lists := RemoveItem(old(TaskLists()), t))
      ensures TaskLists() == RemoveItem(old(TaskLists()), t)
    {
      if t in pxContainer {
        LeaveList(t);
        pxContainer := pxContainer[t := Nowhere];
      }
    }

    // uxListRemove of the event item, if it is on a list.
    method RemoveEventItem(t: Task)
      requires t in pxEventContainer
      modifies `xPendingReadyList, `pxEventContainer
      ensures State() == old(State()).(pending := LeavePending(old(xPendingReadyList), old(pxEventContainer), t),
                                       event := old(pxEventContainer)[t := NoEvent])
    {
      if pxEventContainer[t] != NoEvent {
        if pxEventContainer[t] == PendingReady {
          xPendingReadyList := Without(xPendingReadyList, t);
        }
        pxEventContainer := pxEventContainer[t := NoEvent];
      } else {
        assert pxEventContainer[t := NoEvent] == pxEventContainer;
      }
    }

    method prvAddTaskToReadyList(t: Task)
      requires t in uxPriority
      modifies `pxReadyTasksLists, `uxTopReadyPriority, `pxContainer
      ensures State() == old(State()).(lists := AddReady(old(TaskLists()), t, uxPriority[t]))
      ensures TaskLists() == AddReady(old(TaskLists()), t, uxPriority[t])
    {
      if uxPriority[t] > uxTopReadyPriority {
        uxTopReadyPriority := uxPriority[t];
      }
      pxReadyTasksLists := InsertReady(pxReadyTasksLists, uxPriority[t], t);
      pxContainer := pxContainer[t := Ready(uxPriority[t])];
    }

    // The state item leaves its list, the event item its own, and the task becomes ready.
    method MakeTaskReady(t: Task)
      requires t in uxPriority && t in pxEventContainer
      modifies `pxDelayedTaskList, `pxOverflowDelayedTaskList, `xSuspendedTaskList, `pxReadyTasksLists
      modifies `pxContainer, `uxTopReadyPriority, `xPendingReadyList, `pxEventContainer
      ensures State() == MakeReady(old(State()), t)
    {
      hide RemoveItem, AddReady, LeavePending;
      RemoveStateItem(t);
      RemoveEventItem(t);
      prvAddTaskToReadyList(t);
    }

    method prvResetNextTaskUnblockTime()
      requires pxDelayedTaskList != [] ==> pxDelayedTaskList[0] in xItemValue
      modifies `xNextTaskUnblockTime
      ensures State() == ResetNextTaskUnblockTime(old(State()))
    {
      if pxDelayedTaskList == [] {
        xNextTaskUnblockTime := MAX_DELAY;
      } else {
        xNextTaskUnblockTime := xItemValue[pxDelayedTaskList[0]];
      }
    }

    // ----- the tick ------------------------------------------------------------------------------

    // The two list pointers are exchanged; a container is named by the role of its list.
    method SwapListPointers()
      modifies `pxDelayedTaskList, `pxOverflowDelayedTaskList, `pxContainer
      ensures TaskLists() == SwapDelayed(old(TaskLists())) && pxDelayedTaskList == old(pxOverflowDelayedTaskList)
    {
      var pxTemp := pxDelayedTaskList;
      pxDelayedTaskList := pxOverflowDelayedTaskList;
      pxOverflowDelayedTaskList := pxTemp;
      pxContainer := SwapRoles(pxContainer);
    }

    method CountOverflow()
      modifies `xNumOfOverflows, `epoch
      ensures State() == old(State()).(overflows := TickAdd(old(xNumOfOverflows), 1), epoch := old(epoch) + 1)
    {
      xNumOfOverflows := TickAdd(xNumOfOverflows, 1);
      epoch := epoch + 1;
    }

    method taskSWITCH_DELAYED_LISTS()
      requires pxOverflowDelayedTaskList != [] ==> pxOverflowDelayedTaskList[0] in xItemValue
      modifies `pxDelayedTaskList, `pxOverflowDelayedTaskList, `pxContainer, `xNumOfOverflows
      modifies `xNextTaskUnblockTime, `epoch
      ensures State() == SwitchDelayedLists(old(State()))
    {
      hide SwapDelayed, TickAdd;
      SwapListPointers();
      CountOverflow();
      prvResetNextTaskUnblockTime();
    }

    // The head of the delayed list, whose time has come, is released.
    method ReleaseDelayedHead() returns (above: bool)
      requires Structure(State()) && pxDelayedTaskList != []
      requires pxDelayedTaskList[0] in xItemValue && xItemValue[pxDelayedTaskList[0]] <= xTickCount
      modifies `pxDelayedTaskList, `pxOverflowDelayedTaskList, `xSuspendedTaskList, `pxReadyTasksLists
      modifies `pxContainer, `uxTopReadyPriority, `xPendingReadyList, `pxEventContainer
      ensures Structure(State()) && |pxDelayedTaskList| == |old(pxDelayedTaskList)| - 1
      ensures Drain(State()) == Drain(old(State()))
      ensures DrainsAbove(old(State())) == (above || DrainsAbove(State()))
    {
      hide Structure, MakeReady, Above;
      HeadDue(State());
      var pxTCB := pxDelayedTaskList[0];
      MakeReadyStructure(State(), pxTCB);
      KnownTask(State(), pxTCB);
      above := ValueOf(uxPriority, pxTCB) > ValueOf(uxPriority, pxCurrentTCB);
      assert above == Above(State(), pxTCB) by { AboveIs(State(), pxTCB); }
      MakeTaskReady(pxTCB);
    }

    // The loop of xTaskIncrementTick.
    method ReleaseDelayedTasks() returns (xSwitchRequired: bool)
      requires Structure(State())
      modifies `pxDelayedTaskList, `pxOverflowDelayedTaskList, `xSuspendedTaskList, `pxReadyTasksLists
      modifies `pxContainer, `uxTopReadyPriority, `xPendingReadyList, `pxEventContainer, `xNextTaskUnblockTime
      ensures State() == Drain(old(State())) && xSwitchRequired == DrainsAbove(old(State()))
    {
      hide Structure;
      xSwitchRequired := false;
      while true
        invariant Structure(State()) && Drain(State()) == Drain(old(State()))
        invariant DrainsAbove(old(State())) == (xSwitchRequired || DrainsAbove(State()))
        decreases |pxDelayedTaskList|
      {
        HeadKnown(State());
        if pxDelayedTaskList == [] {
          xNextTaskUnblockTime := MAX_DELAY;
          break;
        }
        var xItemValue := xItemValue[pxDelayedTaskList[0]];
        if xTickCount < xItemValue {
          xNextTaskUnblockTime := xItemValue;
          break;
        }
        var above := ReleaseDelayedHead();
        if above {
          xSwitchRequired := true;
        }
      }
    }

    method CountTick()
      requires pxOverflowDelayedTaskList != [] ==> pxOverflowDelayedTaskList[0] in xItemValue
      modifies `xTickCount, `pxDelayedTaskList, `pxOverflowDelayedTaskList, `pxContainer, `xNumOfOverflows
      modifies `xNextTaskUnblockTime, `epoch
      ensures State() == Counted(old(State()))
    {
      hide SwitchDelayedLists;
      xTickCount := TickAdd(xTickCount, 1);
      if xTickCount == 0 {
        taskSWITCH_DELAYED_LISTS();
      }
    }

    method xTaskIncrementTick() returns (xSwitchRequired: bool)
      requires Consistent(State())
      modifies this
      ensures State() == TickInterrupt(old(State()))
      ensures xSwitchRequired == (old(uxSchedulerSuspended) == 0 && SwitchRequired(old(State())))
    {
      xSwitchRequired := false;
      if uxSchedulerSuspended == 0 {
        xSwitchRequired := ProcessTick();
        var p := ValueOf(uxPriority, pxCurrentTCB);
        if p < |pxReadyTasksLists| && |pxReadyTasksLists[p].items| > 1 {
          xSwitchRequired := true;
        }
        if xYieldPending {
          xSwitchRequired := true;
        }
      } else {
        xPendedTicks := TickAdd(xPendedTicks, 1);
      }
    }

    method ProcessTick() returns (xSwitchRequired: bool)
      requires Consistent(State())
      modifies this
      ensures State() == IncrementTick(old(State()))
      ensures xSwitchRequired == ReleasesAbove(Counted(old(State()))) && xYieldPending == old(xYieldPending)
    {
      hide Consistent, Structure, Counted, Drain, ReleasesAbove, DrainsAbove;
      CountedStructure(State());
      OverflowHeadKnown(State());
      CountTick();
      DrainsAboveIff(State());
      xSwitchRequired := false;
      if xTickCount >= xNextTaskUnblockTime {
        xSwitchRequired := ReleaseDelayedTasks();
      } else {
        NothingReleased(State());
      }
    }

    // ----- suspending and resuming the scheduler ---------------------------------------------------

    method vTaskSuspendAll()
      modifies `uxSchedulerSuspended
      ensures State() == KernelResume.SuspendAll(old(State()))
    {
      uxSchedulerSuspended := uxSchedulerSuspended + 1;
    }

    method ReleasePendingHead()
      requires Consistent(State()) && xPendingReadyList != []
      modifies `pxDelayedTaskList, `pxOverflowDelayedTaskList, `xSuspendedTaskList, `pxReadyTasksLists
      modifies `pxContainer, `uxTopReadyPriority, `xPendingReadyList, `pxEventContainer, `xYieldPending
      ensures State() == ReleaseHead(old(State()))
    {
      hide Consistent, Structure, MakeReady;
      ConsistentStructure(State());
      PendedHead(State());
      var pxTCB := xPendingReadyList[0];
      MakeTaskReady(pxTCB);
      if ValueOf(uxPriority, pxTCB) >= ValueOf(uxPriority, pxCurrentTCB) {
        xYieldPending := true;
      }
    }

    method ReleasePendingTasks()
      requires Consistent(State())
      modifies `pxDelayedTaskList, `pxOverflowDelayedTaskList, `xSuspendedTaskList, `pxReadyTasksLists
      modifies `pxContainer, `uxTopReadyPriority, `xPendingReadyList, `pxEventContainer, `xYieldPending
      modifies `xNextTaskUnblockTime
      ensures State() == PendingReleased(old(State()))
    {
      hide Consistent, Structure, ReleaseHead;
      var any := false;
      ReleaseAllReleases(State());
      while xPendingReadyList != []
        invariant Consistent(State()) && ReleaseAll(State()) == ReleaseAll(old(State()))
        invariant any == (xPendingReadyList != old(xPendingReadyList))
        invariant !any ==> State() == old(State())
        invariant any ==> |xPendingReadyList| < |old(xPendingReadyList)|
        decreases |xPendingReadyList|
      {
        ReleaseHeadStep(State());
        ReleasePendingHead();
        any := true;
      }
      if any {
        OverflowHeadKnown(State());
        prvResetNextTaskUnblockTime();
      }
    }

    method xTaskResumeAll() returns (xAlreadyYielded: bool)
      requires Valid(State()) && uxSchedulerSuspended > 0
      modifies this
      ensures State() == KernelResume.ResumeAll(old(State()))
      ensures xAlreadyYielded == (old(uxSchedulerSuspended) == 1 && xYieldPending)
    {
      hide Consistent, PendingReleased, ReplayTick;
      xAlreadyYielded := false;
      NestKeeps(State(), uxSchedulerSuspended - 1, xPendedTicks);
      uxSchedulerSuspended := uxSchedulerSuspended - 1;
      if uxSchedulerSuspended == 0 {
        ReleasedRefines(State());
        ReleasePendingTasks();
        ReplayPendedTicks();
        xPendedTicks := 0;
        if xYieldPending {
          xAlreadyYielded := true;
        }
      }
    }

    // The loop that makes up for the ticks.
    method ReplayPendedTicks()
      requires Consistent(State()) && uxSchedulerSuspended == 0
      modifies this
      ensures State() == ReplayTicks(old(State()), old(xPendedTicks))
    {
      hide Consistent, ReplayTick, SwitchRequired;
      var xPendedCounts := xPendedTicks;
      while xPendedCounts > 0
        invariant Consistent(State()) && uxSchedulerSuspended == 0
        invariant ReplayTicks(State(), xPendedCounts) == ReplayTicks(old(State()), old(xPendedTicks))
      {
        ReplayTickConsistent(State());
        ReplayTickIs(State());
        var xSwitchRequired := xTaskIncrementTick();
        if xSwitchRequired {
          xYieldPending := true;
        }
        xPendedCounts := xPendedCounts - 1;
      }
    }

    // ----- blocking, waking, suspending and resuming tasks -----------------------------------------

    // vListInsert into the delayed lists, vListInsertEnd into the suspended list.
    method InsertBlocked(t: Task, p: Place)
      requires Blocking(p)
      modifies `pxDelayedTaskList, `pxOverflowDelayedTaskList, `xSuspendedTaskList, `pxContainer
      ensures State() == old(State()).(lists := AddBlocked(old(TaskLists()), t, p, xItemValue))
      ensures TaskLists() == AddBlocked(old(TaskLists()), t, p, xItemValue)
    {
      if p.Delayed? {
        pxDelayedTaskList := InsertByValue(pxDelayedTaskList, xItemValue, t);
      } else if p.Overflow? {
        pxOverflowDelayedTaskList := InsertByValue(pxOverflowDelayedTaskList, xItemValue, t);
      } else {
        xSuspendedTaskList := xSuspendedTaskList + [t];
      }
      pxContainer := pxContainer[t := p];
    }

    // place is where the caller has put the event item.
    method prvAddCurrentTaskToDelayedList(xTicksToWait: nat, xCanBlockIndefinitely: bool, place: EventPlace)
      requires pxCurrentTCB in xItemValue
      modifies `pxDelayedTaskList, `pxOverflowDelayedTaskList, `xSuspendedTaskList, `pxReadyTasksLists
      modifies `pxContainer, `xItemValue, `pxEventContainer, `xNextTaskUnblockTime
      ensures State() == AddCurrentTaskToDelayedList(old(State()), xTicksToWait, xCanBlockIndefinitely, place)
    {
      hide RemoveItem, AddBlocked;
      pxEventContainer := pxEventContainer[pxCurrentTCB := place];
      RemoveStateItem(pxCurrentTCB);
      if xTicksToWait == MAX_DELAY && xCanBlockIndefinitely {
        assert xItemValue[pxCurrentTCB := ValueOf(xItemValue, pxCurrentTCB)] == xItemValue;
        InsertBlocked(pxCurrentTCB, Suspended);
      } else {
        InsertDelayed(TickAdd(xTickCount, xTicksToWait));
      }
    }

    method InsertDelayed(xTimeToWake: nat)
      requires pxCurrentTCB in xItemValue
      modifies `pxDelayedTaskList, `pxOverflowDelayedTaskList, `xSuspendedTaskList
      modifies `pxContainer, `xItemValue, `xNextTaskUnblockTime
      ensures var s, p := old(State()), if xTimeToWake < xTickCount then Overflow else Delayed;
              var value := s.value[s.current := xTimeToWake];
              State() == s.(lists := AddBlocked(s.lists, s.current, p, value), value := value,
                            next := if p == Delayed && xTimeToWake < s.next then xTimeToWake else s.next)
    {
      hide AddBlocked;
      xItemValue := xItemValue[pxCurrentTCB := xTimeToWake];
      if xTimeToWake < xTickCount {
        InsertBlocked(pxCurrentTCB, Overflow);
      } else {
        InsertBlocked(pxCurrentTCB, Delayed);
        if xTimeToWake < xNextTaskUnblockTime {
          xNextTaskUnblockTime := xTimeToWake;
        }
      }
    }

    // t is the task at the head of the event list.
    method xTaskRemoveFromEventList(t: Task) returns (xReturn: bool)
      requires t in uxPriority && t in pxEventContainer && pxEventContainer[t] == OnObject
      modifies this
      ensures State() == RemoveFromEventList(old(State()), t)
      ensures xReturn == (ValueOf(uxPriority, t) > ValueOf(uxPriority, pxCurrentTCB))
    {
      hide MakeReady;
      if uxSchedulerSuspended == 0 {
        MakeTaskReady(t);
      } else {
        xPendingReadyList := xPendingReadyList + [t];
        pxEventContainer := pxEventContainer[t := PendingReady];
      }
      xReturn := false;
      if ValueOf(uxPriority, t) > ValueOf(uxPriority, pxCurrentTCB) {
        xReturn := true;
        xYieldPending := true;
      }
    }

    // Once the scheduler runs. A task that suspends itself yields.
    method vTaskSuspend(t: Task) returns (xYield: bool)
      requires Structure(State()) && t in uxPriority && xSchedulerRunning
      modifies this
      ensures State() == KernelSteps.SuspendTask(old(State()), t) && xYield == (t == pxCurrentTCB)
    {
      hide Structure, RemoveItem, AddBlocked, LeavePending;
      KnownTask(State(), t);
      SuspendedHeadKnown(State(), t);
      RemoveStateItem(t);
      RemoveEventItem(t);
      InsertBlocked(t, Suspended);
      prvResetNextTaskUnblockTime();
      xYield := t == pxCurrentTCB;
    }

    method prvTaskIsTaskSuspended(t: Task) returns (xReturn: bool)
      ensures xReturn == IsTaskSuspended(State(), t)
    {
      xReturn := false;
      if t in pxContainer && pxContainer[t] == Suspended {
        if t in pxEventContainer && pxEventContainer[t] != PendingReady {
          if pxEventContainer[t] == NoEvent {
            xReturn := true;
          }
        }
      }
    }

    method vTaskResume(t: Task) returns (xYield: bool)
      requires t in uxPriority
      modifies this
      ensures State() == KernelSteps.ResumeTask(old(State()), t)
      ensures xYield == (t != old(pxCurrentTCB) && IsTaskSuspended(old(State()), t) && NotBelow(old(State()), t))
    {
      hide MakeReady;
      xYield := false;
      if t != pxCurrentTCB {
        var suspended := prvTaskIsTaskSuspended(t);
        if suspended {
          MakeTaskReady(t);
          if ValueOf(uxPriority, t) >= ValueOf(uxPriority, pxCurrentTCB) {
            xYield := true;
          }
        }
      }
    }

    method xTaskResumeFromISR(t: Task) returns (xYieldRequired: bool)
      requires t in uxPriority
      modifies this
      ensures State() == KernelSteps.ResumeTaskFromISR(old(State()), t)
      ensures xYieldRequired == (IsTaskSuspended(old(State()), t) && old(uxSchedulerSuspended) == 0
                                 && NotBelow(old(State()), t))
    {
      hide AddReady, RemoveItem, LeavePending;
      xYieldRequired := false;
      var suspended := prvTaskIsTaskSuspended(t);
      if suspended {
        if uxSchedulerSuspended == 0 {
          if ValueOf(uxPriority, t) >= ValueOf(uxPriority, pxCurrentTCB) {
            xYieldRequired, xYieldPending := true, true;
          }
          MakeTaskReady(t);
        } else {
          xPendingReadyList := xPendingReadyList + [t];
          pxEventContainer := pxEventContainer[t := PendingReady];
        }
      }
    }

    // What prvInitialiseNewTask writes into a new control block: its priorities and its two list items.
    method prvInitialiseNewTask(t: Task, p: nat)
      modifies `uxPriority, `uxBasePriority, `uxMutexesHeld, `xItemValue, `pxEventContainer, `xEventItemValue
      modifies `pxContainer
      ensures State() == NewTask(old(State()), t, p) && TaskLists() == State().lists
      ensures uxPriority == old(uxPriority)[t := p]
      ensures uxMutexesHeld == old(uxMutexesHeld)[t := 0]
      ensures xEventItemValue == old(xEventItemValue)[t := M.ItemValue(p)]
    {
      InitialisePriorities(t, p);
      InitialiseStateItem(t);
      InitialiseEventItem(t, p);
    }

    method InitialisePriorities(t: Task, p: nat)
      modifies `uxPriority, `uxBasePriority, `uxMutexesHeld
      ensures State() == old(State()).(prio := old(uxPriority)[t := p], base := old(uxBasePriority)[t := p])
      ensures uxPriority == old(uxPriority)[t := p] && uxMutexesHeld == old(uxMutexesHeld)[t := 0]
    {
      uxPriority, uxBasePriority, uxMutexesHeld := uxPriority[t := p], uxBasePriority[t := p], uxMutexesHeld[t := 0];
    }

    method InitialiseStateItem(t: Task)
      modifies `xItemValue, `pxContainer
      ensures State() == old(State()).(lists := old(TaskLists()).(at := old(pxContainer)[t := Nowhere]),
                                       value := old(xItemValue)[t := 0])
    {
      xItemValue, pxContainer := xItemValue[t := 0], pxContainer[t := Nowhere];
    }

    method InitialiseEventItem(t: Task, p: nat)
      modifies `pxEventContainer, `xEventItemValue
      ensures State() == old(State()).(event := old(pxEventContainer)[t := NoEvent])
      ensures xEventItemValue == old(xEventItemValue)[t := M.ItemValue(p)]
    {
      pxEventContainer, xEventItemValue := pxEventContainer[t := NoEvent], xEventItemValue[t := M.ItemValue(p)];
    }

    // prvInitialiseNewTask and prvAddNewTaskToReadyList, when other tasks exist.
    method prvAddNewTaskToReadyList(t: Task, priority: nat) returns (xYield: bool)
      requires t !in uxPriority
      modifies this
      ensures State() == if xSchedulerRunning then AddNewTask(old(State()), t, Clamp(priority))
                         else AddEarlyTask(old(State()), t, Clamp(priority))
      ensures xSchedulerRunning == old(xSchedulerRunning)
      ensures xYield == (xSchedulerRunning && ValueOf(old(uxPriority), pxCurrentTCB) < Clamp(priority))
    {
      assert State().prio == uxPriority && State().current == pxCurrentTCB;
      hide AddReady, State, TaskLists, Clamp;
      var p := Clamp(priority);
      var uxCurrent := ValueOf(uxPriority, pxCurrentTCB);
      prvInitialiseNewTask(t, p);
      SetCurrentIfEarly(t, uxCurrent, p);
      prvAddTaskToReadyList(t);
      xYield := xSchedulerRunning && uxCurrent < p;
    }

    method SetCurrentIfEarly(t: Task, uxCurrent: nat, p: nat)
      modifies `pxCurrentTCB
      ensures pxCurrentTCB == if !xSchedulerRunning && uxCurrent <= p then t else old(pxCurrentTCB)
      ensures State() == old(State()).(current := pxCurrentTCB) && TaskLists() == old(TaskLists())
    {
      if !xSchedulerRunning {
        if uxCurrent <= p {
          pxCurrentTCB := t;
        }
      }
    }

    // ----- selection and priorities ----------------------------------------------------------------

    // The loop of taskSELECT_HIGHEST_PRIORITY_TASK: it ends because some list is not empty.
    method HighestReadyPriority() returns (uxTopPriority: nat)
      requires uxTopReadyPriority < |pxReadyTasksLists|
      requires pxReadyTasksLists[TopPriority(pxReadyTasksLists, uxTopReadyPriority)].items != []
      ensures uxTopPriority == TopPriority(pxReadyTasksLists, uxTopReadyPriority)
    {
      uxTopPriority := uxTopReadyPriority;
      while pxReadyTasksLists[uxTopPriority].items == []
        invariant uxTopPriority < |pxReadyTasksLists|
        invariant TopPriority(pxReadyTasksLists, uxTopPriority) == TopPriority(pxReadyTasksLists, uxTopReadyPriority)
        decreases uxTopPriority
      {
        uxTopPriority := uxTopPriority - 1;
      }
    }

    method taskSELECT_HIGHEST_PRIORITY_TASK()
      requires Placed(TaskLists()) && SomeReady(State())
      modifies `pxCurrentTCB, `pxReadyTasksLists, `uxTopReadyPriority
      ensures State() == Select(old(State()))
    {
      TopIsReady(TaskLists());
      RingBounds(TaskLists());
      hide Placed, SomeReady;
      var uxTopPriority := HighestReadyPriority();
      pxReadyTasksLists := pxReadyTasksLists[uxTopPriority := Advance(pxReadyTasksLists[uxTopPriority])];
      pxCurrentTCB := Pointed(pxReadyTasksLists[uxTopPriority]);
      uxTopReadyPriority := uxTopPriority;
    }

    method vTaskSwitchContext()
      requires Placed(TaskLists()) && SomeReady(State())
      modifies `xYieldPending, `pxCurrentTCB, `pxReadyTasksLists, `uxTopReadyPriority
      ensures State() == SwitchContext(old(State()))
    {
      hide Placed, Select;
      if uxSchedulerSuspended != 0 {
        xYieldPending := true;
      } else {
        xYieldPending := false;
        taskSELECT_HIGHEST_PRIORITY_TASK();
      }
    }

    // The ready list that holds the task is changed with its priority.
    method MoveToPriority(t: Task, p: nat)
      modifies `uxPriority, `pxReadyTasksLists, `uxTopReadyPriority, `pxContainer
      modifies `pxDelayedTaskList, `pxOverflowDelayedTaskList, `xSuspendedTaskList
      ensures State() == SetPriority(old(State()), t, p) && uxPriority == old(uxPriority)[t := p]
    {
      hide RemoveItem, AddReady;
      var uxPriorityUsedOnEntry := ValueOf(uxPriority, t);
      uxPriority := uxPriority[t := p];
      if t in pxContainer && pxContainer[t] == Ready(uxPriorityUsedOnEntry) {
        hide State, TaskLists;
        RemoveStateItem(t);
        prvAddTaskToReadyList(t);
      }
    }

    // The first part of vTaskPrioritySet: does the change call for a context switch?
    method PriorityYield(t: Task, uxNewPriority: nat) returns (xYieldRequired: bool)
      requires uxNewPriority < configMAX_PRIORITIES
      ensures xYieldRequired == PriorityYields(State(), t, uxNewPriority)
    {
      xYieldRequired := false;
      if uxNewPriority > ValueOf(uxBasePriority, t) {
        if t != pxCurrentTCB {
          if uxNewPriority >= ValueOf(uxPriority, pxCurrentTCB) {
            xYieldRequired := true;
          }
        }
      } else if t == pxCurrentTCB && uxNewPriority != ValueOf(uxBasePriority, t) {
        xYieldRequired := true;
      }
    }

    method vTaskPrioritySet(t: Task, level: nat) returns (xYieldRequired: bool)
      requires t in uxPriority
      modifies this
      ensures State() == PrioritySet(old(State()), t, level)
      ensures xYieldRequired == PriorityYields(old(State()), t, level)
    {
      hide SetPriority;
      var uxNewPriority := if level >= configMAX_PRIORITIES then configMAX_PRIORITIES - 1 else level;
      xYieldRequired := PriorityYield(t, uxNewPriority);
      if ValueOf(uxBasePriority, t) != uxNewPriority {
        SetEventItemValue(t, uxNewPriority);
        if ValueOf(uxBasePriority, t) == uxPriority[t] {
          MoveToPriority(t, uxNewPriority);
        } else {
          MoveToPriority(t, uxPriority[t]);
        }
        uxBasePriority := uxBasePriority[t := uxNewPriority];
      }
    }

    // ----- priority inheritance --------------------------------------------------------------------

    method SetEventItemValue(t: Task, p: nat)
      modifies `xEventItemValue
      ensures xEventItemValue == if ValueOf(old(xEventItemValue), t) >= M.IN_USE then old(xEventItemValue)
                                 else old(xEventItemValue)[t := M.ItemValue(p)]
    {
      if ValueOf(xEventItemValue, t) < M.IN_USE {
        xEventItemValue := xEventItemValue[t := M.ItemValue(p)];
      }
    }

    method xTaskPriorityInherit(pxMutexHolder: M.Holder) returns (xReturn: bool)
      modifies this
      ensures Priorities() == M.Inherit(old(Priorities()), pxMutexHolder, pxCurrentTCB)
      ensures xReturn == M.Inherited(old(Priorities()), pxMutexHolder, pxCurrentTCB)
      ensures State() == if pxMutexHolder.HeldBy? then InheritPriority(old(State()), pxMutexHolder.t) else old(State())
    {
      hide SetPriority;
      xReturn := false;
      if pxMutexHolder.HeldBy? {
        var t, p := pxMutexHolder.t, ValueOf(uxPriority, pxCurrentTCB);
        if ValueOf(uxPriority, t) < p {
          SetEventItemValue(t, p);
          MoveToPriority(t, p);
          xReturn := true;
        } else if ValueOf(uxBasePriority, t) < p {
          xReturn := true;
        }
      }
    }

    method ReturnToBase(t: Task)
      modifies `uxPriority, `pxReadyTasksLists, `uxTopReadyPriority, `pxContainer, `xEventItemValue
      modifies `pxDelayedTaskList, `pxOverflowDelayedTaskList, `xSuspendedTaskList
      ensures State() == SetPriority(old(State()), t, ValueOf(uxBasePriority, t))
      ensures uxPriority == old(uxPriority)[t := ValueOf(uxBasePriority, t)]
      ensures xEventItemValue == old(xEventItemValue)[t := M.ItemValue(ValueOf(uxBasePriority, t))]
    {
      hide SetPriority;
      MoveToPriority(t, ValueOf(uxBasePriority, t));
      xEventItemValue := xEventItemValue[t := M.ItemValue(ValueOf(uxBasePriority, t))];
    }

    // The holder is the running task: only the task that holds a mutex may give it.
    method xTaskPriorityDisinherit(pxMutexHolder: M.Holder) returns (xReturn: bool)
      requires pxMutexHolder.HeldBy? ==>
                 && pxMutexHolder.t == pxCurrentTCB && ValueOf(uxMutexesHeld, pxCurrentTCB) > 0
                 && pxCurrentTCB in pxContainer && pxContainer[pxCurrentTCB] == Ready(ValueOf(uxPriority, pxCurrentTCB))
      modifies this
      ensures Priorities() == M.Disinherit(old(Priorities()), pxMutexHolder)
      ensures xReturn == M.Lowers(old(Priorities()), pxMutexHolder)
      ensures var t := pxCurrentTCB;
              State() == if xReturn then KernelReady.ChangePriority(old(State()), t, ValueOf(uxBasePriority, t))
                         else old(State())
    {
      hide SetPriority;
      xReturn := false;
      if pxMutexHolder.HeldBy? {
        var t := pxMutexHolder.t;
        uxMutexesHeld := uxMutexesHeld[t := ValueOf(uxMutexesHeld, t) - 1];
        assert State() == old(State());
        hide State, TaskLists;
        if ValueOf(uxPriority, t) != ValueOf(uxBasePriority, t) {
          if uxMutexesHeld[t] == 0 {
            ReturnToBase(t);
            xReturn := true;
          }
        }
      }
    }

    method vTaskPriorityDisinheritAfterTimeout(pxMutexHolder: M.Holder, uxHighestPriorityWaitingTask: nat)
      modifies this
      ensures Priorities() == M.DisinheritAfterTimeout(old(Priorities()), pxMutexHolder, uxHighestPriorityWaitingTask)
      ensures State() == match pxMutexHolder
                         case HeldBy(t) => KernelReady.ChangePriority(old(State()), t, ValueOf(uxPriority, t))
                         case NoTask => old(State())
    {
      hide SetPriority;
      if pxMutexHolder.HeldBy? {
        var t := pxMutexHolder.t;
        var uxPriorityToUse := ValueOf(uxBasePriority, t);
        if uxPriorityToUse < uxHighestPriorityWaitingTask {
          uxPriorityToUse := uxHighestPriorityWaitingTask;
        }
        if ValueOf(uxPriority, t) != uxPriorityToUse {
          if ValueOf(uxMutexesHeld, t) == 1 {
            SetEventItemValue(t, uxPriorityToUse);
            MoveToPriority(t, uxPriorityToUse);
          }
        }
      }
    }
  }

  lemma RingBounds(l: StateLists)
    requires Placed(l)
    ensures l.top < |l.ready| && forall p :: 0 <= p < |l.ready| ==> l.ready[p].index <= |l.ready[p].items|
  {
    forall p | 0 <= p < |l.ready| ensures l.ready[p].index <= |l.ready[p].items| {
      assert ReadyAt(l.ready[p], l.at, p);
    }
  }

  lemma SuspendedHeadKnown(s: Kernel, t: Task)
    requires Structure(s) && t in s.lists.at
    ensures var q := AddBlocked(RemoveItem(s.lists, t), t, Suspended, s.value).delayed; q != [] ==> q[0] in s.value
  {
    MovedToSuspended(s.lists, t, s.value);
    WithoutQueued(s.lists.delayed, s.value, s.next, t);
  }

  lemma ReplayTickIs(s: Kernel)
    requires s.nest == 0 && Consistent(s)
    ensures ReplayTick(s) == TickInterrupt(s).(yieldPending := SwitchRequired(s) || TickInterrupt(s).yieldPending)
  {
  }

  lemma ReplayTickConsistent(s: Kernel)
    requires Consistent(s)
    ensures Consistent(ReplayTick(s)) && ReplayTick(s).nest == s.nest
  {
    hide Consistent, IncrementTick, SwitchRequired;
    TickKeepsConsistent(s);
    YieldConsistent(IncrementTick(s), ReplayTick(s).yieldPending);
  }

  lemma NothingReleased(s: Kernel)
    requires Structure(s) && s.tick < s.next
    ensures !ReleasesAbove(s)
  {
    NothingDue(s);
    NoneReleased(s);
  }

  lemma OverflowHeadKnown(s: Kernel)
    requires Consistent(s)
    ensures s.lists.overflow != [] ==> s.lists.overflow[0] in s.value
    ensures s.lists.delayed != [] ==> s.lists.delayed[0] in s.value
  {
  }

  lemma AboveIs(s: Kernel, t: Task)
    ensures Above(s, t) == (ValueOf(s.prio, t) > ValueOf(s.prio, s.current))
  {
  }
}
