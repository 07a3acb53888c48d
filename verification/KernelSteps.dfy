/** The steps of tasks.c other than the tick: waking, blocking, suspending, resuming, selecting. */
module KernelSteps {
  import opened Ticks
  import opened ListSpec
  import opened DelayModel
  import opened StateLists
  import opened KernelModel
  import opened KernelTick

  // ----- waking ------------------------------------------------------------------------------------

  predicate Above(s: Kernel, t: Task) {
    ValueOf(s.prio, t) > ValueOf(s.prio, s.current)
  }

  // The item joins the pending-ready list; its state item has to wait for the scheduler to resume.
  function JoinPendingReady(s: Kernel, t: Task): Kernel {
    s.(pending := s.pending + [t], event := s.event[t := PendingReady])
  }

  // xTaskRemoveFromEventList, for the task at the head of the event list.
  function RemoveFromEventList(s: Kernel, t: Task): Kernel {
    var r := if s.nest == 0 then MakeReady(s, t) else JoinPendingReady(s, t);
    r.(yieldPending := s.yieldPending || Above(s, t))
  }

  // vTaskRemoveFromUnorderedEventList, which event groups use with the scheduler suspended.
  function RemoveFromUnorderedEventList(s: Kernel, t: Task): Kernel {
    MakeReady(s, t).(yieldPending := s.yieldPending || Above(s, t))
  }

  lemma NotReady(s: Kernel, t: Task)
    requires Structure(s) && t in s.prio && s.event[t] != NoEvent
    ensures t in s.lists.at && t in s.event && !s.lists.at[t].Ready?
  {
  }

  lemma JoinPendingReadyStructure(s: Kernel, t: Task)
    requires Structure(s) && t in s.prio && t in s.event && s.event[t] != PendingReady
    requires t in s.lists.at && !s.lists.at[t].Ready?
    ensures Structure(JoinPendingReady(s, t))
  {
    assert s.lists.at[t := s.lists.at[t]] == s.lists.at;
    hide Epochs, Placed, Queued, NextInTime, Pended, Somewhere, ReadyItems, Tasks;
    JoinPended(s.pending, s.event, t);
    ReadyItemsBlocked(s.lists.at, s.prio, s.event, t, s.lists.at[t], PendingReady);
    TasksMoved(s.lists.at, s.event, s.value, s.prio, t, s.lists.at[t], PendingReady, 0);
  }

  lemma RemoveFromEventListValid(s: Kernel, t: Task)
    requires Valid(s) && t in s.prio && t in s.event && s.event[t] == OnObject
    ensures Valid(RemoveFromEventList(s, t))
  {
    hide Epochs, Placed, Queued, NextInTime, Pended, Somewhere, ReadyItems, Tasks, InTime;
    NotReady(s, t);
    if s.nest == 0 {
      MakeReadyConsistent(s, t);
    } else {
      JoinPendingReadyStructure(s, t);
    }
  }

  lemma RemoveFromEventListView(s: Kernel, t: Task)
    requires Valid(s) && t in s.prio
    ensures View(RemoveFromEventList(s, t)) == Wake(View(s), t)
  {
    hide Valid, Structure, Consistent, Phases, MakeReady;
    ValidStructure(s);
    MakeReadyView(s, t);
    MakeReadyLeaves(s, t);
  }

  // ----- blocking ----------------------------------------------------------------------------------

  // The running task's state item moves to place p with value v.
  function MoveCurrent(s: Kernel, p: Place, v: nat, place: EventPlace): Kernel {
    var value := s.value[s.current := v];
    s.(lists := AddBlocked(RemoveItem(s.lists, s.current), s.current, p, value),
       value := value, event := s.event[s.current := place],
       next := if p == Delayed && v < s.next then v else s.next)
  }

  // Where prvAddCurrentTaskToDelayedList puts the task: a wake time that wraps goes to the overflow list.
  function BlockPlace(tick: nat, d: nat, forever: bool): Place {
    if d == MAX_DELAY && forever then Suspended else if TickAdd(tick, d) < tick then Overflow else Delayed
  }

  // prvAddCurrentTaskToDelayedList, after the event list item has been placed.
  function AddCurrentTaskToDelayedList(s: Kernel, d: nat, forever: bool, place: EventPlace): Kernel {
    var p := BlockPlace(s.tick, d, forever);
    MoveCurrent(s, p, if p == Suspended then ValueOf(s.value, s.current) else TickAdd(s.tick, d), place)
  }

  lemma MovedQueued(l: StateLists, t: Task, p: Place, value: map<Task, nat>, v: nat, next: nat, tick: nat)
    requires Blocking(p) && t !in l.delayed && t !in l.overflow
    requires Queued(l.delayed, value) && Queued(l.overflow, value) && NextInTime(l.delayed, value, next)
    requires p != Suspended ==> v < W
    ensures var m := AddBlocked(l, t, p, value[t := v]);
            && Queued(m.delayed, value[t := v]) && Queued(m.overflow, value[t := v])
            && NextInTime(m.delayed, value[t := v], if p == Delayed && v < next then v else next)
            && (InTime(l.delayed, value, tick) && (p == Delayed ==> tick < v) ==>
                 InTime(m.delayed, value[t := v], tick))
  {
    ValueElsewhere(l.delayed, value, next, tick, t, v);
    ValueElsewhere(l.overflow, value, 0, tick, t, v);
    if p == Delayed {
      InsertQueued(l.delayed, value[t := v], next, t);
    } else if p == Overflow {
      NextZero(l.overflow, value[t := v]);
      InsertQueued(l.overflow, value[t := v], 0, t);
    }
  }

  lemma MoveCurrentConsistent(s: Kernel, p: Place, v: nat, place: EventPlace)
    requires Consistent(s) && Blocking(p) && place != PendingReady
    requires p != Suspended ==> v < W
    requires p == Delayed ==> s.tick < v
    requires Running(s)
    ensures Consistent(MoveCurrent(s, p, v, place))
  {
    var t := s.current;
    hide Epochs, Placed, Queued, NextInTime, Pended, Somewhere, ReadyItems, Tasks, InTime, LeavePending;
    ReadyHasNoEvent(s.lists.at, s.prio, s.event, t);
    MovedToBlocked(s.lists, t, p, s.value[t := v]);
    MovedQueued(RemoveItem(s.lists, t), t, p, s.value, v, s.next, s.tick);
    hide AddBlocked, RemoveItem;
    WithoutPended(s.pending, s.event, t, place);
    ReadyItemsBlocked(s.lists.at, s.prio, s.event, t, p, place);
    SomewhereMoved(s.lists.at, t, p);
    TasksMoved(s.lists.at, s.event, s.value, s.prio, t, p, place, v);
  }

  lemma MoveCurrentView(s: Kernel, p: Place, v: nat, place: EventPlace)
    requires Placed(s.lists) && Running(s) && Blocking(p)
    ensures View(MoveCurrent(s, p, v, place))
         == View(s).(phase := View(s).phase[s.current := PhaseOf(p, v, s.epoch)], event := s.event[s.current := place])
  {
    MovedToBlocked(s.lists, s.current, p, s.value[s.current := v]);
    hide Placed, Phases, RemoveItem, AddBlocked;
    MovedPhases(s.lists.at, s.value, s.epoch, s.current, p, v);
  }

  lemma PhaseOfWake(tick: nat, d: nat, v: nat, epoch: nat, forever: bool)
    requires tick < W && 0 < d < W
    requires BlockPlace(tick, d, forever) != Suspended ==> v == TickAdd(tick, d)
    ensures Blocking(BlockPlace(tick, d, forever))
    ensures BlockPlace(tick, d, forever) != Suspended ==> v < W
    ensures BlockPlace(tick, d, forever) == Delayed ==> tick < v
    ensures PhaseOf(BlockPlace(tick, d, forever), v, epoch)
         == if d == MAX_DELAY && forever then Indefinitely else Until(epoch * W + tick + d)
  {
    NextEpoch(epoch);
  }

  // The running task is ready, as the running task is whenever it calls the kernel.
  predicate Running(s: Kernel) {
    s.current in s.lists.at && s.lists.at[s.current].Ready?
  }

  lemma ValidStructure(s: Kernel)
    requires Valid(s)
    ensures Consistent(s) && Structure(s) && Placed(s.lists) && s.tick < W
  {
  }

  lemma BlockValid(s: Kernel, d: nat, forever: bool, place: EventPlace)
    requires Valid(s) && 0 < d < W && place != PendingReady && Running(s)
    ensures Valid(AddCurrentTaskToDelayedList(s, d, forever, place))
  {
    ValidStructure(s);
    hide Consistent, Structure, Placed, BlockPlace, PhaseOf, TickAdd;
    var p := BlockPlace(s.tick, d, forever);
    var v := if p == Suspended then ValueOf(s.value, s.current) else TickAdd(s.tick, d);
    PhaseOfWake(s.tick, d, v, s.epoch, forever);
    MoveCurrentConsistent(s, p, v, place);
  }

  // A task that blocks for d ticks gets the wake time clock + d, however the tick count wraps.
  lemma BlockView(s: Kernel, d: nat, forever: bool, place: EventPlace)
    requires Valid(s) && 0 < d < W && Running(s)
    ensures View(AddCurrentTaskToDelayedList(s, d, forever, place)) == Block(View(s), s.current, d, forever, place)
  {
    hide Valid, Consistent, Structure, Placed, BlockPlace, PhaseOf, TickAdd, Phases, MoveCurrent;
    ValidStructure(s);
    var p := BlockPlace(s.tick, d, forever);
    var v := if p == Suspended then ValueOf(s.value, s.current) else TickAdd(s.tick, d);
    PhaseOfWake(s.tick, d, v, s.epoch, forever);
    MoveCurrentView(s, p, v, place);
  }

  // ----- vTaskSuspend and vTaskResume --------------------------------------------------------------

  // The item moves to the suspended list and leaves any event list.
  function SuspendTask(s: Kernel, t: Task): Kernel {
    ResetNextTaskUnblockTime(
      s.(lists := AddBlocked(RemoveItem(s.lists, t), t, Suspended, s.value),
         pending := LeavePending(s.pending, s.event, t), event := s.event[t := NoEvent]))
  }

  lemma MovedToSuspended(l: StateLists, t: Task, v: map<Task, nat>)
    requires Placed(l) && t in l.at
    ensures var m := AddBlocked(RemoveItem(l, t), t, Suspended, v);
            && Placed(m) && m.at == l.at[t := Suspended] && NoDup(l.delayed)
            && m.delayed == Without(l.delayed, t) && m.overflow == Without(l.overflow, t)
  {
    RemoveItemPlaced(l, t);
    AddBlockedPlaced(RemoveItem(l, t), t, Suspended, v);
  }

  lemma SuspendTaskValid(s: Kernel, t: Task)
    requires Valid(s) && t in s.prio
    ensures Valid(SuspendTask(s, t))
  {
    hide Epochs, Placed, Queued, NextInTime, Pended, Somewhere, ReadyItems, Tasks, InTime, LeavePending, Without;
    TasksMoved(s.lists.at, s.event, s.value, s.prio, t, Suspended, NoEvent, 0);
    MovedToSuspended(s.lists, t, s.value);
    hide AddBlocked, RemoveItem;
    WithoutQueued(s.lists.delayed, s.value, s.next, t);
    WithoutInTime(s.lists.delayed, s.value, s.tick, t);
    NextZero(s.lists.overflow, s.value);
    WithoutQueued(s.lists.overflow, s.value, 0, t);
    ResetInTime(Without(s.lists.delayed, t), s.value);
    WithoutPended(s.pending, s.event, t, NoEvent);
    ReadyItemsBlocked(s.lists.at, s.prio, s.event, t, Suspended, NoEvent);
    SomewhereMoved(s.lists.at, t, Suspended);
  }

  lemma KnownTask(s: Kernel, t: Task)
    requires Structure(s) && t in s.prio
    ensures t in s.lists.at && t in s.event && t in s.value
  {
  }

  lemma SuspendTaskView(s: Kernel, t: Task)
    requires Structure(s) && t in s.prio
    ensures View(SuspendTask(s, t)) == DelayModel.SuspendTask(View(s), t)
  {
    hide Structure, Placed, Phases, RemoveItem, AddBlocked, Without, LeavePending;
    StructureTasks(s);
    KnownTask(s, t);
    MovedToSuspended(s.lists, t, s.value);
    MovedPhases(s.lists.at, s.value, s.epoch, t, Suspended, 0);
  }

  // prvTaskIsTaskSuspended: on the suspended list, and not because it waits for ever for an event.
  predicate IsTaskSuspended(s: Kernel, t: Task) {
    t in s.lists.at && s.lists.at[t] == Suspended && t in s.event && s.event[t] == NoEvent
  }

  function ResumeTask(s: Kernel, t: Task): Kernel {
    if t != s.current && IsTaskSuspended(s, t) then MakeReady(s, t) else s
  }

  function ResumeTaskFromISR(s: Kernel, t: Task): Kernel {
    if !IsTaskSuspended(s, t) then s
    else if s.nest == 0 then
      MakeReady(s, t).(yieldPending := s.yieldPending || ValueOf(s.prio, t) >= ValueOf(s.prio, s.current))
    else JoinPendingReady(s, t)
  }

  lemma MakeReadyValid(s: Kernel, t: Task)
    requires Valid(s) && t in s.prio
    ensures Valid(MakeReady(s, t))
  {
    hide Structure, InTime, MakeReady;
    MakeReadyConsistent(s, t);
    MakeReadyLeaves(s, t);
  }

  lemma JoinPendingReadyValid(s: Kernel, t: Task)
    requires Valid(s) && s.nest > 0 && t in s.prio && IsTaskSuspended(s, t)
    ensures Valid(JoinPendingReady(s, t))
  {
    hide Structure, InTime;
    JoinPendingReadyStructure(s, t);
  }

  lemma YieldValid(s: Kernel, y: bool)
    ensures Valid(s.(yieldPending := y)) == Valid(s)
  {
    hide Epochs, Placed, Queued, NextInTime, Pended, Somewhere, ReadyItems, Tasks, InTime;
  }

  lemma ResumeTaskValid(s: Kernel, t: Task)
    requires Valid(s) && t in s.prio
    ensures Valid(ResumeTask(s, t)) && Valid(ResumeTaskFromISR(s, t))
  {
    hide Valid, Structure, Consistent, MakeReady, JoinPendingReady;
    MakeReadyValid(s, t);
    YieldValid(MakeReady(s, t), ResumeTaskFromISR(s, t).yieldPending);
    if s.nest > 0 && IsTaskSuspended(s, t) {
      JoinPendingReadyValid(s, t);
    }
  }

  lemma SuspendedPhase(s: Kernel, t: Task)
    requires Structure(s) && t in s.prio
    ensures t in View(s).phase && t in s.event
    ensures IsTaskSuspended(s, t) <==> View(s).phase[t].Indefinitely? && s.event[t].NoEvent?
  {
  }

  lemma ResumeTaskView(s: Kernel, t: Task)
    requires Structure(s) && t in s.prio
    ensures t in View(s).phase && t in View(s).event
    ensures t != s.current ==> View(ResumeTask(s, t)) == DelayModel.ResumeTask(View(s), t)
  {
    hide Structure, IsTaskSuspended, Phases, MakeReady;
    SuspendedPhase(s, t);
    MakeReadyView(s, t);
    assert IsTaskSuspended(s, t) ==> s.event[t := NoEvent] == s.event;
  }

  lemma ResumeTaskFromISRView(s: Kernel, t: Task)
    requires Structure(s) && t in s.prio
    ensures t in View(s).phase && t in View(s).event
    ensures View(ResumeTaskFromISR(s, t)) == DelayModel.ResumeTaskFromISR(View(s), t)
  {
    hide Structure, IsTaskSuspended, Phases, MakeReady;
    SuspendedPhase(s, t);
    MakeReadyView(s, t);
    MakeReadyLeaves(s, t);
  }

  // ----- creating tasks ------------------------------------------------------------------------

  // prvInitialiseNewTask: the items of a new task are on no list.
  function NewItems(s: Kernel, t: Task): Kernel {
    s.(lists := s.lists.(at := s.lists.at[t := Nowhere]), event := s.event[t := NoEvent], value := s.value[t := 0])
  }

  function NewTask(s: Kernel, t: Task, p: nat): Kernel {
    NewItems(s, t).(prio := s.prio[t := p], base := s.base[t := p])
  }

  // prvAddNewTaskToReadyList, once the scheduler runs.
  function AddNewTask(s: Kernel, t: Task, p: nat): Kernel {
    var n := NewTask(s, t, p);
    n.(lists := AddReady(n.lists, t, p))
  }

  lemma NewTaskPlaced(l: StateLists, t: Task, p: nat)
    requires Placed(l) && t !in l.at && p < configMAX_PRIORITIES
    ensures var m := AddReady(l.(at := l.at[t := Nowhere]), t, p);
            Placed(m) && m.at == l.at[t := Ready(p)] && m.delayed == l.delayed && m.overflow == l.overflow
    ensures t !in l.delayed && t !in l.overflow
  {
    var n := l.(at := l.at[t := Nowhere]);
    forall q | 0 <= q < |n.ready| ensures ReadyAt(n.ready[q], n.at, q) {
      assert ReadyAt(l.ready[q], l.at, q);
    }
    AddReadyPlaced(n, t, p);
  }

  lemma NewTaskItems(s: Kernel, t: Task, p: nat)
    requires Structure(s) && t !in s.prio && p < configMAX_PRIORITIES
    ensures t !in s.lists.at && t !in s.event && t !in s.value
    ensures ReadyItems(s.lists.at[t := Ready(p)], s.prio[t := p], s.event[t := NoEvent])
    ensures Tasks(s.lists.at[t := Ready(p)], s.event[t := NoEvent], s.value[t := 0], s.prio[t := p])
  {
    assert Tasks(s.lists.at, s.event, s.value, s.prio);
    hide Epochs, Placed, Queued, NextInTime, Pended, Somewhere;
  }

  lemma AddNewTaskConsistent(s: Kernel, t: Task, p: nat)
    requires Consistent(s) && t !in s.prio && p < configMAX_PRIORITIES
    ensures Consistent(AddNewTask(s, t, p))
  {
    hide Epochs, Placed, Queued, NextInTime, Pended, Somewhere, ReadyItems, Tasks, InTime, AddReady, LeavePending;
    NewTaskItems(s, t, p);
    NewTaskPlaced(s.lists, t, p);
    ValueElsewhere(s.lists.delayed, s.value, s.next, s.tick, t, 0);
    ValueElsewhere(s.lists.overflow, s.value, 0, s.tick, t, 0);
    WithoutPended(s.pending, s.event, t, NoEvent);
    NotPendingStays(s.pending, s.event, t);
    SomewhereMoved(s.lists.at, t, Ready(p));
  }

  lemma NotPendingStays(pending: seq<Task>, event: map<Task, EventPlace>, t: Task)
    requires t !in event
    ensures LeavePending(pending, event, t) == pending
  {
  }

  lemma AddNewTaskView(s: Kernel, t: Task, p: nat)
    requires Structure(s) && t !in s.prio && p < configMAX_PRIORITIES
    ensures View(AddNewTask(s, t, p)) == WakeNow(View(s), t)
  {
    hide Structure, Placed, Phases, AddReady, Tasks;
    StructureTasks(s);
    NewTaskItems(s, t, p);
    NewTaskPlaced(s.lists, t, p);
    MovedPhases(s.lists.at, s.value, s.epoch, t, Ready(p), 0);
  }

  lemma AddNewTaskRefines(s: Kernel, t: Task, p: nat)
    requires Valid(s) && t !in s.prio && p < configMAX_PRIORITIES
    ensures Valid(AddNewTask(s, t, p)) && View(AddNewTask(s, t, p)) == WakeNow(View(s), t)
  {
    hide Structure, Consistent, Phases;
    ConsistentStructure(s);
    AddNewTaskConsistent(s, t, p);
    AddNewTaskView(s, t, p);
  }

  // ----- the start -----------------------------------------------------------------------------

  datatype Creation = Creation(t: Task, prio: nat)

  function NoneReady(): seq<Ring<Task>> {
    seq(configMAX_PRIORITIES, _ => Ring([], 0))
  }

  // The first task that is created, and with it the lists.
  function FirstTask(t: Task, p: nat): Kernel {
    var none: StateLists := StateLists([], [], [], NoneReady(), 0, map[t := Nowhere]);
    Kernel(0, 0, 0, 0, 0, false, AddReady(none, t, p), [], t,
           map[t := 0], map[t := NoEvent], map[t := p], map[t := p], 0)
  }

  // Before the scheduler runs, the running task will be the last one of highest priority.
  function AddEarlyTask(s: Kernel, t: Task, p: nat): Kernel {
    AddNewTask(s, t, p).(current := if ValueOf(s.prio, s.current) <= p then t else s.current)
  }

  function Created(cs: seq<Creation>): Kernel
    requires cs != []
    decreases |cs|
  {
    var c := cs[|cs| - 1];
    if |cs| == 1 then FirstTask(c.t, Clamp(c.prio)) else AddEarlyTask(Created(cs[..|cs| - 1]), c.t, Clamp(c.prio))
  }

  // vTaskStartScheduler, with the idle task among the tasks that have been created.
  function StartScheduler(s: Kernel): Kernel {
    s.(next := MAX_DELAY, tick := 0)
  }

  function Started(cs: seq<Creation>): Kernel
    requires cs != []
  {
    StartScheduler(Created(cs))
  }

  predicate AllDifferent(cs: seq<Creation>) {
    forall i, j :: 0 <= i < j < |cs| ==> cs[i].t != cs[j].t
  }

  // Every task is ready, and none outranks the one that will run.
  predicate AllReady(s: Kernel) {
    && s.current in s.prio && s.prio.Keys == s.lists.at.Keys
    && (forall t :: t in s.prio ==> s.lists.at[t] == Ready(s.prio[t]) && s.prio[t] <= s.prio[s.current])
    && s.nest == 0 && !s.yieldPending && s.tick == 0 && s.epoch == 0
  }

  lemma NonePlaced(t: Task)
    ensures Placed(StateLists([], [], [], NoneReady(), 0, map[t := Nowhere]))
  {
    var none: StateLists := StateLists([], [], [], NoneReady(), 0, map[t := Nowhere]);
    forall q | 0 <= q < |none.ready| ensures ReadyAt(none.ready[q], none.at, q) {
    }
  }

  lemma FirstTaskValid(t: Task, p: nat)
    requires p < configMAX_PRIORITIES
    ensures Valid(FirstTask(t, p)) && AllReady(FirstTask(t, p)) && FirstTask(t, p).prio.Keys == {t}
  {
    var none: StateLists := StateLists([], [], [], NoneReady(), 0, map[t := Nowhere]);
    NonePlaced(t);
    AddReadyPlaced(none, t, p);
    hide Placed, NoneReady, InsertReady;
    assert FirstTask(t, p).lists.at == map[t := Ready(p)];
    hide AddReady;
  }

  lemma CurrentValid(s: Kernel, t: Task)
    requires Valid(s) && t in s.prio
    ensures Valid(s.(current := t))
  {
    hide Placed, Queued, NextInTime, Pended, Somewhere, ReadyItems, InTime, Epochs;
  }

  lemma EarlyTaskReady(s: Kernel, t: Task, p: nat)
    requires AllReady(s) && Placed(s.lists) && t !in s.prio && p < configMAX_PRIORITIES
    ensures AllReady(AddEarlyTask(s, t, p)) && AddEarlyTask(s, t, p).prio.Keys == s.prio.Keys + {t}
  {
    NewTaskPlaced(s.lists, t, p);
    hide Placed, AddReady;
  }

  lemma AddEarlyTaskValid(s: Kernel, t: Task, p: nat)
    requires Valid(s) && AllReady(s) && t !in s.prio && p < configMAX_PRIORITIES
    ensures var r := AddEarlyTask(s, t, p); Valid(r) && AllReady(r) && r.prio.Keys == s.prio.Keys + {t}
  {
    hide Valid, Consistent, Structure, Placed, AllReady, AddNewTask;
    AddNewTaskRefines(s, t, p);
    ValidStructure(s);
    EarlyTaskReady(s, t, p);
    EarlyCurrent(s, t, p);
    CurrentValid(AddNewTask(s, t, p), AddEarlyTask(s, t, p).current);
  }

  lemma EarlyCurrent(s: Kernel, t: Task, p: nat)
    requires AllReady(s)
    ensures s.current in AddNewTask(s, t, p).prio && t in AddNewTask(s, t, p).prio
  {
    hide AddReady;
  }

  function Names(cs: seq<Creation>): set<Task> {
    set i | 0 <= i < |cs| :: cs[i].t
  }

  lemma {:induction false} CreatedValid(cs: seq<Creation>)
    requires cs != [] && AllDifferent(cs)
    ensures Valid(Created(cs)) && AllReady(Created(cs)) && Created(cs).prio.Keys == Names(cs)
    decreases |cs|
  {
    hide Valid, AllReady, FirstTask, AddEarlyTask;
    var c, rest := cs[|cs| - 1], cs[..|cs| - 1];
    if |cs| == 1 {
      FirstTaskValid(c.t, Clamp(c.prio));
    } else {
      CreatedValid(rest);
      AddEarlyTaskValid(Created(rest), c.t, Clamp(c.prio));
      assert Names(cs) == Names(rest) + {c.t};
    }
  }

  lemma NoneDelayed(s: Kernel)
    requires Placed(s.lists) && AllReady(s)
    ensures s.lists.delayed == []
  {
    NoMembers(s.lists.delayed);
  }

  lemma StartSchedulerValid(s: Kernel)
    requires Valid(s) && AllReady(s)
    ensures Valid(StartScheduler(s)) && AllReady(StartScheduler(s))
  {
    ValidStructure(s);
    NoneDelayed(s);
    hide Placed, Queued, Pended, Somewhere, ReadyItems, Epochs, Tasks;
  }

  lemma StartedValid(cs: seq<Creation>)
    requires cs != [] && AllDifferent(cs)
    ensures Valid(Started(cs)) && AllReady(Started(cs)) && Running(Started(cs)) && Started(cs).prio.Keys == Names(cs)
  {
    CreatedValid(cs);
    StartSchedulerValid(Created(cs));
    hide Valid, Created;
  }
}
