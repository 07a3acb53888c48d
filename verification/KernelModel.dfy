/** The state of tasks.c as a value, what every step keeps of it, and what it means in unbounded time. */
module KernelModel {
  import opened Ticks
  import opened ListSpec
  import opened DelayModel
  import opened StateLists

  // The variables of tasks.c and the task control block fields, by task. epoch, which the program
  // does not have, counts how often the tick count has wrapped.
  datatype Kernel = Kernel(tick: nat, pended: nat, overflows: nat, next: nat, nest: nat, yieldPending: bool,
                           lists: StateLists, pending: seq<Task>, current: Task,
                           value: map<Task, nat>, event: map<Task, EventPlace>, prio: map<Task, nat>,
                           base: map<Task, nat>, epoch: nat)

  // ----- invariants --------------------------------------------------------------------------------

  // A delayed list is in wake-time order, and its values are tick values.
  ghost predicate Queued(q: seq<Task>, v: map<Task, nat>) {
    Sorted(q, v) && forall t :: t in q ==> v[t] < W
  }

  // The next unblock time is not after the wake time of the head.
  ghost predicate NextInTime(q: seq<Task>, v: map<Task, nat>, next: nat) {
    q != [] && q[0] in v ==> next <= v[q[0]]
  }

  // Every wake time is still to come.
  ghost predicate InTime(q: seq<Task>, v: map<Task, nat>, tick: nat) {
    forall t :: t in q ==> t in v && tick < v[t]
  }

  ghost predicate Pended(pending: seq<Task>, event: map<Task, EventPlace>) {
    NoDup(pending) && forall t :: t in pending <==> t in event && event[t] == PendingReady
  }

  // Ready tasks are on the list of their current priority and on no event list.
  ghost predicate ReadyItems(at: map<Task, Place>, prio: map<Task, nat>, event: map<Task, EventPlace>) {
    && (forall t :: t in prio ==> prio[t] < configMAX_PRIORITIES)
    && (forall t :: t in at && at[t].Ready? ==>
          t in prio && at[t].prio == prio[t] && t in event && event[t] == NoEvent)
  }

  // The same tasks are known everywhere.
  ghost predicate Tasks(at: map<Task, Place>, event: map<Task, EventPlace>, value: map<Task, nat>,
                        prio: map<Task, nat>) {
    at.Keys == event.Keys == value.Keys == prio.Keys
  }

  ghost predicate Somewhere(at: map<Task, Place>) {
    forall t :: t in at ==> at[t] != Nowhere
  }

  // xNumOfOverflows counts the wraps of the tick count, and wraps itself.
  ghost predicate Epochs(overflows: nat, epoch: nat) {
    overflows == Wrap(epoch)
  }

  lemma EpochsNext(overflows: nat, epoch: nat)
    requires Epochs(overflows, epoch)
    ensures Epochs(TickAdd(overflows, 1), epoch + 1)
  {
    TickAddWraps(epoch, 1);
  }

  // The shape of the data, which holds even while the lists are being worked on.
  ghost predicate Structure(s: Kernel) {
    && Placed(s.lists) && Somewhere(s.lists.at)
    && Queued(s.lists.delayed, s.value) && Queued(s.lists.overflow, s.value)
    && NextInTime(s.lists.delayed, s.value, s.next)
    && Pended(s.pending, s.event)
    && ReadyItems(s.lists.at, s.prio, s.event)
    && Tasks(s.lists.at, s.event, s.value, s.prio) && s.current in s.prio
    && s.tick < W && Epochs(s.overflows, s.epoch)
  }

  // What holds between two steps.
  ghost predicate Consistent(s: Kernel) {
    Structure(s) && InTime(s.lists.delayed, s.value, s.tick)
  }

  ghost predicate Valid(s: Kernel) {
    Consistent(s) && (s.nest == 0 ==> s.pending == [] && s.pended == 0)
  }

  lemma StructureTasks(s: Kernel)
    requires Structure(s)
    ensures Tasks(s.lists.at, s.event, s.value, s.prio) && s.tick < W && Placed(s.lists)
  {
  }

  lemma ConsistentStructure(s: Kernel)
    requires Consistent(s)
    ensures Structure(s) && InTime(s.lists.delayed, s.value, s.tick)
  {
  }

  // ----- the kernel in unbounded time --------------------------------------------------------------

  function PhaseOf(p: Place, v: nat, epoch: nat): Phase {
    match p
    case Suspended => Indefinitely
    case Delayed => Until(epoch * W + v)
    case Overflow => Until((epoch + 1) * W + v)
    case _ => Runnable
  }

  function Phases(at: map<Task, Place>, value: map<Task, nat>, epoch: nat): map<Task, Phase> {
    map t | t in at :: PhaseOf(at[t], ValueOf(value, t), epoch)
  }

  function View(s: Kernel): Delays {
    Delays(s.epoch * W + s.tick, s.pended, s.nest, Phases(s.lists.at, s.value, s.epoch), s.event)
  }

  // One item has moved: one phase has changed.
  lemma MovedPhases(at: map<Task, Place>, value: map<Task, nat>, epoch: nat, t: Task, p: Place, v: nat)
    ensures Phases(at[t := p], value[t := v], epoch) == Phases(at, value, epoch)[t := PhaseOf(p, v, epoch)]
    ensures !p.Delayed? && !p.Overflow? ==>
              Phases(at[t := p], value, epoch) == Phases(at, value, epoch)[t := PhaseOf(p, v, epoch)]
  {
  }

  // ----- what moving one task does to each invariant -----------------------------------------------

  lemma WithoutQueued(q: seq<Task>, v: map<Task, nat>, next: nat, t: Task)
    requires Queued(q, v) && NextInTime(q, v, next)
    ensures Queued(Without(q, t), v) && NextInTime(Without(q, t), v, next)
  {
    WithoutSorted(q, v, t);
    if t in q {
      var r, k := Without(q, t), Find(q, t);
      forall i | 0 <= i < |r| ensures r[i] == q[if i < k then i else i + 1] {
      }
    }
  }

  lemma WithoutInTime(q: seq<Task>, v: map<Task, nat>, tick: nat, t: Task)
    requires InTime(q, v, tick) && NoDup(q)
    ensures InTime(Without(q, t), v, tick)
  {
    WithoutNoDup(q, t);
  }

  lemma ValueElsewhere(q: seq<Task>, v: map<Task, nat>, next: nat, tick: nat, t: Task, x: nat)
    requires t !in q
    ensures Queued(q, v) ==> Queued(q, v[t := x])
    ensures NextInTime(q, v, next) ==> NextInTime(q, v[t := x], next)
    ensures InTime(q, v, tick) ==> InTime(q, v[t := x], tick)
  {
  }

  lemma InsertQueued(q: seq<Task>, v: map<Task, nat>, next: nat, t: Task)
    requires Queued(q, v) && NextInTime(q, v, next) && t in v && v[t] < W
    ensures Queued(InsertByValue(q, v, t), v)
    ensures NextInTime(InsertByValue(q, v, t), v, if v[t] < next then v[t] else next)
  {
    InsertByValueSorted(q, v, t);
  }

  lemma WithoutPended(pending: seq<Task>, event: map<Task, EventPlace>, t: Task, e: EventPlace)
    requires Pended(pending, event) && e != PendingReady
    ensures Pended(LeavePending(pending, event, t), event[t := e])
    ensures t in event && event[t] != PendingReady ==> LeavePending(pending, event, t) == pending
    ensures pending == [] ==> LeavePending(pending, event, t) == []
  {
    WithoutNoDup(pending, t);
  }

  lemma JoinPended(pending: seq<Task>, event: map<Task, EventPlace>, t: Task)
    requires Pended(pending, event) && (t in event ==> event[t] != PendingReady)
    ensures Pended(pending + [t], event[t := PendingReady])
  {
  }

  lemma ReadyItemsReady(at: map<Task, Place>, prio: map<Task, nat>, event: map<Task, EventPlace>, t: Task)
    requires ReadyItems(at, prio, event) && t in prio
    ensures prio[t] < configMAX_PRIORITIES && ReadyItems(at[t := Ready(prio[t])], prio, event[t := NoEvent])
  {
  }

  lemma ReadyItemsBlocked(at: map<Task, Place>, prio: map<Task, nat>, event: map<Task, EventPlace>, t: Task, p: Place,
                          e: EventPlace)
    requires ReadyItems(at, prio, event) && !p.Ready?
    ensures ReadyItems(at[t := p], prio, event[t := e])
  {
  }

  lemma ReadyHasNoEvent(at: map<Task, Place>, prio: map<Task, nat>, event: map<Task, EventPlace>, t: Task)
    requires ReadyItems(at, prio, event) && t in at && at[t].Ready?
    ensures t in event && event[t] == NoEvent && t in prio && at[t] == Ready(prio[t])
  {
  }

  lemma TasksMoved(at: map<Task, Place>, event: map<Task, EventPlace>, value: map<Task, nat>, prio: map<Task, nat>,
                   t: Task, p: Place, e: EventPlace, v: nat)
    requires Tasks(at, event, value, prio) && t in prio
    ensures t in at && t in event && t in value
    ensures Tasks(at[t := p], event[t := e], value, prio) && Tasks(at[t := p], event[t := e], value[t := v], prio)
  {
  }

  lemma SomewhereMoved(at: map<Task, Place>, t: Task, p: Place)
    requires Somewhere(at) && p != Nowhere
    ensures Somewhere(at[t := p])
  {
  }

  // ----- making a task ready -----------------------------------------------------------------------

  function LeavePending(pending: seq<Task>, event: map<Task, EventPlace>, t: Task): seq<Task> {
    if t in event && event[t] == PendingReady then Without(pending, t) else pending
  }

  // The task leaves its event list and its state list and joins its ready list.
  function MakeReady(s: Kernel, t: Task): Kernel {
    s.(lists := AddReady(RemoveItem(s.lists, t), t, ValueOf(s.prio, t)),
       pending := LeavePending(s.pending, s.event, t), event := s.event[t := NoEvent])
  }

  lemma MakeReadyMoves(s: Kernel, t: Task)
    requires Structure(s) && t in s.prio
    ensures s.prio[t] < configMAX_PRIORITIES && Placed(MakeReady(s, t).lists)
    ensures MakeReady(s, t).lists.at == s.lists.at[t := Ready(s.prio[t])]
    ensures MakeReady(s, t).lists.delayed == Without(s.lists.delayed, t)
    ensures MakeReady(s, t).lists.overflow == Without(s.lists.overflow, t)
  {
    hide Epochs, Placed, Queued, NextInTime, Pended, Somewhere;
    assert t in s.lists.at;
    ReadyItemsReady(s.lists.at, s.prio, s.event, t);
    MovedToReady(s.lists, t, s.prio[t]);
  }

  lemma MakeReadyStructure(s: Kernel, t: Task)
    requires Structure(s) && t in s.prio
    ensures Structure(MakeReady(s, t))
  {
    MakeReadyMoves(s, t);
    hide Epochs, Placed, Queued, NextInTime, Pended, Somewhere, ReadyItems, AddReady, RemoveItem, Without;
    hide LeavePending, Tasks;
    WithoutQueued(s.lists.delayed, s.value, s.next, t);
    NextZero(s.lists.overflow, s.value);
    WithoutQueued(s.lists.overflow, s.value, 0, t);
    WithoutPended(s.pending, s.event, t, NoEvent);
    ReadyItemsReady(s.lists.at, s.prio, s.event, t);
    SomewhereMoved(s.lists.at, t, Ready(s.prio[t]));
    TasksMoved(s.lists.at, s.event, s.value, s.prio, t, Ready(s.prio[t]), NoEvent, 0);
  }

  lemma NextZero(q: seq<Task>, v: map<Task, nat>)
    ensures NextInTime(q, v, 0)
  {
  }

  lemma MakeReadyConsistent(s: Kernel, t: Task)
    requires Consistent(s) && t in s.prio
    ensures Consistent(MakeReady(s, t))
    ensures s.pending == [] ==> MakeReady(s, t).pending == []
  {
    MakeReadyStructure(s, t);
    MakeReadyMoves(s, t);
    assert NoDup(s.lists.delayed);
    hide Epochs, Placed, Queued, NextInTime, Pended, Somewhere, ReadyItems, InTime, AddReady, RemoveItem, Without;
    hide LeavePending, Tasks;
    WithoutInTime(s.lists.delayed, s.value, s.tick, t);
    WithoutPended(s.pending, s.event, t, NoEvent);
  }

  lemma MakeReadyView(s: Kernel, t: Task)
    requires Structure(s) && t in s.prio
    ensures View(MakeReady(s, t)) == WakeNow(View(s), t)
  {
    hide Structure, Placed, AddReady, RemoveItem, Without, LeavePending, Phases;
    MakeReadyMoves(s, t);
    MovedPhases(s.lists.at, s.value, s.epoch, t, Ready(s.prio[t]), 0);
  }
}
