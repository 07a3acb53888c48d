/** Mutexes and priority inheritance: what every take, block, time-out and give keeps. */
module MutexModel {
  import opened ListSpec
  import DelayModel
  import StateLists

  type Task = DelayModel.Task

  datatype Holder = NoTask | HeldBy(t: Task)

  // The fields of the task control blocks that matter: uxBasePriority, uxPriority, uxMutexesHeld and
  // the value of xEventListItem, which orders the event lists.
  datatype Priorities = Priorities(base: map<Task, nat>, prio: map<Task, nat>, held: map<Task, nat>,
                                   value: map<Task, nat>)

  function ItemValue(prio: nat): nat {
    if prio <= StateLists.configMAX_PRIORITIES then StateLists.configMAX_PRIORITIES - prio else 0
  }

  function Prio(p: Priorities, t: Task): nat {
    ValueOf(p.prio, t)
  }

  function Base(p: Priorities, t: Task): nat {
    ValueOf(p.base, t)
  }

  function Held(p: Priorities, t: Task): nat {
    ValueOf(p.held, t)
  }

  // taskEVENT_LIST_ITEM_VALUE_IN_USE: an event group uses the item value for something else.
  const IN_USE: nat := 0x8000_0000

  function WithPrio(p: Priorities, t: Task, prio: nat): Priorities {
    p.(prio := p.prio[t := prio],
       value := if ValueOf(p.value, t) >= IN_USE then p.value else p.value[t := ItemValue(prio)])
  }

  predicate Raises(p: Priorities, holder: Holder, t: Task) {
    holder.HeldBy? && Prio(p, holder.t) < Prio(p, t)
  }

  // xTaskPriorityInherit, called by task t.
  function Inherit(p: Priorities, holder: Holder, t: Task): Priorities {
    if Raises(p, holder, t) then WithPrio(p, holder.t, Prio(p, t)) else p
  }

  // What it returns.
  predicate Inherited(p: Priorities, holder: Holder, t: Task) {
    Raises(p, holder, t) || (holder.HeldBy? && Base(p, holder.t) < Prio(p, t))
  }

  // The holder inherits, and gives the last mutex that it holds.
  predicate Lowers(p: Priorities, holder: Holder) {
    holder.HeldBy? && Prio(p, holder.t) != Base(p, holder.t) && Held(p, holder.t) <= 1
  }

  // xTaskPriorityDisinherit
  function Disinherit(p: Priorities, holder: Holder): Priorities {
    if !holder.HeldBy? then p
    else
      var left: nat := if Held(p, holder.t) > 0 then Held(p, holder.t) - 1 else 0;
      var q := p.(held := p.held[holder.t := left]);
      if Lowers(p, holder)
      then q.(prio := q.prio[holder.t := Base(p, holder.t)], value := q.value[holder.t := ItemValue(Base(p, holder.t))])
      else q
  }

  // vTaskPriorityDisinheritAfterTimeout; highest is the priority of the first task that still waits.
  function DisinheritAfterTimeout(p: Priorities, holder: Holder, highest: nat): Priorities {
    if !holder.HeldBy? then p
    else
      var level := if Base(p, holder.t) < highest then highest else Base(p, holder.t);
      if Prio(p, holder.t) != level && Held(p, holder.t) == 1 then WithPrio(p, holder.t, level) else p
  }

  // pvTaskIncrementMutexHeldCount
  function IncrementHeld(p: Priorities, t: Task): Priorities {
    p.(held := p.held[t := Held(p, t) + 1])
  }

  // ----- the machine -----------------------------------------------------------------------------

  // woken, which the program does not have, holds the tasks that a give has woken and that have not
  // tried again since.
  datatype Mutex = Mutex(holder: Holder, waiting: seq<Task>, woken: set<Task>)

  // noted: the tasks whose xInheritanceOccurred is true.
  datatype System = System(p: Priorities, mutexes: seq<Mutex>, ready: set<Task>, current: Task, noted: set<Task>)

  // TakeStep, BlockStep and RetryStep are what xQueueSemaphoreTake does once it has found the mutex free,
  // held, or held again after it had been woken; GiveUpStep is its end once the block time has expired.
  // (Before that takes effect the mutex may have been given after all.)
  datatype Step = TakeStep(m: nat) | BlockStep(m: nat) | RetryStep(m: nat) | GiveUpStep(m: nat) | GiveStep(m: nat)
                | ExpireStep(m: nat, t: Task) | SleepStep | WakeStep(t: Task) | RunStep(t: Task)

  // prvGetDisinheritPriorityAfterTimeout
  function HighestWaiting(p: Priorities, x: Mutex): nat {
    if x.waiting == [] then 0
    else
      var v := ValueOf(p.value, x.waiting[0]);
      if v <= StateLists.configMAX_PRIORITIES then StateLists.configMAX_PRIORITIES - v else 0
  }

  function Take(s: System, m: nat): System
    requires m < |s.mutexes|
  {
    var x := s.mutexes[m];
    s.(p := IncrementHeld(s.p, s.current), noted := s.noted - {s.current},
       mutexes := s.mutexes[m := x.(holder := HeldBy(s.current), woken := x.woken - {s.current})])
  }

  function Block(s: System, m: nat): System
    requires m < |s.mutexes|
  {
    var x := s.mutexes[m];
    var q := Inherit(s.p, x.holder, s.current);
    s.(p := q, ready := s.ready - {s.current},
       noted := if Inherited(s.p, x.holder, s.current) then s.noted + {s.current} else s.noted - {s.current},
       mutexes := s.mutexes[m := x.(waiting := InsertByValue(x.waiting, q.value, s.current),
                                    woken := x.woken - {s.current})])
  }

  function Retry(s: System, m: nat): System
    requires m < |s.mutexes|
  {
    s.(mutexes := s.mutexes[m := s.mutexes[m].(woken := s.mutexes[m].woken - {s.current})])
  }

  function GiveUp(s: System, m: nat): System
    requires m < |s.mutexes|
  {
    var x := s.mutexes[m];
    s.(p := if s.current in s.noted then DisinheritAfterTimeout(s.p, x.holder, HighestWaiting(s.p, x)) else s.p,
       noted := s.noted - {s.current})
  }

  function Give(s: System, m: nat): System
    requires m < |s.mutexes|
  {
    var x := s.mutexes[m];
    var q := s.(p := Disinherit(s.p, x.holder));
    if x.waiting == [] then q.(mutexes := s.mutexes[m := x.(holder := NoTask)])
    else
      q.(ready := s.ready + {x.waiting[0]},
         mutexes := s.mutexes[m := Mutex(NoTask, x.waiting[1..], x.woken + {x.waiting[0]})])
  }

  function Expire(s: System, m: nat, t: Task): System
    requires m < |s.mutexes|
  {
    s.(ready := s.ready + {t}, mutexes := s.mutexes[m := s.mutexes[m].(waiting := Without(s.mutexes[m].waiting, t))])
  }

  function Apply(s: System, st: Step): System {
    match st
    case TakeStep(m) => if m < |s.mutexes| then Take(s, m) else s
    case BlockStep(m) => if m < |s.mutexes| then Block(s, m) else s
    case RetryStep(m) => if m < |s.mutexes| then Retry(s, m) else s
    case GiveUpStep(m) => if m < |s.mutexes| then GiveUp(s, m) else s
    case GiveStep(m) => if m < |s.mutexes| then Give(s, m) else s
    case ExpireStep(m, t) => if m < |s.mutexes| then Expire(s, m, t) else s
    case SleepStep => s.(ready := s.ready - {s.current})
    case WakeStep(t) => s.(ready := s.ready + {t})
    case RunStep(t) => s.(current := t)
  }

  // No ready task has a higher priority than the running one.
  ghost predicate RunsHighest(s: System) {
    s.current in s.ready && forall t :: t in s.ready ==> Prio(s.p, t) <= Prio(s.p, s.current)
  }

  predicate WokenElsewhere(s: System, m: nat, t: Task) {
    exists i :: 0 <= i < |s.mutexes| && i != m && t in s.mutexes[i].woken
  }

  predicate WaitsSomewhere(s: System, t: Task) {
    exists i :: 0 <= i < |s.mutexes| && t in s.mutexes[i].waiting
  }

  // What the source allows. A task that a give has woken first tries to take that mutex again.
  ghost predicate Allowed(s: System, st: Step) {
    match st
    case TakeStep(m) => Calls(s, m) && s.mutexes[m].holder.NoTask?
    case BlockStep(m) => Calls(s, m) && s.mutexes[m].holder.HeldBy?
    case RetryStep(m) => Calls(s, m) && s.mutexes[m].holder.HeldBy?
    case GiveUpStep(m) => Calls(s, m) && s.current !in s.mutexes[m].woken
    case GiveStep(m) => Calls(s, m) && s.mutexes[m].holder == HeldBy(s.current)
    case ExpireStep(m, t) => m < |s.mutexes| && t in s.mutexes[m].waiting
    case SleepStep => forall i :: 0 <= i < |s.mutexes| ==> s.current !in s.mutexes[i].woken
    case WakeStep(t) => !WaitsSomewhere(s, t) && t in s.p.prio
    case RunStep(t) => t in s.ready
  }

  predicate Calls(s: System, m: nat) {
    m < |s.mutexes| && s.current in s.ready && !WokenElsewhere(s, m, s.current)
  }

  // Tasks block on a mutex only while they hold none.
  ghost predicate Can(s: System, st: Step) {
    Allowed(s, st) && (st.BlockStep? ==> Held(s.p, s.current) == 0)
  }

  // A mutex is taken only by a task that nobody who waits for it outranks.
  predicate Guarded(s: System, st: Step) {
    st.TakeStep? && st.m < |s.mutexes| ==> NobodyAbove(s, st.m)
  }

  predicate NobodyAbove(s: System, m: nat)
    requires m < |s.mutexes|
  {
    forall t :: t in s.mutexes[m].waiting ==> Prio(s.p, t) <= Prio(s.p, s.current)
  }

  // ----- the invariant ---------------------------------------------------------------------------

  function Holding(mutexes: seq<Mutex>, t: Task): set<nat> {
    set i: nat | i < |mutexes| && mutexes[i].holder == HeldBy(t)
  }

  // The priorities themselves.
  ghost predicate PrioritiesOk(p: Priorities) {
    && p.prio.Keys == p.base.Keys == p.held.Keys == p.value.Keys
    && (forall t :: t in p.prio ==>
          && p.prio[t] < StateLists.configMAX_PRIORITIES && p.base[t] <= p.prio[t]
          && (p.held[t] == 0 ==> p.prio[t] == p.base[t])
          && p.value[t] == ItemValue(p.prio[t]))
  }

  ghost predicate Counted(s: System) {
    forall t :: t in s.p.held ==> s.p.held[t] == |Holding(s.mutexes, t)|
  }

  // Tasks that wait on x hold nothing and are not ready, those woken hold nothing and are ready.
  ghost predicate QueueOk(x: Mutex, s: System) {
    && NoDup(x.waiting) && Sorted(x.waiting, s.p.value)
    && (forall t :: t in x.waiting ==> t in s.p.held && s.p.held[t] == 0 && t !in s.ready)
    && (forall t :: t in x.woken ==> t in s.p.held && s.p.held[t] == 0 && t in s.ready)
    && (x.holder.HeldBy? ==> x.holder.t in s.p.prio)
  }

  // The claim: the holder runs at least at the priority of every task that waits for it; and when the
  // mutex is free, a task woken for it does.
  ghost predicate Covered(x: Mutex, p: Priorities) {
    && (x.holder.HeldBy? ==> forall t :: t in x.waiting ==> Prio(p, t) <= Prio(p, x.holder.t))
    && (x.holder.NoTask? && x.waiting != [] ==>
          exists w :: w in x.woken && forall t :: t in x.waiting ==> Prio(p, t) <= Prio(p, w))
  }

  ghost predicate WaitsOnce(mutexes: seq<Mutex>) {
    forall i, j, t ::
      (0 <= i < |mutexes| && 0 <= j < |mutexes| && t in mutexes[i].waiting && t in mutexes[j].waiting) ==> i == j
  }

  ghost predicate Inv(s: System) {
    && PrioritiesOk(s.p) && Counted(s) && WaitsOnce(s.mutexes)
    && s.current in s.p.prio && (forall t :: t in s.ready ==> t in s.p.prio)
    && (forall i :: 0 <= i < |s.mutexes| ==> QueueOk(s.mutexes[i], s) && Covered(s.mutexes[i], s.p))
  }

  // ----- parts of the proof ----------------------------------------------------------------------

  lemma ElementAlone(a: set<nat>, x: nat)
    requires |a| == 1 && x in a
    ensures a == {x}
  {
    assert |a - {x}| == 0;
    assert a - {x} == {};
  }

  lemma HoldsOne(s: System, t: Task, m: nat, i: nat)
    requires Counted(s) && t in s.p.held && s.p.held[t] == 1
    requires m < |s.mutexes| && s.mutexes[m].holder == HeldBy(t)
    requires i < |s.mutexes| && s.mutexes[i].holder == HeldBy(t)
    ensures i == m
  {
    ElementAlone(Holding(s.mutexes, t), m);
    assert i in Holding(s.mutexes, t);
  }

  // Taking and giving change what one task holds by one mutex, and what the others hold not at all.
  lemma HoldingTaken(mutexes: seq<Mutex>, m: nat, x: Mutex, t: Task)
    requires m < |mutexes| && mutexes[m].holder.NoTask? && x.holder == HeldBy(t)
    ensures |Holding(mutexes[m := x], t)| == |Holding(mutexes, t)| + 1
    ensures forall u :: u != t ==> Holding(mutexes[m := x], u) == Holding(mutexes, u)
  {
    assert Holding(mutexes[m := x], t) == Holding(mutexes, t) + {m};
  }

  lemma HoldingGiven(mutexes: seq<Mutex>, m: nat, x: Mutex, t: Task)
    requires m < |mutexes| && mutexes[m].holder == HeldBy(t) && x.holder.NoTask?
    ensures |Holding(mutexes[m := x], t)| == |Holding(mutexes, t)| - 1
    ensures forall u :: u != t ==> Holding(mutexes[m := x], u) == Holding(mutexes, u)
  {
    assert Holding(mutexes[m := x], t) == Holding(mutexes, t) - {m};
  }

  lemma HoldingSame(mutexes: seq<Mutex>, m: nat, x: Mutex)
    requires m < |mutexes| && mutexes[m].holder == x.holder
    ensures forall u :: Holding(mutexes[m := x], u) == Holding(mutexes, u)
  {
  }

  // The first waiting task has the highest priority.
  lemma FirstIsHighest(x: Mutex, s: System)
    requires PrioritiesOk(s.p) && QueueOk(x, s) && x.waiting != []
    ensures forall t :: t in x.waiting ==> Prio(s.p, t) <= Prio(s.p, x.waiting[0])
    ensures HighestWaiting(s.p, x) == Prio(s.p, x.waiting[0])
  {
    assert x.waiting[0] in x.waiting;
  }

  // A change of priority of a task that holds something matters only to what it holds.
  lemma ChangeKeeps(x: Mutex, s: System, h: Task, level: nat)
    requires QueueOk(x, s) && Covered(x, s.p) && h in s.p.held && s.p.held[h] > 0
    requires x.holder == HeldBy(h) ==> forall t :: t in x.waiting ==> Prio(s.p, t) <= level
    ensures QueueOk(x, s.(p := WithPrio(s.p, h, level))) && Covered(x, WithPrio(s.p, h, level))
  {
    var p := WithPrio(s.p, h, level);
    assert h !in x.waiting && h !in x.woken;
    assert forall t :: t != h ==> Prio(p, t) == Prio(s.p, t);
  }

  lemma ChangeOk(p: Priorities, h: Task, level: nat)
    requires PrioritiesOk(p) && h in p.prio && p.base[h] <= level < StateLists.configMAX_PRIORITIES && p.held[h] > 0
    ensures PrioritiesOk(WithPrio(p, h, level))
  {
    var q := WithPrio(p, h, level);
    assert q.prio.Keys == p.prio.Keys && q.value.Keys == p.value.Keys;
  }

  // ----- every step keeps the invariant ----------------------------------------------------------

  ghost predicate QueuesOk(s: System) {
    forall i :: 0 <= i < |s.mutexes| ==> QueueOk(s.mutexes[i], s) && Covered(s.mutexes[i], s.p)
  }

  lemma InvParts(s: System)
    ensures Inv(s) <==> PrioritiesOk(s.p) && Counted(s) && WaitsOnce(s.mutexes) && QueuesOk(s)
                        && s.current in s.p.prio && (forall t :: t in s.ready ==> t in s.p.prio)
  {
  }

  lemma QueueAt(s: System, i: nat)
    requires Inv(s) && i < |s.mutexes|
    ensures QueueOk(s.mutexes[i], s) && Covered(s.mutexes[i], s.p)
    ensures PrioritiesOk(s.p) && Counted(s) && WaitsOnce(s.mutexes) && QueuesOk(s)
  {
  }

  lemma FirstWaits(s: System, m: nat)
    requires Inv(s) && m < |s.mutexes| && s.mutexes[m].waiting != []
    ensures var w := s.mutexes[m].waiting[0];
            && w in s.mutexes[m].waiting && w in s.p.held && s.p.held[w] == 0 && w in s.p.prio && w !in s.ready
            && forall i :: 0 <= i < |s.mutexes| && i != m ==> w !in s.mutexes[i].waiting
  {
    assert QueueOk(s.mutexes[m], s);
    assert s.mutexes[m].waiting[0] in s.mutexes[m].waiting;
  }

  lemma BusyIsNeither(x: Mutex, s: System, h: Task)
    requires QueueOk(x, s) && h in s.p.held && s.p.held[h] > 0
    ensures h !in x.waiting && h !in x.woken
  {
  }

  lemma ReadyNotWaiting(s: System, t: Task)
    requires QueuesOk(s) && t in s.ready
    ensures forall i :: 0 <= i < |s.mutexes| ==> t !in s.mutexes[i].waiting
  {
    forall i | 0 <= i < |s.mutexes| ensures t !in s.mutexes[i].waiting {
      assert QueueOk(s.mutexes[i], s);
    }
  }

  lemma HolderHolds(s: System, m: nat)
    requires PrioritiesOk(s.p) && Counted(s) && QueuesOk(s) && m < |s.mutexes| && s.mutexes[m].holder.HeldBy?
    ensures s.mutexes[m].holder.t in s.p.held && s.p.held[s.mutexes[m].holder.t] > 0
  {
    assert QueueOk(s.mutexes[m], s);
    assert m in Holding(s.mutexes, s.mutexes[m].holder.t);
  }

  lemma TakenQueue(s: System, s': System, i: nat, m: nat)
    requires QueuesOk(s) && Can(s, TakeStep(m)) && i < |s.mutexes| && s' == Take(s, m) && NobodyAbove(s, m)
    requires PrioritiesOk(s.p) && s.current in s.p.prio
    ensures QueueOk(s'.mutexes[i], s') && Covered(s'.mutexes[i], s'.p)
  {
    assert QueueOk(s.mutexes[i], s) && Covered(s.mutexes[i], s.p);
  }

  lemma TakenPriorities(p: Priorities, t: Task)
    requires PrioritiesOk(p) && t in p.prio
    ensures PrioritiesOk(IncrementHeld(p, t))
  {
  }

  lemma TakenCounted(s: System, m: nat)
    requires Counted(s) && m < |s.mutexes| && s.mutexes[m].holder.NoTask? && s.current in s.p.held
    ensures Counted(Take(s, m))
  {
    HoldingTaken(s.mutexes, m, Take(s, m).mutexes[m], s.current);
    hide Holding;
  }

  lemma TakeKeeps(s: System, m: nat)
    requires m < |s.mutexes| && Inv(s) && Can(s, TakeStep(m)) && NobodyAbove(s, m)
    ensures Inv(Take(s, m))
  {
    var r := Take(s, m);
    InvParts(s);
    InvParts(r);
    TakeSize(s, m);
    KnownHeld(s.p, s.current);
    hide Inv, PrioritiesOk, Counted, WaitsOnce, Covered, QueueOk, Take, NobodyAbove;
    TakenPriorities(s.p, s.current);
    TakenCounted(s, m);
    GivenOnce(s.mutexes, m, r.mutexes[m]);
    forall i | 0 <= i < |r.mutexes| ensures QueueOk(r.mutexes[i], r) && Covered(r.mutexes[i], r.p) {
      TakenQueue(s, r, i, m);
    }
  }

  lemma KnownHeld(p: Priorities, t: Task)
    requires PrioritiesOk(p) && t in p.prio
    ensures t in p.held
  {
  }

  lemma TakeSize(s: System, m: nat)
    requires m < |s.mutexes|
    ensures var r := Take(s, m);
            && |r.mutexes| == |s.mutexes| && r.mutexes == s.mutexes[m := r.mutexes[m]]
            && r.mutexes[m].waiting == s.mutexes[m].waiting && r.p == IncrementHeld(s.p, s.current)
            && r.p.prio == s.p.prio && r.current == s.current && r.ready == s.ready
  {
  }

  // A task other than those that wait or have been woken changes its priority.
  lemma ChangeQueues(s: System, h: Task, level: nat)
    requires QueuesOk(s) && h in s.p.held && s.p.held[h] > 0
    requires forall i, t ::
               (0 <= i < |s.mutexes| && s.mutexes[i].holder == HeldBy(h) && t in s.mutexes[i].waiting) ==>
                 Prio(s.p, t) <= level
    ensures QueuesOk(s.(p := WithPrio(s.p, h, level)))
  {
    hide Covered, QueueOk, WithPrio;
    forall i | 0 <= i < |s.mutexes|
      ensures QueueOk(s.mutexes[i], s.(p := WithPrio(s.p, h, level))) && Covered(s.mutexes[i], WithPrio(s.p, h, level))
    {
      ChangeKeeps(s.mutexes[i], s, h, level);
    }
  }

  lemma ChangeCounted(s: System, h: Task, level: nat)
    requires Counted(s)
    ensures Counted(s.(p := WithPrio(s.p, h, level)))
  {
  }

  // The inheritance itself.
  lemma InheritKeeps(s: System, m: nat)
    requires m < |s.mutexes| && Inv(s) && Can(s, BlockStep(m))
    ensures Inv(s.(p := Inherit(s.p, s.mutexes[m].holder, s.current)))
    ensures Prio(Inherit(s.p, s.mutexes[m].holder, s.current), s.mutexes[m].holder.t) >= Prio(s.p, s.current)
    ensures Prio(Inherit(s.p, s.mutexes[m].holder, s.current), s.current) == Prio(s.p, s.current)
    ensures Held(Inherit(s.p, s.mutexes[m].holder, s.current), s.current) == 0
  {
    InvParts(s);
    HolderHolds(s, m);
    var h, level := s.mutexes[m].holder.t, Prio(s.p, s.current);
    assert h != s.current;
    if Prio(s.p, h) < level {
      forall i, t | 0 <= i < |s.mutexes| && s.mutexes[i].holder == HeldBy(h) && t in s.mutexes[i].waiting
        ensures Prio(s.p, t) <= level
      {
        assert Covered(s.mutexes[i], s.p);
      }
      ChangeQueues(s, h, level);
      ChangeOk(s.p, h, level);
      ChangeCounted(s, h, level);
      hide QueuesOk, Counted, PrioritiesOk;
      InvParts(s.(p := WithPrio(s.p, h, level)));
    }
  }

  // Then the task joins the waiting list.
  function Join(s: System, m: nat, noted: set<Task>): System
    requires m < |s.mutexes|
  {
    var x := s.mutexes[m];
    s.(ready := s.ready - {s.current}, noted := noted,
       mutexes := s.mutexes[m := x.(waiting := InsertByValue(x.waiting, s.p.value, s.current),
                                    woken := x.woken - {s.current})])
  }

  lemma JoinedQueue(s: System, m: nat, noted: set<Task>, i: nat)
    requires QueuesOk(s) && PrioritiesOk(s.p) && m < |s.mutexes| && i < |s.mutexes|
    requires s.current in s.ready && s.current in s.p.prio && s.p.held[s.current] == 0
    requires !WokenElsewhere(s, m, s.current)
    requires s.mutexes[m].holder.HeldBy? && Prio(s.p, s.current) <= Prio(s.p, s.mutexes[m].holder.t)
    ensures QueueOk(Join(s, m, noted).mutexes[i], Join(s, m, noted)) && Covered(Join(s, m, noted).mutexes[i], s.p)
  {
    assert QueueOk(s.mutexes[i], s) && Covered(s.mutexes[i], s.p);
    if i == m {
      InsertByValueSorted(s.mutexes[m].waiting, s.p.value, s.current);
      InsertByValueNoDup(s.mutexes[m].waiting, s.p.value, s.current);
    }
    hide Sorted, NoDup;
  }

  lemma JoinKeeps(s: System, m: nat, noted: set<Task>)
    requires Inv(s) && m < |s.mutexes|
    requires s.current in s.ready && Held(s.p, s.current) == 0 && !WokenElsewhere(s, m, s.current)
    requires s.mutexes[m].holder.HeldBy? && Prio(s.p, s.current) <= Prio(s.p, s.mutexes[m].holder.t)
    ensures Inv(Join(s, m, noted))
  {
    var s' := Join(s, m, noted);
    InvParts(s);
    InvParts(s');
    ReadyNotWaiting(s, s.current);
    assert WaitsOnce(s'.mutexes);
    HoldingSame(s.mutexes, m, s'.mutexes[m]);
    hide Covered, QueueOk, WaitsOnce, WokenElsewhere;
    forall i | 0 <= i < |s'.mutexes| ensures QueueOk(s'.mutexes[i], s') && Covered(s'.mutexes[i], s'.p) {
      JoinedQueue(s, m, noted, i);
    }
  }

  lemma BlockKeeps(s: System, m: nat)
    requires m < |s.mutexes| && Inv(s) && Can(s, BlockStep(m))
    ensures Inv(Block(s, m))
  {
    var q := s.(p := Inherit(s.p, s.mutexes[m].holder, s.current));
    InheritKeeps(s, m);
    hide Inv, Inherit, Inherited;
    JoinKeeps(q, m, Block(s, m).noted);
    assert Block(s, m) == Join(q, m, Block(s, m).noted);
  }

  // A waiting list or the woken tasks of one mutex lose members.
  lemma TimeoutLevel(s: System, m: nat, level: nat)
    requires Inv(s) && m < |s.mutexes| && s.mutexes[m].holder.HeldBy?
    requires var highest := HighestWaiting(s.p, s.mutexes[m]);
             level == if Base(s.p, s.mutexes[m].holder.t) < highest then highest else Base(s.p, s.mutexes[m].holder.t)
    ensures var h := s.mutexes[m].holder.t;
            && h in s.p.prio && h in s.p.held && s.p.base[h] <= level < StateLists.configMAX_PRIORITIES
            && forall t :: t in s.mutexes[m].waiting ==> Prio(s.p, t) <= level
  {
    var x := s.mutexes[m];
    QueueAt(s, m);
    HolderKnown(s, m);
    hide Inv, Counted, WaitsOnce, QueuesOk, Covered;
    if x.waiting != [] {
      FirstIsHighest(x, s);
      FirstWaits(s, m);
      hide Sorted, QueueOk, HighestWaiting;
    }
  }

  lemma LowerKeeps(s: System, m: nat, h: Task, level: nat)
    requires Inv(s) && m < |s.mutexes| && s.mutexes[m].holder == HeldBy(h) && h in s.p.held && s.p.held[h] == 1
    requires h in s.p.prio && s.p.base[h] <= level < StateLists.configMAX_PRIORITIES
    requires forall t :: t in s.mutexes[m].waiting ==> Prio(s.p, t) <= level
    ensures Inv(s.(p := WithPrio(s.p, h, level)))
  {
    hide Inv, Counted, WaitsOnce, QueuesOk, PrioritiesOk, WithPrio, Prio;
    QueueAt(s, m);
    forall i, t | 0 <= i < |s.mutexes| && s.mutexes[i].holder == HeldBy(h) && t in s.mutexes[i].waiting
      ensures Prio(s.p, t) <= level
    {
      HoldsOne(s, h, m, i);
    }
    ChangeQueues(s, h, level);
    ChangeOk(s.p, h, level);
    ChangeCounted(s, h, level);
    ChangeKeys(s.p, h, level);
    InvParts(s);
    InvParts(s.(p := WithPrio(s.p, h, level)));
  }

  lemma ChangeKeys(p: Priorities, h: Task, level: nat)
    requires h in p.prio
    ensures WithPrio(p, h, level).prio.Keys == p.prio.Keys
  {
  }

  lemma AfterTimeoutKeeps(s: System, m: nat)
    requires Inv(s) && m < |s.mutexes| && s.mutexes[m].holder.HeldBy?
    ensures Inv(s.(p := DisinheritAfterTimeout(s.p, s.mutexes[m].holder, HighestWaiting(s.p, s.mutexes[m]))))
  {
    hide Inv, HighestWaiting, WithPrio;
    var h, highest := s.mutexes[m].holder.t, HighestWaiting(s.p, s.mutexes[m]);
    var level := if Base(s.p, h) < highest then highest else Base(s.p, h);
    TimeoutLevel(s, m, level);
    if s.p.held[h] == 1 {
      LowerKeeps(s, m, h, level);
    }
  }

  // The woken task is not needed to cover the others: the mutex is held.
  lemma RetriedQueue(s: System, m: nat, i: nat)
    requires m < |s.mutexes| && Inv(s) && Can(s, RetryStep(m)) && i < |s.mutexes|
    ensures QueueOk(Retry(s, m).mutexes[i], Retry(s, m)) && Covered(Retry(s, m).mutexes[i], s.p)
  {
    QueueAt(s, i);
    hide Sorted, NoDup, Prio;
  }

  lemma RetrySize(s: System, m: nat)
    requires m < |s.mutexes|
    ensures var r := Retry(s, m);
            && |r.mutexes| == |s.mutexes| && r.mutexes == s.mutexes[m := r.mutexes[m]] && r.p == s.p
            && r.mutexes[m].holder == s.mutexes[m].holder && r.mutexes[m].waiting == s.mutexes[m].waiting
            && r.current == s.current && r.ready == s.ready
  {
  }

  lemma RetryKeeps(s: System, m: nat)
    requires m < |s.mutexes| && Inv(s) && Can(s, RetryStep(m))
    ensures Inv(Retry(s, m))
  {
    hide Inv, QueueOk, Covered, PrioritiesOk, Counted, WaitsOnce, Retry;
    var r := Retry(s, m);
    QueueAt(s, m);
    RetrySize(s, m);
    CountedSame(s, r, m);
    GivenOnce(s.mutexes, m, r.mutexes[m]);
    forall i | 0 <= i < |r.mutexes| ensures QueueOk(r.mutexes[i], r) && Covered(r.mutexes[i], r.p) {
      RetriedQueue(s, m, i);
    }
    InvParts(s);
    InvParts(r);
  }

  lemma NotedKeeps(s: System, noted: set<Task>)
    requires Inv(s)
    ensures Inv(s.(noted := noted))
  {
    var r := s.(noted := noted);
    InvParts(s);
    InvParts(r);
    hide Inv, Covered, PrioritiesOk;
    forall i | 0 <= i < |r.mutexes| ensures QueueOk(r.mutexes[i], r) && Covered(r.mutexes[i], r.p) {
      QueueAt(s, i);
    }
  }

  lemma GiveUpKeeps(s: System, m: nat)
    requires m < |s.mutexes| && Inv(s) && Can(s, GiveUpStep(m))
    ensures Inv(GiveUp(s, m))
  {
    if s.mutexes[m].holder.HeldBy? {
      AfterTimeoutKeeps(s, m);
    }
    assert s.(p := s.p) == s;
    hide Inv, DisinheritAfterTimeout, HighestWaiting;
    NotedKeeps(s.(p := GiveUp(s, m).p), s.noted - {s.current});
  }

  // ----- giving ----------------------------------------------------------------------------------

  lemma GivenPriorities(p: Priorities, h: Task)
    requires PrioritiesOk(p) && h in p.prio && h in p.held && p.held[h] > 0
    ensures PrioritiesOk(Disinherit(p, HeldBy(h)))
  {
    var q := Disinherit(p, HeldBy(h));
    assert q.prio.Keys == p.prio.Keys && q.value.Keys == p.value.Keys && q.held.Keys == p.held.Keys;
  }

  // What a give changes: one count, and the priority only if nothing else is held.
  lemma GivenFields(p: Priorities, h: Task)
    requires h in p.held && p.held[h] > 0
    ensures var q := Disinherit(p, HeldBy(h));
            && q.held == p.held[h := p.held[h] - 1] && q.base == p.base
            && (forall t :: t != h ==> Prio(q, t) == Prio(p, t))
            && (p.held[h] > 1 ==> Prio(q, h) == Prio(p, h))
            && (h in p.prio && h in p.value ==> q.prio.Keys == p.prio.Keys && q.value.Keys == p.value.Keys)
  {
  }

  lemma GivenSorted(s: seq<Task>, p: Priorities, h: Task)
    requires Sorted(s, p.value) && h !in s
    ensures Sorted(s, Disinherit(p, HeldBy(h)).value)
  {
  }

  // A mutex that is not given: its holder, if it is the giver, holds more than the one it gives.
  lemma GivenOther(x: Mutex, s: System, h: Task, r: System)
    requires QueueOk(x, s) && Covered(x, s.p) && h in s.p.held && s.p.held[h] > 0
    requires r.p.held == s.p.held[h := s.p.held[h] - 1] && r.p.prio.Keys == s.p.prio.Keys
    requires forall t :: t != h ==> Prio(r.p, t) == Prio(s.p, t)
    requires x.holder == HeldBy(h) ==> Prio(r.p, h) == Prio(s.p, h)
    requires Sorted(x.waiting, r.p.value) && s.ready <= r.ready
    requires forall t :: t in r.ready && t !in s.ready ==> t !in x.waiting
    ensures QueueOk(x, r) && Covered(x, r.p)
  {
    BusyIsNeither(x, s, h);
    hide Sorted, NoDup, Prio;
  }

  // The mutex itself: the first waiting task, now woken, has a priority no lower than the others.
  lemma GivenItself(x: Mutex, s: System, h: Task, r: System)
    requires QueueOk(x, s) && PrioritiesOk(s.p) && h in s.p.held && s.p.held[h] > 0 && x.waiting != []
    requires r.p.held == s.p.held[h := s.p.held[h] - 1] && r.p.prio.Keys == s.p.prio.Keys
    requires forall t :: t != h ==> Prio(r.p, t) == Prio(s.p, t)
    requires Sorted(x.waiting, r.p.value) && r.ready == s.ready + {x.waiting[0]}
    ensures var y := Mutex(NoTask, x.waiting[1..], x.woken + {x.waiting[0]}); QueueOk(y, r) && Covered(y, r.p)
  {
    FirstIsHighest(x, s);
    BusyIsNeither(x, s, h);
    TailWaits(x.waiting, r.p.value);
    hide Sorted, NoDup, Prio, PrioritiesOk;
    assert x.waiting[0] in x.waiting;
  }

  lemma NoneWaits(x: Mutex, s: System, h: Task, r: System)
    requires QueueOk(x, s) && h in s.p.held && s.p.held[h] > 0 && x.waiting == [] && r.ready == s.ready
    requires r.p.held == s.p.held[h := s.p.held[h] - 1]
    ensures QueueOk(x.(holder := NoTask), r) && Covered(x.(holder := NoTask), r.p)
  {
  }

  lemma TailWaits(q: seq<Task>, v: map<Task, nat>)
    requires NoDup(q) && Sorted(q, v) && q != []
    ensures NoDup(q[1..]) && Sorted(q[1..], v) && q[0] !in q[1..]
    ensures forall t :: t in q[1..] ==> t in q
  {
  }

  lemma GiveSize(s: System, m: nat)
    requires m < |s.mutexes|
    ensures var r, x := Give(s, m), s.mutexes[m];
            && |r.mutexes| == |s.mutexes| && r.mutexes[m].holder.NoTask? && r.p == Disinherit(s.p, x.holder)
            && (forall i :: 0 <= i < |s.mutexes| && i != m ==> r.mutexes[i] == s.mutexes[i])
            && (forall t :: t in r.mutexes[m].waiting ==> t in x.waiting)
            && r.mutexes == s.mutexes[m := r.mutexes[m]] && r.current == s.current && s.ready <= r.ready
            && (x.waiting == [] ==> r.ready == s.ready && r.mutexes[m] == x.(holder := NoTask))
            && (x.waiting != [] ==> r.ready == s.ready + {x.waiting[0]}
                                    && r.mutexes[m] == Mutex(NoTask, x.waiting[1..], x.woken + {x.waiting[0]}))
  {
  }

  lemma GivenQueue(s: System, m: nat, i: nat)
    requires m < |s.mutexes| && Inv(s) && Can(s, GiveStep(m)) && i < |s.mutexes|
    ensures |Give(s, m).mutexes| == |s.mutexes|
    ensures QueueOk(Give(s, m).mutexes[i], Give(s, m)) && Covered(Give(s, m).mutexes[i], Give(s, m).p)
  {
    hide Inv, QueueOk, Covered, PrioritiesOk, Counted, WaitsOnce, QueuesOk, Disinherit, Give, Prio;
    var x, h, r := s.mutexes[i], s.current, Give(s, m);
    QueueAt(s, i);
    QueueAt(s, m);
    HolderHolds(s, m);
    HolderKnown(s, m);
    GivenFields(s.p, h);
    GiveSize(s, m);
    BusyIsNeither(x, s, h);
    GivenSorted(SortedWaiting(x, s), s.p, h);
    if s.mutexes[m].waiting != [] {
      FirstWaits(s, m);
    }
    if i != m {
      if x.holder == HeldBy(h) && s.p.held[h] == 1 {
        HoldsOne(s, h, m, i);
      }
      GivenOther(x, s, h, r);
    } else if x.waiting != [] {
      GivenItself(x, s, h, r);
    } else {
      NoneWaits(x, s, h, r);
    }
  }

  // The waiting list, which is sorted.
  function SortedWaiting(x: Mutex, s: System): (q: seq<Task>)
    requires QueueOk(x, s)
    ensures q == x.waiting && Sorted(q, s.p.value)
  {
    x.waiting
  }

  lemma HolderKnown(s: System, m: nat)
    requires Inv(s) && m < |s.mutexes| && s.mutexes[m].holder.HeldBy?
    ensures s.mutexes[m].holder.t in s.p.prio && s.mutexes[m].holder.t in s.p.value
  {
    assert QueueOk(s.mutexes[m], s);
  }

  lemma GivenCounted(s: System, m: nat, r: System)
    requires Counted(s) && m < |s.mutexes| && s.mutexes[m].holder.HeldBy? && |r.mutexes| == |s.mutexes|
    requires r.mutexes == s.mutexes[m := r.mutexes[m]] && r.mutexes[m].holder.NoTask?
    requires var h := s.mutexes[m].holder.t;
             h in s.p.held && s.p.held[h] > 0 && r.p.held == s.p.held[h := s.p.held[h] - 1]
    ensures Counted(r)
  {
    HoldingGiven(s.mutexes, m, r.mutexes[m], s.mutexes[m].holder.t);
    hide Holding;
  }

  lemma GivenOnce(mutexes: seq<Mutex>, m: nat, y: Mutex)
    requires WaitsOnce(mutexes) && m < |mutexes| && forall t :: t in y.waiting ==> t in mutexes[m].waiting
    ensures WaitsOnce(mutexes[m := y])
  {
  }

  lemma GivenParts(s: System, m: nat)
    requires m < |s.mutexes| && Inv(s) && Can(s, GiveStep(m))
    ensures var r := Give(s, m);
            && PrioritiesOk(r.p) && Counted(r) && WaitsOnce(r.mutexes) && |r.mutexes| == |s.mutexes|
            && r.current in r.p.prio && (forall t :: t in r.ready ==> t in r.p.prio)
  {
    hide Inv, QueueOk, Covered, PrioritiesOk, Counted, WaitsOnce, QueuesOk, Disinherit, Give;
    var r, h := Give(s, m), s.current;
    QueueAt(s, m);
    HolderHolds(s, m);
    HolderKnown(s, m);
    GivenPriorities(s.p, h);
    GivenFields(s.p, h);
    GiveSize(s, m);
    GivenCounted(s, m, r);
    GivenOnce(s.mutexes, m, r.mutexes[m]);
    InvParts(s);
    if s.mutexes[m].waiting != [] {
      FirstWaits(s, m);
    }
  }

  lemma GiveKeeps(s: System, m: nat)
    requires m < |s.mutexes| && Inv(s) && Can(s, GiveStep(m))
    ensures Inv(Give(s, m))
  {
    hide Inv, QueueOk, Covered, PrioritiesOk, Counted, WaitsOnce, Give;
    var r := Give(s, m);
    GivenParts(s, m);
    forall i | 0 <= i < |r.mutexes| ensures QueueOk(r.mutexes[i], r) && Covered(r.mutexes[i], r.p) {
      GivenQueue(s, m, i);
    }
    InvParts(r);
  }

  // ----- time-outs, and tasks that come and go ---------------------------------------------------

  lemma ExpiredQueue(s: System, m: nat, t: Task, i: nat)
    requires m < |s.mutexes| && Inv(s) && Can(s, ExpireStep(m, t)) && i < |s.mutexes|
    ensures QueueOk(Expire(s, m, t).mutexes[i], Expire(s, m, t)) && Covered(Expire(s, m, t).mutexes[i], s.p)
  {
    assert QueueOk(s.mutexes[i], s) && Covered(s.mutexes[i], s.p);
    WithoutNoDup(s.mutexes[m].waiting, t);
    WithoutSorted(s.mutexes[m].waiting, s.p.value, t);
    hide Sorted, NoDup, PrioritiesOk, Counted;
  }

  lemma CountedSame(s: System, r: System, m: nat)
    requires Counted(s) && m < |s.mutexes| == |r.mutexes| && r.mutexes == s.mutexes[m := r.mutexes[m]]
    requires r.mutexes[m].holder == s.mutexes[m].holder && r.p.held == s.p.held
    ensures Counted(r)
  {
    HoldingSame(s.mutexes, m, r.mutexes[m]);
    hide Holding;
  }

  lemma ExpireSize(s: System, m: nat, t: Task)
    requires m < |s.mutexes|
    ensures var r := Expire(s, m, t);
            && |r.mutexes| == |s.mutexes| && r.mutexes == s.mutexes[m := r.mutexes[m]] && r.p == s.p
            && r.mutexes[m].holder == s.mutexes[m].holder && r.current == s.current && r.ready == s.ready + {t}
            && r.mutexes[m].waiting == Without(s.mutexes[m].waiting, t)
  {
  }

  lemma ExpireKeeps(s: System, m: nat, t: Task)
    requires m < |s.mutexes| && Inv(s) && Can(s, ExpireStep(m, t))
    ensures Inv(Expire(s, m, t))
  {
    hide Inv, QueueOk, Covered, PrioritiesOk, Counted, WaitsOnce, NoDup, Expire;
    var r := Expire(s, m, t);
    WaitingKnown(s, m, t);
    InvParts(s);
    InvParts(r);
    QueueAt(s, m);
    ExpireSize(s, m, t);
    CountedSame(s, r, m);
    WithoutNoDup(DistinctWaiting(s.mutexes[m], s), t);
    GivenOnce(s.mutexes, m, r.mutexes[m]);
    forall i | 0 <= i < |r.mutexes| ensures QueueOk(r.mutexes[i], r) && Covered(r.mutexes[i], r.p) {
      ExpiredQueue(s, m, t, i);
    }
  }

  // The waiting list, which has no task twice.
  function DistinctWaiting(x: Mutex, s: System): (q: seq<Task>)
    requires QueueOk(x, s)
    ensures q == x.waiting && NoDup(q)
  {
    x.waiting
  }

  lemma WaitingKnown(s: System, m: nat, t: Task)
    requires Inv(s) && m < |s.mutexes| && t in s.mutexes[m].waiting
    ensures t in s.p.prio
  {
    assert QueueOk(s.mutexes[m], s);
  }

  lemma ReadyKeeps(s: System, ready: set<Task>, current: Task)
    requires Inv(s) && current in s.p.prio && forall t :: t in ready ==> t in s.p.prio
    requires forall i, t :: 0 <= i < |s.mutexes| && t in s.mutexes[i].waiting ==> t !in ready
    requires forall i, t :: 0 <= i < |s.mutexes| && t in s.mutexes[i].woken ==> t in ready
    ensures Inv(s.(ready := ready, current := current))
  {
    hide Sorted, NoDup, PrioritiesOk, WaitsOnce;
    forall i | 0 <= i < |s.mutexes|
      ensures QueueOk(s.mutexes[i], s.(ready := ready, current := current)) && Covered(s.mutexes[i], s.p)
    {
      assert QueueOk(s.mutexes[i], s) && Covered(s.mutexes[i], s.p);
    }
  }

  lemma WaitingNotReady(s: System)
    requires Inv(s)
    ensures forall i, t :: 0 <= i < |s.mutexes| && t in s.mutexes[i].waiting ==> t !in s.ready
    ensures forall i, t :: 0 <= i < |s.mutexes| && t in s.mutexes[i].woken ==> t in s.ready
    ensures s.current in s.p.prio && forall t :: t in s.ready ==> t in s.p.prio
  {
    forall i, t | 0 <= i < |s.mutexes|
      ensures (t in s.mutexes[i].waiting ==> t !in s.ready) && (t in s.mutexes[i].woken ==> t in s.ready)
    {
      assert QueueOk(s.mutexes[i], s);
    }
  }

  lemma ReadyStepKeeps(s: System, st: Step)
    requires Inv(s) && Can(s, st) && (st.SleepStep? || st.WakeStep? || st.RunStep?)
    ensures Inv(Apply(s, st))
  {
    hide Inv, Take, Block, Retry, GiveUp, Give, Expire, Calls;
    var s' := Apply(s, st);
    WaitingNotReady(s);
    ReadyKeeps(s, s'.ready, s'.current);
  }

  lemma StepKeeps(s: System, st: Step)
    requires Inv(s) && Can(s, st) && Guarded(s, st)
    ensures Inv(Apply(s, st))
  {
    hide Inv, Take, Block, Retry, GiveUp, Give, Expire, NobodyAbove, WokenElsewhere, WaitsSomewhere;
    if st.SleepStep? || st.WakeStep? || st.RunStep? {
      ReadyStepKeeps(s, st);
    } else {
      match st
      case TakeStep(m) => TakeKeeps(s, m);
      case BlockStep(m) => BlockKeeps(s, m);
      case RetryStep(m) => RetryKeeps(s, m);
      case GiveUpStep(m) => GiveUpKeeps(s, m);
      case GiveStep(m) => GiveKeeps(s, m);
      case ExpireStep(m, t) => ExpireKeeps(s, m, t);
      case _ =>
    }
  }

  // ----- runs ------------------------------------------------------------------------------------

  function Steps(s: System, sts: seq<Step>): System
    decreases |sts|
  {
    if sts == [] then s else Steps(Apply(s, sts[0]), sts[1..])
  }

  ghost predicate CanSteps(s: System, sts: seq<Step>)
    decreases |sts|
  {
    sts == [] || (Can(s, sts[0]) && CanSteps(Apply(s, sts[0]), sts[1..]))
  }

  // Nobody holds a mutex yet, and every task is at its base priority.
  function Started(base: map<Task, nat>, count: nat, current: Task): System {
    System(Priorities(base, base, map t | t in base :: 0, map t | t in base :: ItemValue(base[t])),
           seq(count, _ => Mutex(NoTask, [], {})), base.Keys, current, {})
  }

  lemma StartedInv(base: map<Task, nat>, count: nat, current: Task)
    requires current in base && forall t :: t in base ==> base[t] < StateLists.configMAX_PRIORITIES
    ensures Inv(Started(base, count, current))
  {
    var s := Started(base, count, current);
    assert s.p.held.Keys == base.Keys && s.p.value.Keys == base.Keys;
    forall t | t in s.p.held ensures s.p.held[t] == |Holding(s.mutexes, t)| {
      assert Holding(s.mutexes, t) == {};
    }
  }

  predicate GuardedSteps(s: System, sts: seq<Step>)
    decreases |sts|
  {
    sts == [] || (Guarded(s, sts[0]) && GuardedSteps(Apply(s, sts[0]), sts[1..]))
  }

  lemma {:induction false} RunKeeps(s: System, sts: seq<Step>)
    requires Inv(s) && CanSteps(s, sts) && GuardedSteps(s, sts)
    ensures Inv(Steps(s, sts))
    decreases |sts|
  {
    hide Inv, Can, Guarded, Apply;
    if sts != [] {
      StepKeeps(s, sts[0]);
      RunKeeps(Apply(s, sts[0]), sts[1..]);
    }
  }

  // No holder is outranked by a task that waits for it.
  ghost predicate NoneOutranked(s: System) {
    forall i, t :: 0 <= i < |s.mutexes| && s.mutexes[i].holder.HeldBy? && t in s.mutexes[i].waiting ==>
      Prio(s.p, t) <= Prio(s.p, s.mutexes[i].holder.t)
  }

  // Nor is one below its base priority, and a task that holds no mutex has its base priority.
  ghost predicate NoInversion(s: System) {
    && NoneOutranked(s)
    && (forall t :: t in s.p.prio ==> Base(s.p, t) <= Prio(s.p, t))
    && (forall t :: t in s.p.prio && (forall i :: 0 <= i < |s.mutexes| ==> s.mutexes[i].holder != HeldBy(t)) ==>
          Prio(s.p, t) == Base(s.p, t))
  }

  lemma InvNoInversion(s: System)
    requires Inv(s)
    ensures NoInversion(s)
  {
    forall i, t | 0 <= i < |s.mutexes| && s.mutexes[i].holder.HeldBy? && t in s.mutexes[i].waiting
      ensures Prio(s.p, t) <= Prio(s.p, s.mutexes[i].holder.t)
    {
      assert Covered(s.mutexes[i], s.p);
    }
    forall t | t in s.p.prio && forall i :: 0 <= i < |s.mutexes| ==> s.mutexes[i].holder != HeldBy(t)
      ensures Prio(s.p, t) == Base(s.p, t)
    {
      assert Holding(s.mutexes, t) == {};
    }
  }

  // Taking a mutex that is free puts the task above all who wait for it, or it does not.
  lemma TakeInvertsIff(s: System, m: nat)
    requires m < |s.mutexes| && Inv(s) && Can(s, TakeStep(m))
    ensures NoInversion(Take(s, m)) <==> NobodyAbove(s, m)
  {
    if NobodyAbove(s, m) {
      TakeKeeps(s, m);
      hide Inv, Can, Take;
      InvNoInversion(Take(s, m));
    } else {
      var t :| t in s.mutexes[m].waiting && Prio(s.p, t) > Prio(s.p, s.current);
      var r := Take(s, m);
      assert r.mutexes[m].holder == HeldBy(s.current) && t in r.mutexes[m].waiting && r.p.prio == s.p.prio;
    }
  }

  // The task that runs is above them whenever it is a ready task of highest priority.
  lemma HighestIsGuarded(s: System, m: nat)
    requires m < |s.mutexes| && Inv(s) && Can(s, TakeStep(m)) && RunsHighest(s)
    ensures NobodyAbove(s, m)
  {
    assert QueueOk(s.mutexes[m], s) && Covered(s.mutexes[m], s.p);
  }

  // In every state of the run.
  ghost predicate NeverInverts(s: System, sts: seq<Step>)
    decreases |sts|
  {
    NoInversion(s) && (sts == [] || NeverInverts(Apply(s, sts[0]), sts[1..]))
  }

  lemma {:induction false} RunInvertsIff(s: System, sts: seq<Step>)
    requires Inv(s) && CanSteps(s, sts)
    ensures NeverInverts(s, sts) <==> GuardedSteps(s, sts)
    decreases |sts|
  {
    InvNoInversion(s);
    if sts != [] {
      hide Inv, Can, NoInversion, NobodyAbove, Apply;
      if Guarded(s, sts[0]) {
        StepKeeps(s, sts[0]);
        RunInvertsIff(Apply(s, sts[0]), sts[1..]);
      } else {
        TakeInvertsIff(s, sts[0].m);
        TakesStep(s, sts[0]);
        assert !NeverInverts(Apply(s, sts[0]), sts[1..]);
      }
    }
  }

  lemma TakesStep(s: System, st: Step)
    requires st.TakeStep? && st.m < |s.mutexes|
    ensures Apply(s, st) == Take(s, st.m)
  {
  }

  // Over every run from the start: no holder is ever outranked exactly if each mutex is taken by a task
  // that nobody who waits for it outranks.
  lemma NeverInverted(base: map<Task, nat>, count: nat, current: Task, sts: seq<Step>)
    requires current in base && forall t :: t in base ==> base[t] < StateLists.configMAX_PRIORITIES
    requires CanSteps(Started(base, count, current), sts)
    ensures NeverInverts(Started(base, count, current), sts) <==> GuardedSteps(Started(base, count, current), sts)
  {
    hide Inv, CanSteps, NeverInverts, GuardedSteps;
    StartedInv(base, count, current);
    RunInvertsIff(Started(base, count, current), sts);
  }

  lemma {:induction false} StepsAppend(s: System, a: seq<Step>, b: seq<Step>)
    ensures Steps(s, a + b) == Steps(Steps(s, a), b)
    ensures CanSteps(s, a + b) <==> CanSteps(s, a) && CanSteps(Steps(s, a), b)
    decreases |a|
  {
    if a == [] {
      assert a + b == b;
    } else {
      assert (a + b)[0] == a[0] && (a + b)[1..] == a[1..] + b;
      StepsAppend(Apply(s, a[0]), a[1..], b);
    }
  }

  // The start with two mutexes, spelt out.
  lemma StartedWithTwo(base: map<Task, nat>, held: map<Task, nat>, value: map<Task, nat>, current: Task)
    requires held.Keys == value.Keys == base.Keys
    requires forall t :: t in base ==> held[t] == 0 && value[t] == ItemValue(base[t])
    ensures Started(base, 2, current)
         == System(Priorities(base, base, held, value), [Mutex(NoTask, [], {}), Mutex(NoTask, [], {})],
                   base.Keys, current, {})
  {
    assert (map t | t in base :: 0) == held && (map t | t in base :: ItemValue(base[t])) == value;
  }
}
