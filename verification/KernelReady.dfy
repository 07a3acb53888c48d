/** Selecting the task to run, changing priorities, and the promise that no ready task is overlooked. */
module KernelReady {
  import opened ListSpec
  import opened DelayModel
  import opened StateLists
  import opened KernelModel
  import opened KernelSteps

  // ----- selection -----------------------------------------------------------------------------

  // The walk down from uxTopReadyPriority to a list that is not empty.
  function TopPriority(ready: seq<Ring<Task>>, p: nat): (q: nat)
    requires p < |ready|
    ensures q <= p
    ensures forall r :: q < r <= p ==> ready[r].items == []
    ensures ready[q].items == [] ==> q == 0
  {
    if p == 0 || ready[p].items != [] then p else TopPriority(ready, p - 1)
  }

  // Some task is ready: the idle task always is.
  ghost predicate SomeReady(s: Kernel) {
    exists t :: t in s.lists.at && s.lists.at[t].Ready?
  }

  // taskSELECT_HIGHEST_PRIORITY_TASK. (The tests on the list it finds succeed.)
  function Select(s: Kernel): Kernel {
    if s.lists.top < |s.lists.ready| then
      var p := TopPriority(s.lists.ready, s.lists.top);
      var r := s.lists.ready[p];
      if 0 < |r.items| && r.index <= |r.items| then
        s.(current := Pointed(Advance(r)),
           lists := s.lists.(ready := s.lists.ready[p := Advance(r)], top := p))
      else s
    else s
  }

  // vTaskSwitchContext
  function SwitchContext(s: Kernel): Kernel {
    if s.nest > 0 then s.(yieldPending := true) else Select(s.(yieldPending := false))
  }

  lemma TopIsReady(l: StateLists)
    requires Placed(l) && exists t :: t in l.at && l.at[t].Ready?
    ensures l.ready[TopPriority(l.ready, l.top)].items != []
  {
    var t :| t in l.at && l.at[t].Ready?;
    var p := l.at[t].prio;
    assert ReadyAt(l.ready[p], l.at, p);
    assert t in l.ready[p].items;
  }

  // Nothing is ready above the list that is selected.
  lemma NoneAbove(l: StateLists, t: Task)
    requires Placed(l) && t in l.at && l.at[t].Ready?
    ensures l.at[t].prio <= TopPriority(l.ready, l.top)
  {
    var p := l.at[t].prio;
    assert ReadyAt(l.ready[p], l.at, p);
    assert t in l.ready[p].items;
  }

  lemma AdvancedPlaced(l: StateLists, p: nat)
    requires Placed(l) && p <= l.top && (forall r :: p < r <= l.top ==> l.ready[r].items == [])
    requires 0 < |l.ready[p].items| && l.ready[p].index <= |l.ready[p].items|
    ensures Placed(l.(ready := l.ready[p := Advance(l.ready[p])], top := p))
    ensures Pointed(Advance(l.ready[p])) in l.at && l.at[Pointed(Advance(l.ready[p]))] == Ready(p)
  {
    var m := l.(ready := l.ready[p := Advance(l.ready[p])], top := p);
    forall q | 0 <= q < |m.ready| ensures ReadyAt(m.ready[q], m.at, q) {
      assert ReadyAt(l.ready[q], l.at, q);
    }
    assert ReadyAt(l.ready[p], l.at, p);
  }

  // With some task ready, the search ends at a list that has one.
  lemma SelectSteps(s: Kernel)
    requires Placed(s.lists) && SomeReady(s)
    ensures Select(s) == s.(current := Select(s).current, lists := Select(s).lists)
    ensures Placed(Select(s).lists) && Select(s).lists.at == s.lists.at && Select(s).lists.delayed == s.lists.delayed
    ensures Select(s).lists.overflow == s.lists.overflow
    ensures Select(s).current in s.lists.at
    ensures s.lists.at[Select(s).current] == Ready(TopPriority(s.lists.ready, s.lists.top))
  {
    var p := TopPriority(s.lists.ready, s.lists.top);
    TopIsReady(s.lists);
    assert ReadyAt(s.lists.ready[p], s.lists.at, p);
    AdvancedPlaced(s.lists, p);
  }

  // The selected task is ready, and no ready task has a higher priority.
  ghost predicate Highest(s: Kernel) {
    && s.current in s.lists.at && s.lists.at[s.current].Ready?
    && forall t :: t in s.lists.at && s.lists.at[t].Ready? ==> s.lists.at[t].prio <= s.lists.at[s.current].prio
  }

  lemma SelectHighest(s: Kernel)
    requires Placed(s.lists) && SomeReady(s)
    ensures Highest(Select(s))
  {
    SelectSteps(s);
    hide Placed, Select, SomeReady;
    forall t | t in s.lists.at && s.lists.at[t].Ready?
      ensures s.lists.at[t].prio <= s.lists.at[Select(s).current].prio
    {
      NoneAbove(s.lists, t);
    }
  }

  lemma SelectValid(s: Kernel)
    requires Valid(s) && SomeReady(s)
    ensures Valid(Select(s)) && View(Select(s)) == View(s)
  {
    hide Select, Placed, Queued, NextInTime, Pended, Somewhere, InTime, Phases, SomeReady, TopPriority;
    SelectSteps(s);
  }

  lemma SwitchContextValid(s: Kernel)
    requires Valid(s) && SomeReady(s)
    ensures Valid(SwitchContext(s)) && View(SwitchContext(s)) == View(s)
    ensures if s.nest == 0 then Highest(SwitchContext(s)) && !SwitchContext(s).yieldPending
            else SwitchContext(s).yieldPending && SwitchContext(s).current == s.current
  {
    hide Consistent, Structure, Placed, Phases, Select, Highest, TopPriority;
    ValidStructure(s);
    YieldValid(s, false);
    YieldValid(s, true);
    if s.nest == 0 {
      var n := s.(yieldPending := false);
      assert SomeReady(n);
      SelectValid(n);
      SelectSteps(n);
      SelectHighest(n);
    }
  }

  // ----- sharing the processor -----------------------------------------------------------------

  function Switches(s: Kernel, n: nat): Kernel
    decreases n
  {
    if n == 0 then s else Switches(SwitchContext(s), n - 1)
  }

  lemma {:induction false} SwitchesWalk(s: Kernel, n: nat, p: nat)
    requires s.nest == 0 && s.lists.top < |s.lists.ready| && p == TopPriority(s.lists.ready, s.lists.top)
    requires var r := s.lists.ready[p]; 0 < |r.items| && r.index <= |r.items| && n <= |r.items|
    ensures var r := AdvanceBy(s.lists.ready[p], n);
            && Switches(s, n).lists.ready == s.lists.ready[p := r]
            && (n > 0 ==> 0 < r.index <= |r.items| && Switches(s, n).current == Pointed(r))
    decreases n
  {
    if n > 0 {
      var s' := SwitchContext(s);
      SwitchesWalk(s', n - 1, p);
      if n > 1 {
        AdvanceByIndex(s'.lists.ready[p], n - 1);
      }
    }
  }

  lemma SwitchedTo(s: Kernel, n: nat, p: nat)
    requires s.nest == 0 && s.lists.top < |s.lists.ready| && p == TopPriority(s.lists.ready, s.lists.top)
    requires var r := s.lists.ready[p]; 0 < |r.items| && r.index <= |r.items| && 1 <= n <= |r.items|
    ensures var r := s.lists.ready[p];
            var i := AdvanceBy(r, n).index;
            0 < i <= |r.items| && Switches(s, n).current == r.items[i - 1]
  {
    SwitchesWalk(s, n, p);
    AdvanceByIndex(s.lists.ready[p], n);
  }

  lemma AllDifferentAt(items: seq<Task>, i: nat, k: nat)
    requires NoDup(items) && i < |items| && k < |items| && items[i] == items[k]
    ensures i == k
  {
  }

  // Time slicing is fair: in as many switches as there are ready tasks at the highest priority,
  // each of them runs exactly once.
  lemma EqualShares(s: Kernel, k: nat)
    requires s.nest == 0 && s.lists.top < |s.lists.ready|
    requires var r := s.lists.ready[TopPriority(s.lists.ready, s.lists.top)];
             k < |r.items| && r.index <= |r.items| && NoDup(r.items)
    ensures var r := s.lists.ready[TopPriority(s.lists.ready, s.lists.top)];
            var n := if r.index <= k then k + 1 - r.index else k + 1 + |r.items| - r.index;
            && 1 <= n <= |r.items| && Switches(s, n).current == r.items[k]
            && forall m :: 1 <= m <= |r.items| && Switches(s, m).current == r.items[k] ==> m == n
  {
    hide *;
    var p := TopPriority(s.lists.ready, s.lists.top);
    var r := s.lists.ready[p];
    var n := if r.index <= k then k + 1 - r.index else k + 1 + |r.items| - r.index;
    RoundRobin(r, k);
    SwitchedTo(s, n, p);
    forall m | 1 <= m <= |r.items| && Switches(s, m).current == r.items[k] ensures m == n {
      SwitchedTo(s, m, p);
      AllDifferentAt(r.items, AdvanceBy(r, m).index - 1, k);
    }
  }

  // ----- priorities ----------------------------------------------------------------------------

  // A task's priority becomes p; a ready task moves to the list of its new priority.
  function SetPriority(s: Kernel, t: Task, p: nat): Kernel {
    var n := s.(prio := s.prio[t := p]);
    if t in s.lists.at && s.lists.at[t] == Ready(ValueOf(s.prio, t))
    then n.(lists := AddReady(RemoveItem(s.lists, t), t, p)) else n
  }

  lemma ReadyItemsPriority(at: map<Task, Place>, prio: map<Task, nat>, event: map<Task, EventPlace>, t: Task, p: nat)
    requires ReadyItems(at, prio, event) && t in prio && p < configMAX_PRIORITIES
    requires t in at
    ensures ReadyItems(if at[t].Ready? then at[t := Ready(p)] else at, prio[t := p], event)
    ensures at[t].Ready? <==> at[t] == Ready(prio[t])
  {
  }

  lemma SetPriorityMoves(s: Kernel, t: Task, p: nat)
    requires Structure(s) && t in s.prio && p < configMAX_PRIORITIES && t in s.lists.at
    ensures var s' := SetPriority(s, t, p);
            && s' == s.(prio := s.prio[t := p], lists := s'.lists) && Placed(s'.lists)
            && s'.lists.at == (if s.lists.at[t].Ready? then s.lists.at[t := Ready(p)] else s.lists.at)
            && s'.lists.delayed == s.lists.delayed && s'.lists.overflow == s.lists.overflow
  {
    hide Queued, NextInTime, Pended, Somewhere, ReadyItems, Tasks, Placed, Without;
    ReadyItemsPriority(s.lists.at, s.prio, s.event, t, p);
    if s.lists.at[t].Ready? {
      MovedToReady(s.lists, t, p);
      NotBlockedWithout(s.lists, t);
    }
  }

  lemma NotBlockedWithout(l: StateLists, t: Task)
    requires Placed(l) && t in l.at && l.at[t].Ready?
    ensures Without(l.delayed, t) == l.delayed && Without(l.overflow, t) == l.overflow
  {
  }

  lemma SetPriorityStructure(s: Kernel, t: Task, p: nat)
    requires Consistent(s) && t in s.prio && p < configMAX_PRIORITIES && t in s.lists.at
    ensures Consistent(SetPriority(s, t, p))
  {
    hide Epochs, Placed, Queued, NextInTime, Pended, Somewhere, ReadyItems, Tasks, InTime, SetPriority;
    SetPriorityMoves(s, t, p);
    ReadyItemsPriority(s.lists.at, s.prio, s.event, t, p);
    SomewhereMoved(s.lists.at, t, Ready(p));
    PriorityTasks(s.lists.at, s.event, s.value, s.prio, t, p);
  }

  lemma SetPriorityView(s: Kernel, t: Task, p: nat)
    requires Structure(s) && t in s.prio && p < configMAX_PRIORITIES && t in s.lists.at
    ensures View(SetPriority(s, t, p)) == View(s)
  {
    hide Structure, Placed, Phases, SetPriority;
    SetPriorityMoves(s, t, p);
    if s.lists.at[t].Ready? {
      MovedPhases(s.lists.at, s.value, s.epoch, t, Ready(p), 0);
      SamePhase(s, t, p);
    }
  }

  lemma SetPriorityValid(s: Kernel, t: Task, p: nat)
    requires Valid(s) && t in s.prio && p < configMAX_PRIORITIES
    ensures Valid(SetPriority(s, t, p)) && View(SetPriority(s, t, p)) == View(s)
  {
    hide Consistent, Structure, Phases;
    ConsistentStructure(s);
    StructureTasks(s);
    SetPriorityStructure(s, t, p);
    SetPriorityView(s, t, p);
  }

  lemma SamePhase(s: Kernel, t: Task, p: nat)
    requires t in s.lists.at && s.lists.at[t].Ready?
    ensures t in View(s).phase && View(s).phase[t := PhaseOf(Ready(p), 0, s.epoch)] == View(s).phase
  {
  }

  lemma PriorityTasks(at: map<Task, Place>, event: map<Task, EventPlace>, value: map<Task, nat>, prio: map<Task, nat>,
                      t: Task, p: nat)
    requires Tasks(at, event, value, prio) && t in prio
    ensures Tasks(at, event, value, prio[t := p])
    ensures t in at && Tasks(at[t := Ready(p)], event, value, prio[t := p])
  {
  }

  // vTaskPrioritySet: an inherited priority stays, the base priority is replaced.
  function PrioritySet(s: Kernel, t: Task, level: nat): Kernel {
    var p := Clamp(level);
    if ValueOf(s.base, t) == p then s
    else SetPriority(s, t, if ValueOf(s.base, t) == ValueOf(s.prio, t) then p else ValueOf(s.prio, t))
         .(base := s.base[t := p])
  }

  // Whether vTaskPrioritySet yields.
  predicate PriorityYields(s: Kernel, t: Task, level: nat) {
    var p := Clamp(level);
    if p > ValueOf(s.base, t) then t != s.current && p >= ValueOf(s.prio, s.current)
    else p < ValueOf(s.base, t) && t == s.current
  }

  lemma BaseValid(s: Kernel, base: map<Task, nat>)
    ensures Valid(s.(base := base)) == Valid(s) && View(s.(base := base)) == View(s)
  {
    hide Epochs, Placed, Queued, NextInTime, Pended, Somewhere, ReadyItems, Tasks, InTime, Phases;
  }

  lemma KnownPriority(s: Kernel, t: Task)
    requires Valid(s) && t in s.prio
    ensures s.prio[t] < configMAX_PRIORITIES
  {
  }

  lemma PrioritySetValid(s: Kernel, t: Task, level: nat)
    requires Valid(s) && t in s.prio
    ensures Valid(PrioritySet(s, t, level)) && View(PrioritySet(s, t, level)) == View(s)
  {
    hide Valid, View, SetPriority;
    KnownPriority(s, t);
    var p := Clamp(level);
    SetPriorityValid(s, t, p);
    SetPriorityValid(s, t, s.prio[t]);
    BaseValid(SetPriority(s, t, p), s.base[t := p]);
    BaseValid(SetPriority(s, t, s.prio[t]), s.base[t := p]);
  }

  // ----- inheriting and giving back a priority ---------------------------------------------------

  // xTaskPriorityInherit: t holds the mutex that the running task wants.
  function InheritPriority(s: Kernel, t: Task): Kernel {
    if ValueOf(s.prio, t) < ValueOf(s.prio, s.current) then SetPriority(s, t, ValueOf(s.prio, s.current)) else s
  }

  // What disinheritance, of either kind, does to a task that is to have priority p.
  function ChangePriority(s: Kernel, t: Task, p: nat): Kernel {
    if ValueOf(s.prio, t) != p then SetPriority(s, t, p) else s
  }

  datatype Woken = Nobody | Wakes(t: Task)

  // xQueueGenericSend on a mutex: the running task goes back to priority p, and one that waits is woken.
  function GiveMutex(s: Kernel, p: nat, w: Woken): Kernel {
    var q := ChangePriority(s, s.current, p);
    match w
    case Nobody => q
    case Wakes(t) => RemoveFromEventList(q, t)
  }

  lemma InheritValid(s: Kernel, t: Task)
    requires Valid(s) && t in s.prio
    ensures Valid(InheritPriority(s, t)) && View(InheritPriority(s, t)) == View(s)
  {
    hide Valid, View, SetPriority;
    ValidCurrent(s);
    KnownPriority(s, s.current);
    SetPriorityValid(s, t, s.prio[s.current]);
  }

  lemma ValidCurrent(s: Kernel)
    requires Valid(s)
    ensures s.current in s.prio
  {
  }

  lemma ChangeValid(s: Kernel, t: Task, p: nat)
    requires Valid(s) && t in s.prio && p < configMAX_PRIORITIES
    ensures Valid(ChangePriority(s, t, p)) && View(ChangePriority(s, t, p)) == View(s)
  {
    hide Valid, View, SetPriority;
    SetPriorityValid(s, t, p);
  }

  lemma ChangeFields(s: Kernel, t: Task, p: nat)
    requires t in s.prio
    ensures var q := ChangePriority(s, t, p); q == s.(prio := q.prio, lists := q.lists) && q.prio.Keys == s.prio.Keys
  {
    hide AddReady, RemoveItem;
  }

  lemma GiveValid(s: Kernel, p: nat, w: Woken)
    requires Valid(s) && p < configMAX_PRIORITIES
    requires w.Wakes? ==> w.t in s.prio && w.t in s.event && s.event[w.t] == OnObject
    ensures Valid(GiveMutex(s, p, w))
    ensures View(GiveMutex(s, p, w)) == if w.Wakes? then Wake(View(s), w.t) else View(s)
  {
    hide Valid, View, ChangePriority, RemoveFromEventList, Wake;
    ValidCurrent(s);
    ChangeValid(s, s.current, p);
    ChangeFields(s, s.current, p);
    if w.Wakes? {
      RemoveFromEventListValid(ChangePriority(s, s.current, p), w.t);
      RemoveFromEventListView(ChangePriority(s, s.current, p), w.t);
    }
  }
}
