/** xTaskIncrementTick: two delayed lists and a wrapping tick count refine one queue in unbounded time. */
module KernelTick {
  import opened Ticks
  import opened ListSpec
  import opened DelayModel
  import opened StateLists
  import opened KernelModel

  // prvResetNextTaskUnblockTime
  function ResetNextTaskUnblockTime(s: Kernel): Kernel {
    s.(next := if s.lists.delayed == [] then MAX_DELAY else ValueOf(s.value, s.lists.delayed[0]))
  }

  // taskSWITCH_DELAYED_LISTS
  function SwitchDelayedLists(s: Kernel): Kernel {
    ResetNextTaskUnblockTime(
      s.(lists := SwapDelayed(s.lists), overflows := TickAdd(s.overflows, 1), epoch := s.epoch + 1))
  }

  // The loop of xTaskIncrementTick. (A task made ready leaves the list, so the last test succeeds.)
  function Drain(s: Kernel): Kernel
    decreases |s.lists.delayed|
  {
    if s.lists.delayed == [] then s.(next := MAX_DELAY)
    else
      var t := s.lists.delayed[0];
      var s' := MakeReady(s, t);
      if s.tick < ValueOf(s.value, t) then s.(next := ValueOf(s.value, t))
      else if |s'.lists.delayed| < |s.lists.delayed| then Drain(s') else s'
  }

  // The state with the new tick counted and, when the count wraps, the lists exchanged.
  function Counted(s: Kernel): Kernel {
    var n := s.(tick := TickAdd(s.tick, 1));
    if n.tick == 0 then SwitchDelayedLists(n) else n
  }

  // xTaskIncrementTick while the scheduler is not suspended.
  function IncrementTick(s: Kernel): Kernel {
    var c := Counted(s);
    if c.tick >= c.next then Drain(c) else c
  }

  // ----- counting ----------------------------------------------------------------------------------

  lemma NoMembers(q: seq<Task>)
    ensures q != [] ==> exists t :: t in q
  {
    if q != [] {
      assert q[0] in q;
    }
  }

  lemma EmptyAtWrap(q: seq<Task>, v: map<Task, nat>)
    requires Queued(q, v) && InTime(q, v, W - 1)
    ensures q == []
  {
    NoMembers(q);
  }

  // When the tick count wraps the current delayed list is empty.
  lemma NothingDelayedAtWrap(s: Kernel)
    requires Consistent(s) && s.tick == W - 1
    ensures s.lists.delayed == []
    ensures forall t :: t in s.lists.at ==> s.lists.at[t] != Delayed
  {
    EmptyAtWrap(s.lists.delayed, s.value);
  }

  lemma SwapItems(l: StateLists, prio: map<Task, nat>, event: map<Task, EventPlace>, value: map<Task, nat>)
    ensures ReadyItems(l.at, prio, event) ==> ReadyItems(SwapDelayed(l).at, prio, event)
    ensures Tasks(l.at, event, value, prio) ==> Tasks(SwapDelayed(l).at, event, value, prio)
    ensures Somewhere(l.at) ==> Somewhere(SwapDelayed(l).at)
  {
  }

  lemma ResetInTime(q: seq<Task>, v: map<Task, nat>)
    ensures NextInTime(q, v, if q == [] then MAX_DELAY else ValueOf(v, q[0]))
  {
  }

  lemma CountedStructure(s: Kernel)
    requires Consistent(s)
    ensures Structure(Counted(s))
  {
    hide Epochs, Placed, Queued, NextInTime, Pended, Somewhere, ReadyItems, Tasks, InTime;
    EpochsNext(s.overflows, s.epoch);
    SwappedPlaced(s.lists);
    SwapItems(s.lists, s.prio, s.event, s.value);
    ResetInTime(s.lists.overflow, s.value);
  }

  lemma SwapPhases(l: StateLists, value: map<Task, nat>, epoch: nat)
    requires forall t :: t in l.at ==> l.at[t] != Delayed
    ensures Phases(SwapDelayed(l).at, value, epoch + 1) == Phases(l.at, value, epoch)
  {
    NextEpoch(epoch);
  }

  // The swap at the wrap changes no wake time: only the clock has moved on.
  lemma CountedView(s: Kernel)
    requires Consistent(s)
    ensures View(Counted(s)) == View(s).(clock := View(s).clock + 1)
  {
    hide Consistent, Structure, Phases, SwapDelayed, Tasks;
    ConsistentStructure(s);
    StructureTasks(s);
    if s.tick == W - 1 {
      NothingDelayedAtWrap(s);
      SwapPhases(s.lists, s.value, s.epoch);
      NextEpoch(s.epoch);
    }
  }

  // ----- draining ----------------------------------------------------------------------------------

  // The task is on the current delayed list and its time has come.
  predicate Due(s: Kernel, t: Task) {
    t in s.lists.at && s.lists.at[t] == Delayed && t in s.value && s.value[t] <= s.tick
  }

  // Exactly the due tasks have become ready, and have left their event lists.
  ghost predicate Released(s: Kernel, d: Kernel) {
    && d == s.(lists := d.lists, next := d.next, pending := d.pending, event := d.event)
    && (forall t :: t in s.prio ==> t in d.lists.at && t in d.event && t in s.lists.at && t in s.event)
    && (forall t :: t in s.prio ==>
          && d.lists.at[t] == (if Due(s, t) then Ready(s.prio[t]) else s.lists.at[t])
          && d.event[t] == (if Due(s, t) then NoEvent else s.event[t]))
    && (s.pending == [] ==> d.pending == [])
  }

  lemma ReleasedStep(s: Kernel, t: Task, s': Kernel, d: Kernel)
    requires t in s.prio && Due(s, t)
    requires Tasks(s.lists.at, s.event, s.value, s.prio)
    requires s' == s.(lists := s'.lists, pending := s'.pending, event := s.event[t := NoEvent])
    requires s'.lists.at == s.lists.at[t := Ready(s.prio[t])] && (s.pending == [] ==> s'.pending == [])
    requires Released(s', d)
    ensures Released(s, d)
  {
    assert forall x :: x in s.prio ==> (Due(s', x) <==> Due(s, x) && x != t);
  }

  lemma NothingDue(s: Kernel)
    requires Structure(s) && (s.lists.delayed == [] || s.tick < s.value[s.lists.delayed[0]])
    ensures forall t :: t in s.prio ==> !Due(s, t)
    ensures Released(s, s)
  {
  }

  lemma HeadDue(s: Kernel)
    requires Structure(s) && s.lists.delayed != [] && s.lists.delayed[0] in s.value
    requires s.value[s.lists.delayed[0]] <= s.tick
    ensures s.lists.delayed[0] in s.prio && Due(s, s.lists.delayed[0])
    ensures |MakeReady(s, s.lists.delayed[0]).lists.delayed| == |s.lists.delayed| - 1
  {
    assert s.lists.delayed[0] in s.lists.delayed;
    MakeReadyMoves(s, s.lists.delayed[0]);
  }

  lemma NextIsHead(s: Kernel)
    requires Structure(s) && (s.lists.delayed == [] || s.tick < s.value[s.lists.delayed[0]])
    ensures Structure(ResetNextTaskUnblockTime(s)) && Released(s, ResetNextTaskUnblockTime(s))
  {
    hide Epochs, Placed, Queued, NextInTime, Pended, Somewhere, ReadyItems, Tasks, Due;
    NothingDue(s);
    ResetInTime(s.lists.delayed, s.value);
  }

  lemma HeadKnown(s: Kernel)
    requires Structure(s)
    ensures s.lists.delayed != [] ==> s.lists.delayed[0] in s.value
  {
  }

  lemma {:induction false} DrainReleases(s: Kernel)
    requires Structure(s)
    ensures Structure(Drain(s)) && Released(s, Drain(s))
    decreases |s.lists.delayed|
  {
    hide Structure, Released, MakeReady, Tasks;
    HeadKnown(s);
    StructureTasks(s);
    if s.lists.delayed == [] || s.tick < s.value[s.lists.delayed[0]] {
      NextIsHead(s);
    } else {
      var t := s.lists.delayed[0];
      HeadDue(s);
      MakeReadyStructure(s, t);
      MakeReadyMoves(s, t);
      MakeReadyLeaves(s, t);
      DrainReleases(MakeReady(s, t));
      ReleasedStep(s, t, MakeReady(s, t), Drain(s));
    }
  }

  lemma MakeReadyLeaves(s: Kernel, t: Task)
    ensures var s' := MakeReady(s, t);
            && s' == s.(lists := s'.lists, pending := s'.pending, event := s.event[t := NoEvent])
            && (s.pending == [] ==> s'.pending == [])
  {
  }

  // ----- the tick ----------------------------------------------------------------------------------

  lemma DrainedWhenDue(c: Kernel)
    requires Structure(c)
    ensures var d := if c.tick >= c.next then Drain(c) else c; Structure(d) && Released(c, d)
  {
    if c.tick >= c.next {
      DrainReleases(c);
    } else {
      NothingDue(c);
    }
  }

  lemma ReleasedInTime(s: Kernel, d: Kernel)
    requires Structure(d) && Released(s, d)
    ensures InTime(d.lists.delayed, d.value, d.tick)
  {
  }

  lemma TickKeepsConsistent(s: Kernel)
    requires Consistent(s)
    ensures Consistent(IncrementTick(s))
    ensures s.pending == [] ==> IncrementTick(s).pending == []
    ensures IncrementTick(s).nest == s.nest && IncrementTick(s).pended == s.pended
  {
    hide Structure;
    CountedStructure(s);
    DrainedWhenDue(Counted(s));
    ReleasedInTime(Counted(s), IncrementTick(s));
  }

  lemma ExpiresWhenDue(a: Delays, s: Kernel, t: Task)
    requires t in s.lists.at && t in s.value && s.tick < W
    requires a.phase == View(s).phase && View(s).clock == a.clock + 1
    ensures t in a.phase && (Expires(a, t) <==> Due(s, t))
  {
    NextEpoch(s.epoch);
  }

  // In a state whose tick has just been counted, releasing the due tasks is what the tick means.
  lemma ReleasedPhases(a: Delays, s: Kernel, d: Kernel)
    requires Tasks(s.lists.at, s.event, s.value, s.prio) && d.lists.at.Keys == s.prio.Keys && s.tick < W
    requires Released(s, d) && a.phase == View(s).phase && View(s).clock == a.clock + 1
    ensures View(d).phase == ProcessTick(a).phase
  {
    var p, q := View(d).phase, ProcessTick(a).phase;
    forall t | t in s.prio ensures t in p && t in q && p[t] == q[t] {
      ExpiresWhenDue(a, s, t);
    }
  }

  lemma ReleasedEvents(a: Delays, s: Kernel, d: Kernel)
    requires Tasks(s.lists.at, s.event, s.value, s.prio) && d.event.Keys == s.prio.Keys && s.tick < W
    requires Released(s, d) && a.phase == View(s).phase && View(s).clock == a.clock + 1 && a.event == s.event
    ensures d.event == ProcessTick(a).event
  {
    var q := ProcessTick(a).event;
    forall t | t in s.prio ensures t in q && d.event[t] == q[t] {
      ExpiresWhenDue(a, s, t);
    }
  }

  lemma ReleasedView(a: Delays, s: Kernel, d: Kernel)
    requires Tasks(s.lists.at, s.event, s.value, s.prio) && Tasks(d.lists.at, d.event, d.value, d.prio) && s.tick < W
    requires Released(s, d) && View(s) == a.(clock := a.clock + 1)
    ensures View(d) == ProcessTick(a)
  {
    ReleasedPhases(a, s, d);
    ReleasedEvents(a, s, d);
    hide Phases, Tasks;
  }

  // The two lists and the wrapping tick count do what one queue in unbounded time does.
  lemma TickRefines(s: Kernel)
    requires Consistent(s)
    ensures View(IncrementTick(s)) == ProcessTick(View(s))
  {
    hide Consistent, Structure, Drain, Counted, Released, View, Tasks;
    var c, d := Counted(s), IncrementTick(s);
    CountedStructure(s);
    CountedView(s);
    DrainedWhenDue(c);
    StructureTasks(c);
    StructureTasks(d);
    ReleasedView(View(s), c, d);
  }
}
