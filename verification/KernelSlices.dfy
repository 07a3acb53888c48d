/** The answer of the tick: when it calls for a context switch, and that tasks of one priority share the time. */
module KernelSlices {
  import opened Ticks
  import opened ListSpec
  import opened DelayModel
  import opened StateLists
  import opened KernelModel
  import opened KernelTick
  import opened KernelSteps
  import opened KernelResume
  import opened KernelReady
  import opened KernelRun
  import opened KernelPreempt

  // ----- when the tick asks for a switch -------------------------------------------------------

  // Another task is ready at the priority of the running one.
  predicate Shares(s: Kernel, t: Task) {
    && t != s.current && t in s.lists.at && s.lists.at[t].Ready?
    && ValueOf(s.prio, t) == ValueOf(s.prio, s.current)
  }

  // Task t has become ready on the way from s to r, and has a higher priority than the running task.
  predicate Overtakes(s: Kernel, r: Kernel, t: Task) {
    && t in s.lists.at && !s.lists.at[t].Ready? && t in r.lists.at && r.lists.at[t].Ready?
    && ValueOf(s.prio, t) > ValueOf(s.prio, s.current)
  }

  lemma OnReadyList(s: Kernel, t: Task)
    requires Structure(s) && t in s.lists.at && s.lists.at[t].Ready?
    ensures t in s.prio && s.prio[t] < |s.lists.ready| && s.lists.at[t] == Ready(s.prio[t])
    ensures t in s.lists.ready[s.prio[t]].items
  {
    assert ReadyAt(s.lists.ready[s.prio[t]], s.lists.at, s.prio[t]);
  }

  lemma FromReadyList(s: Kernel, p: nat, t: Task)
    requires Structure(s) && p < |s.lists.ready| && t in s.lists.ready[p].items
    ensures t in s.lists.at && s.lists.at[t] == Ready(p) && t in s.prio && s.prio[t] == p
  {
    assert ReadyAt(s.lists.ready[p], s.lists.at, p);
  }

  lemma RingAt(s: Kernel, p: nat)
    requires Structure(s) && p < |s.lists.ready|
    ensures NoDup(s.lists.ready[p].items) && s.lists.ready[p].index <= |s.lists.ready[p].items|
  {
    assert ReadyAt(s.lists.ready[p], s.lists.at, p);
  }

  lemma TwoItems(q: seq<Task>, t: Task, u: Task)
    requires t in q && u in q && t != u
    ensures |q| > 1
  {
  }

  lemma SharesIs(s: Kernel, t: Task)
    ensures Shares(s, t) <==> t != s.current && t in s.lists.at && s.lists.at[t].Ready?
                              && ValueOf(s.prio, t) == ValueOf(s.prio, s.current)
  {
  }

  lemma SharedIff(s: Kernel)
    requires Structure(s) && Running(s)
    ensures Shared(s) <==> exists t :: Shares(s, t)
  {
    hide Structure, Shares;
    OnReadyList(s, s.current);
    var p := s.prio[s.current];
    var q := s.lists.ready[p].items;
    RingAt(s, p);
    if |q| > 1 {
      var t := if q[0] == s.current then q[1] else q[0];
      assert t in q;
      FromReadyList(s, p, t);
      SharesIs(s, t);
    }
    forall t | Shares(s, t) ensures |q| > 1 {
      SharesIs(s, t);
      OnReadyList(s, t);
      TwoItems(q, t, s.current);
    }
  }

  lemma SwappedPlaces(l: StateLists, t: Task)
    ensures var at := SwapDelayed(l).at;
            && (t in at <==> t in l.at) && (t in l.at && l.at[t].Ready? ==> at[t] == l.at[t])
            && (t in at && at[t].Ready? ==> at[t] == l.at[t])
  {
  }

  lemma CountedPlaces(s: Kernel, t: Task)
    ensures t in Counted(s).lists.at <==> t in s.lists.at
    ensures t in s.lists.at && s.lists.at[t].Ready? ==> Counted(s).lists.at[t] == s.lists.at[t]
    ensures t in s.lists.at && t in Counted(s).lists.at && Counted(s).lists.at[t].Ready? ==>
              Counted(s).lists.at[t] == s.lists.at[t]
    ensures Counted(s).prio == s.prio && Counted(s).current == s.current && Counted(s).lists.ready == s.lists.ready
    ensures Counted(s).lists.top == s.lists.top && Counted(s).nest == s.nest
  {
    SwappedPlaces(s.lists, t);
    hide SwapRoles;
  }

  // What the tick makes ready: the tasks that were due, and no others.
  lemma TickReleases(s: Kernel)
    requires Consistent(s)
    ensures var c, r := Counted(s), IncrementTick(s);
            && Structure(c) && Structure(r) && KernelTick.Released(c, r)
            && r.prio == s.prio && r.current == s.current && r.nest == s.nest
            && (forall t :: t in s.lists.at && s.lists.at[t].Ready? ==>
                  t in r.lists.at && r.lists.at[t] == s.lists.at[t])
            && (forall t :: t in s.lists.at && t in r.lists.at && !s.lists.at[t].Ready? ==>
                  (r.lists.at[t].Ready? <==> Due(c, t)))
            && (forall t :: t in s.prio <==> t in s.lists.at) && (forall t :: t in r.lists.at <==> t in s.lists.at)
  {
    var c, r := Counted(s), IncrementTick(s);
    CountedStructure(s);
    DrainedWhenDue(c);
    StructureTasks(s);
    StructureTasks(r);
    CountedPlaces(s, 0);
    hide Consistent, Structure, Drain, Counted;
    forall t | t in s.lists.at
      ensures t in r.lists.at && (s.lists.at[t].Ready? ==> r.lists.at[t] == s.lists.at[t])
      ensures !s.lists.at[t].Ready? ==> (r.lists.at[t].Ready? <==> Due(c, t))
    {
      CountedPlaces(s, t);
    }
  }

  lemma ReleasesIff(s: Kernel)
    requires Consistent(s)
    ensures ReleasesAbove(Counted(s)) <==> exists t :: Overtakes(s, IncrementTick(s), t)
  {
    hide Consistent, Structure, Drain, Counted, IncrementTick, Overtakes, Due, Above;
    var c, r := Counted(s), IncrementTick(s);
    TickReleases(s);
    CountedPlaces(s, 0);
    forall t | t in c.prio && Due(c, t) && Above(c, t) ensures Overtakes(s, r, t) {
      CountedPlaces(s, t);
      DueOvertakes(s, c, r, t);
    }
    forall t | Overtakes(s, r, t) ensures t in c.prio && Due(c, t) && Above(c, t) {
      CountedPlaces(s, t);
      DueOvertakes(s, c, r, t);
    }
  }

  lemma DueOvertakes(s: Kernel, c: Kernel, r: Kernel, t: Task)
    requires c.prio == s.prio && c.current == s.current && (t in s.prio <==> t in s.lists.at)
    requires t in r.lists.at <==> t in s.lists.at
    requires t in s.lists.at && s.lists.at[t].Ready? ==> t in c.lists.at && c.lists.at[t] == s.lists.at[t]
    requires t in s.lists.at && t in r.lists.at && !s.lists.at[t].Ready? ==> (r.lists.at[t].Ready? <==> Due(c, t))
    ensures Overtakes(s, r, t) <==> t in c.prio && Due(c, t) && Above(c, t)
  {
  }

  // A processed tick asks for a context switch exactly if afterwards another task is ready at the priority
  // of the running one, or the tick has released one that outranks it, or a yield was pending.
  lemma TickAsksIff(s: Kernel)
    requires Valid(s) && s.nest == 0 && Running(s)
    ensures var r := Next(s, TickStep);
            Asks(s, TickStep)
            <==> s.yieldPending || (exists t :: Shares(r, t)) || (exists t :: Overtakes(s, r, t))
  {
    hide Consistent, Structure, IncrementTick, Counted, ReleasesAbove, Shared, Shares, Overtakes;
    ConsistentStructure(s);
    TickReleases(s);
    ReleasesIff(s);
    SharedIff(IncrementTick(s));
    assert Next(s, TickStep) == IncrementTick(s);
    assert Asks(s, TickStep) == SwitchRequired(s);
  }

  // ----- slices --------------------------------------------------------------------------------

  // A tick, and the switch if it asks for one.
  function Slice(s: Kernel): Kernel {
    var r := Next(s, TickStep);
    if Asks(s, TickStep) then Next(r, SwitchStep) else r
  }

  function Slices(s: Kernel, n: nat): Kernel
    decreases n
  {
    if n == 0 then s else Slices(Slice(s), n - 1)
  }

  // The scheduler runs, and the running task is of priority p, the highest of those that are ready.
  ghost predicate AtTop(s: Kernel, p: nat) {
    Valid(s) && s.nest == 0 && Highest(s) && s.lists.at[s.current] == Ready(p)
  }

  // No task of priority p or above wakes up in the next n ticks.
  ghost predicate Quiet(s: Kernel, p: nat, n: nat) {
    forall t :: t in s.prio && s.prio[t] >= p && t in View(s).phase && View(s).phase[t].Until? ==>
      View(s).phase[t].wake > View(s).clock + n
  }

  lemma TopParts(s: Kernel, p: nat)
    requires AtTop(s, p)
    ensures Consistent(s) && Structure(s) && Running(s) && SomeReady(s) && p < |s.lists.ready|
    ensures s.lists.top < |s.lists.ready| && s.current in s.prio && s.prio[s.current] == p
    ensures s.current in s.lists.ready[p].items && p == TopPriority(s.lists.ready, s.lists.top)
    ensures s.nest == 0
  {
    OnReadyList(s, s.current);
    SelectSteps(s);
    NoneAbove(s.lists, s.current);
    hide Valid, Consistent, Select, TopPriority;
  }

  lemma DueIsLow(s: Kernel, p: nat, n: nat, t: Task)
    requires Consistent(s) && Quiet(s, p, n) && n > 0 && Due(Counted(s), t) && t in s.prio
    requires Structure(Counted(s)) && Counted(s).prio == s.prio
    ensures s.prio[t] < p
  {
    hide Consistent, Structure, Counted, View, Tasks;
    ConsistentStructure(s);
    CountedView(s);
    StructureTasks(Counted(s));
    StructureTasks(s);
    DueParts(Counted(s), t);
    ExpiresWhenDue(View(s), Counted(s), t);
  }

  lemma DueParts(s: Kernel, t: Task)
    requires Due(s, t)
    ensures t in s.lists.at && t in s.value
  {
  }

  // The loop of the tick does not touch the ready list of a priority at which no task is due.
  lemma {:induction false} DrainRing(s: Kernel, p: nat)
    requires Structure(s) && p < |s.lists.ready| && forall t :: Due(s, t) && t in s.prio ==> s.prio[t] != p
    ensures |Drain(s).lists.ready| == |s.lists.ready|
    ensures Drain(s).lists.ready[p] == s.lists.ready[p]
    decreases |s.lists.delayed|
  {
    hide Structure, MakeReady, Tasks, Due;
    HeadKnown(s);
    if s.lists.delayed != [] && s.value[s.lists.delayed[0]] <= s.tick {
      var t := s.lists.delayed[0];
      HeadDue(s);
      MakeReadyStructure(s, t);
      MakeReadyRing(s, t, p);
      forall u | Due(MakeReady(s, t), u) && u in MakeReady(s, t).prio ensures MakeReady(s, t).prio[u] != p {
        StillDue(s, t, u);
      }
      DrainRing(MakeReady(s, t), p);
    }
  }

  lemma StillDue(s: Kernel, t: Task, u: Task)
    requires Structure(s) && t in s.prio && Due(MakeReady(s, t), u)
    ensures Due(s, u) && MakeReady(s, t).prio == s.prio
  {
    MakeReadyMoves(s, t);
    hide Structure, RemoveItem, AddReady;
  }

  lemma MakeReadyRing(s: Kernel, t: Task, p: nat)
    requires Structure(s) && t in s.prio && Due(s, t) && s.prio[t] != p && p < |s.lists.ready|
    ensures |MakeReady(s, t).lists.ready| == |s.lists.ready| && MakeReady(s, t).lists.ready[p] == s.lists.ready[p]
  {
    hide Structure;
  }

  lemma TickRing(s: Kernel, p: nat, n: nat)
    requires AtTop(s, p) && Quiet(s, p, n) && n > 0
    ensures p < |s.lists.ready| && p < |IncrementTick(s).lists.ready|
    ensures IncrementTick(s).lists.ready[p] == s.lists.ready[p]
  {
    hide AtTop, Consistent, Structure, Counted, Drain, Quiet, Due;
    TopParts(s, p);
    TickReleases(s);
    CountedPlaces(s, 0);
    forall t | Due(Counted(s), t) && t in Counted(s).prio ensures Counted(s).prio[t] != p {
      DueIsLow(s, p, n, t);
    }
    DrainRing(Counted(s), p);
  }

  // Such a tick leaves the running task at the top.
  lemma TickTop(s: Kernel, p: nat, n: nat)
    requires AtTop(s, p) && Quiet(s, p, n) && n > 0
    ensures var r := IncrementTick(s);
            AtTop(r, p) && Quiet(r, p, n - 1) && r.current == s.current && r == Next(s, TickStep)
  {
    var r := IncrementTick(s);
    TopParts(s, p);
    TickReleases(s);
    TickInterruptRefines(s);
    TickRefines(s);
    hide Valid, Consistent, Structure, Counted, IncrementTick, View;
    forall t | t in r.lists.at && r.lists.at[t].Ready? ensures r.lists.at[t].prio <= p {
      if s.lists.at[t].Ready? {
        assert r.lists.at[t] == s.lists.at[t];
      } else {
        DueIsLow(s, p, n, t);
        OnReadyList(r, t);
      }
    }
    TickQuiet(s, p, n);
  }

  lemma TickQuiet(s: Kernel, p: nat, n: nat)
    requires Quiet(s, p, n) && n > 0 && View(IncrementTick(s)) == ProcessTick(View(s))
    requires IncrementTick(s).prio == s.prio
    ensures Quiet(IncrementTick(s), p, n - 1)
  {
    hide View, IncrementTick;
  }

  lemma SwitchTop(s: Kernel, p: nat, n: nat)
    requires AtTop(s, p) && Quiet(s, p, n)
    ensures p < |s.lists.ready| && s.lists.ready[p].items != [] && s.lists.ready[p].index <= |s.lists.ready[p].items|
    ensures var r, q := Next(s, SwitchStep), Advance(s.lists.ready[p]);
            && AtTop(r, p) && Quiet(r, p, n) && p < |r.lists.ready| && r.lists.ready[p] == q
            && 0 < q.index <= |q.items| && r.current == Pointed(q)
  {
    hide Consistent, Structure, View, SwitchContext, Advance, Pointed, TopPriority, SomeReady, Quiet;
    TopParts(s, p);
    RingAt(s, p);
    SwitchContextValid(s);
    SwitchSelects(s, p);
    var r := SwitchContext(s);
    assert r == Next(s, SwitchStep);
    ConsistentStructure(r);
    FromReadyList(r, p, r.current);
    SameQuiet(s, r, p, n);
  }

  lemma SameQuiet(s: Kernel, r: Kernel, p: nat, n: nat)
    requires Quiet(s, p, n) && View(r) == View(s) && r.prio == s.prio
    ensures Quiet(r, p, n)
  {
    hide View;
  }

  lemma SwitchSelects(s: Kernel, p: nat)
    requires s.nest == 0 && s.lists.top < |s.lists.ready| && p == TopPriority(s.lists.ready, s.lists.top)
    requires s.lists.ready[p].items != [] && s.lists.ready[p].index <= |s.lists.ready[p].items|
    ensures var r, q := SwitchContext(s), Advance(s.lists.ready[p]);
            && |r.lists.ready| == |s.lists.ready| && r.lists.ready[p] == q && r.prio == s.prio && r.nest == 0
            && 0 < q.index <= |q.items| && r.current == Pointed(q) && r.current in q.items
  {
  }

  // One slice: the next of several tasks that share the priority.
  lemma SliceStep(s: Kernel, p: nat, n: nat)
    requires AtTop(s, p) && Quiet(s, p, n) && n > 0 && p < |s.lists.ready| && |s.lists.ready[p].items| > 1
    ensures s.lists.ready[p].index <= |s.lists.ready[p].items|
    ensures var r, q := Slice(s), Advance(s.lists.ready[p]);
            && AtTop(r, p) && Quiet(r, p, n - 1) && p < |r.lists.ready| && r.lists.ready[p] == q
            && 0 < q.index <= |q.items| && r.current == Pointed(q)
  {
    hide AtTop, Quiet, Valid, Consistent, Structure, IncrementTick, SwitchContext, ReleasesAbove;
    var r := IncrementTick(s);
    TopParts(s, p);
    TickTop(s, p, n);
    TopParts(r, p);
    TickRing(s, p, n);
    TickReleases(s);
    assert Shared(r);
    assert Asks(s, TickStep);
    SwitchTop(r, p, n - 1);
  }

  lemma {:induction false} SlicesWalk(s: Kernel, p: nat, n: nat)
    requires AtTop(s, p) && p < |s.lists.ready| && |s.lists.ready[p].items| > 1 && Quiet(s, p, n)
    requires s.lists.ready[p].index <= |s.lists.ready[p].items|
    ensures var q := AdvanceBy(s.lists.ready[p], n);
            n > 0 ==> 0 < q.index <= |q.items| && Slices(s, n).current == Pointed(q)
    decreases n
  {
    hide AtTop, Quiet, Slice, Advance, Pointed;
    if n > 0 {
      SliceStep(s, p, n);
      AdvanceItems(s.lists.ready[p]);
      SlicesWalk(Slice(s), p, n - 1);
    }
  }

  lemma AdvanceItems<T>(r: Ring<T>)
    requires r.index <= |r.items|
    ensures Advance(r).items == r.items && Advance(r).index <= |r.items|
  {
  }

  // The tasks that are ready at priority p.
  function ReadyTasks(s: Kernel, p: nat): set<Task> {
    set t | t in s.lists.at && s.lists.at[t] == Ready(p)
  }

  lemma {:induction false} ManyItems(q: seq<Task>, ts: set<Task>)
    requires NoDup(q) && forall t :: t in q <==> t in ts
    ensures |q| == |ts|
    decreases |q|
  {
    if q == [] {
      assert ts == {};
    } else {
      assert forall t :: t in q[1..] <==> t in ts - {q[0]} by {
        assert q == [q[0]] + q[1..];
      }
      ManyItems(q[1..], ts - {q[0]});
    }
  }

  lemma ReadyTasksAt(s: Kernel, p: nat)
    requires Structure(s) && p < |s.lists.ready|
    ensures |s.lists.ready[p].items| == |ReadyTasks(s, p)|
  {
    assert ReadyAt(s.lists.ready[p], s.lists.at, p);
    ManyItems(s.lists.ready[p].items, ReadyTasks(s, p));
  }

  // A task that has its priority for itself keeps the processor.
  lemma SliceAlone(s: Kernel, p: nat)
    requires AtTop(s, p) && Quiet(s, p, 1) && p < |s.lists.ready| && |s.lists.ready[p].items| == 1
    ensures Slices(s, 1).current == s.current
  {
    hide AtTop, Quiet, Valid, Consistent, Structure, IncrementTick, SwitchContext, SwitchRequired;
    var r := IncrementTick(s);
    TopParts(s, p);
    TickTop(s, p, 1);
    TickRing(s, p, 1);
    if Asks(s, TickStep) {
      SwitchTop(r, p, 0);
    }
    assert Slices(s, 1) == Slice(s);
  }

  // Of the next count slices t has the n-th, and no other.
  ghost predicate OneSlice(s: Kernel, t: Task, n: nat, count: nat) {
    1 <= n <= count && Slices(s, n).current == t
    && forall m :: 1 <= m <= count && Slices(s, m).current == t ==> m == n
  }

  // Time slicing: of n tasks that are ready at the highest priority each runs for exactly one of any n
  // ticks in a row, if no task of that priority or above wakes up in them.
  lemma EqualSlices(s: Kernel, p: nat, t: Task)
    requires AtTop(s, p) && Quiet(s, p, |ReadyTasks(s, p)|) && t in ReadyTasks(s, p)
    ensures exists n :: OneSlice(s, t, n, |ReadyTasks(s, p)|)
  {
    hide *;
    TopParts(s, p);
    ReadyTasksAt(s, p);
    OnItsList(s, p, t);
    if |s.lists.ready[p].items| == 1 {
      SliceAlone(s, p);
      TheOnlyItem(s.lists.ready[p].items, t, s.current);
      OnlyOneSlice(s, t);
    } else {
      SliceOf(s, p, t);
    }
  }

  lemma OnItsList(s: Kernel, p: nat, t: Task)
    requires Structure(s) && t in ReadyTasks(s, p)
    ensures p < |s.lists.ready| && t in s.lists.ready[p].items
  {
    OnReadyList(s, t);
  }

  lemma TheOnlyItem(q: seq<Task>, t: Task, u: Task)
    requires |q| == 1 && t in q && u in q
    ensures t == u
  {
  }

  lemma OnlyOneSlice(s: Kernel, t: Task)
    requires Slices(s, 1).current == t
    ensures OneSlice(s, t, 1, 1)
  {
  }

  lemma QuietFor(s: Kernel, p: nat, n: nat, m: nat)
    requires Quiet(s, p, n) && m <= n
    ensures Quiet(s, p, m)
  {
  }

  lemma SliceOf(s: Kernel, p: nat, t: Task)
    requires AtTop(s, p) && p < |s.lists.ready| && |s.lists.ready[p].items| > 1 && t in s.lists.ready[p].items
    requires Quiet(s, p, |s.lists.ready[p].items|)
    ensures exists n :: OneSlice(s, t, n, |s.lists.ready[p].items|)
  {
    hide AtTop, Quiet, Structure, Slices, AdvanceBy;
    TopParts(s, p);
    RingAt(s, p);
    var r := s.lists.ready[p];
    var k :| 0 <= k < |r.items| && r.items[k] == t;
    RoundRobin(r, k);
    forall m | 1 <= m <= |r.items|
      ensures 0 < AdvanceBy(r, m).index <= |r.items| && Slices(s, m).current == r.items[AdvanceBy(r, m).index - 1]
    {
      QuietFor(s, p, |r.items|, m);
      SlicesWalk(s, p, m);
      AdvanceByIndex(r, m);
    }
    var n := if r.index <= k then k + 1 - r.index else k + 1 + |r.items| - r.index;
    forall m | 1 <= m <= |r.items| && Slices(s, m).current == t ensures m == n {
      AllDifferentAt(r.items, AdvanceBy(r, m).index - 1, k);
    }
    assert OneSlice(s, t, n, |r.items|);
  }
}
