/** What a step of the kernel amounts to for the task it concerns: its priorities, its turn among tasks of
    the same priority, how long it stays suspended, and whether a context switch is called for. */
module KernelOutcomes {
  import opened ListSpec
  import opened DelayModel
  import opened StateLists
  import opened KernelModel
  import opened KernelTick
  import opened KernelSteps
  import opened KernelResume
  import opened KernelReady
  import opened KernelRun
  import opened KernelPreempt
  import DelayRun

  // ----- turns -------------------------------------------------------------------------------------

  // How many of the tasks on the list come before one that joins it: all, except that the task the walking
  // index points at has just had its turn.
  function Ahead(r: Ring<Task>): (n: nat)
    requires r.index <= |r.items|
    ensures n <= |r.items|
  {
    if r.index == 0 then |r.items| else |r.items| - 1
  }

  lemma IndexIn(l: StateLists, p: nat)
    requires Placed(l) && p < |l.ready|
    ensures l.ready[p].index <= |l.ready[p].items|
    ensures forall t :: t in l.ready[p].items <==> t in l.at && l.at[t] == Ready(p)
  {
    assert ReadyAt(l.ready[p], l.at, p);
  }

  // A task that leaves a ready list leaves the turns of the others as they were.
  lemma LeavesTurns(l: StateLists, t: Task, p: nat)
    requires Placed(l) && t in l.at && p < |l.ready| && Placed(RemoveItem(l, t))
    ensures l.ready[p].index <= |l.ready[p].items|
    ensures p < |RemoveItem(l, t).ready| && RemoveItem(l, t).ready[p].index <= |RemoveItem(l, t).ready[p].items|
    ensures var w, w' := Walk(l.ready[p]), Walk(RemoveItem(l, t).ready[p]);
            if l.at[t] == Ready(p) then exists j :: 0 <= j < |w| && w[j] == t && w' == Removed(w, j) else w' == w
  {
    IndexIn(l, p);
    IndexIn(RemoveItem(l, t), p);
    if l.at[t] == Ready(p) {
      var k := Find(l.ready[p].items, t);
      RemoveWalk(l.ready[p], k);
      assert Walk(l.ready[p])[Turn(l.ready[p], k)] == t;
    }
  }

  // A task that joins one comes after all who wait there for their turn.
  lemma JoinsTurns(l: StateLists, t: Task, q: nat, p: nat)
    requires Placed(l) && p < |l.ready| && q < |l.ready| && Placed(AddReady(l, t, q))
    ensures l.ready[p].index <= |l.ready[p].items|
    ensures AddReady(l, t, q).ready[p].index <= |AddReady(l, t, q).ready[p].items|
    ensures var w, w' := Walk(l.ready[p]), Walk(AddReady(l, t, q).ready[p]);
            w' == if p == q then Inserted(w, Ahead(l.ready[p]), t) else w
  {
    IndexIn(l, p);
    IndexIn(AddReady(l, t, q), p);
    InsertWalk(l.ready[p], t);
  }

  lemma RemoveKeepsOther(l: StateLists, t: Task, p: nat)
    requires t in l.at && l.at[t] != Ready(p) && p < |l.ready|
    ensures |RemoveItem(l, t).ready| == |l.ready| && RemoveItem(l, t).ready[p] == l.ready[p]
  {
  }

  lemma SameLength(l: StateLists, t: Task)
    ensures |RemoveItem(l, t).ready| == |l.ready|
  {
  }

  // A task that becomes ready comes last among those of its priority; no other turn changes.
  lemma WokenComesLast(s: Kernel, t: Task, p: nat)
    requires Structure(s) && t in s.prio && !s.lists.at[t].Ready? && p < |s.lists.ready|
    ensures s.lists.ready[p].index <= |s.lists.ready[p].items|
    ensures p < |MakeReady(s, t).lists.ready|
    ensures MakeReady(s, t).lists.ready[p].index <= |MakeReady(s, t).lists.ready[p].items|
    ensures var w, w' := Walk(s.lists.ready[p]), Walk(MakeReady(s, t).lists.ready[p]);
            w' == if p == s.prio[t] then Inserted(w, Ahead(s.lists.ready[p]), t) else w
  {
    hide Structure, Placed, RemoveItem, AddReady, Walk, Inserted, Ahead;
    StructureTasks(s);
    MakeReadyMoves(s, t);
    MovedToReady(s.lists, t, s.prio[t]);
    SameLength(s.lists, t);
    PlacedLength(s.lists);
    RemoveKeepsOther(s.lists, t, p);
    JoinsTurns(RemoveItem(s.lists, t), t, s.prio[t], p);
  }

  lemma PlacedLength(l: StateLists)
    requires Placed(l)
    ensures |l.ready| == configMAX_PRIORITIES
  {
  }

  // ----- priorities --------------------------------------------------------------------------------

  // vTaskPrioritySet gives t the base priority asked for, or the highest one if that is too high, and its
  // priority follows unless it is an inherited one.
  lemma PrioritySetOutcome(s: Kernel, t: Task, level: nat)
    requires Valid(s) && t in s.prio
    ensures var r := PrioritySet(s, t, level);
            && ValueOf(r.base, t) == (if level < configMAX_PRIORITIES then level else configMAX_PRIORITIES - 1)
            && (forall u :: u != t ==> ValueOf(r.base, u) == ValueOf(s.base, u))
            && r.prio == s.prio[t := if ValueOf(s.base, t) == s.prio[t] then ValueOf(r.base, t) else s.prio[t]]
            && r == s.(prio := r.prio, base := r.base, lists := r.lists)
            && t in s.lists.at
            && r.lists.at == (if s.lists.at[t].Ready? then s.lists.at[t := Ready(r.prio[t])] else s.lists.at)
  {
    hide Valid, Structure, SetPriority, Placed;
    ValidStructure(s);
    KnownTask(s, t);
    KnownPriority(s, t);
    if s.lists.at[t].Ready? {
      OnItsOwnList(s, t);
    }
    SetPriorityMoves(s, t, Clamp(level));
    SetPriorityMoves(s, t, s.prio[t]);
    assert s.prio[t := s.prio[t]] == s.prio;
  }

  // It asks for a context switch when another task's base rises to the running task's priority or above,
  // and when the running task's own base falls.
  lemma PriorityAsksIff(s: Kernel, t: Task, level: nat)
    requires Valid(s) && t in s.prio
    ensures var b, r := ValueOf(s.base, t), ValueOf(PrioritySet(s, t, level).base, t);
            Asks(s, PriorityStep(t, level))
            <==> if t == s.current then r < b else r > b && r >= ValueOf(s.prio, s.current)
  {
    hide Valid, PrioritySet;
    PrioritySetOutcome(s, t, level);
  }

  lemma OnItsOwnList(s: Kernel, t: Task)
    requires Structure(s) && t in s.lists.at && s.lists.at[t].Ready?
    ensures t in s.prio && s.lists.at[t] == Ready(s.prio[t])
    ensures s.lists.at[t := Ready(s.prio[t])] == s.lists.at
  {
    ReadyHasNoEvent(s.lists.at, s.prio, s.event, t);
  }

  lemma SetPriorityMovesTo(s: Kernel, t: Task, p: nat)
    requires Structure(s) && t in s.prio && p < configMAX_PRIORITIES
    ensures t in s.lists.at
    ensures var r := SetPriority(s, t, p);
            r.prio == s.prio[t := p]
            && r.lists.at == (if s.lists.at[t].Ready? then s.lists.at[t := Ready(p)] else s.lists.at)
  {
    hide Structure, SetPriority, Placed;
    KnownTask(s, t);
    SetPriorityMoves(s, t, p);
  }

  // Inheritance raises the holder to the running task's priority and not beyond, and a ready holder moves to
  // that ready list; its base priority and everybody else's priority stay.
  lemma InheritOutcome(s: Kernel, t: Task)
    requires Valid(s) && t in s.prio
    ensures var c, r := ValueOf(s.prio, s.current), Next(s, InheritStep(t));
            && r.prio == s.prio[t := if s.prio[t] < c then c else s.prio[t]] && r.base == s.base
            && t in s.lists.at
            && r.lists.at == if s.lists.at[t].Ready? then s.lists.at[t := Ready(r.prio[t])] else s.lists.at
  {
    hide Valid, Structure, SetPriority, Placed;
    ValidStructure(s);
    ValidCurrent(s);
    KnownPriority(s, s.current);
    SetPriorityMovesTo(s, t, s.prio[s.current]);
    SetPriorityBase(s, t, s.prio[s.current]);
    assert s.prio[t := s.prio[t]] == s.prio;
    if s.lists.at[t].Ready? {
      OnItsOwnList(s, t);
    }
  }

  lemma SetPriorityBase(s: Kernel, t: Task, p: nat)
    ensures SetPriority(s, t, p).base == s.base
  {
  }

  // ----- context switches --------------------------------------------------------------------------

  // t has become ready in this step.
  predicate Arrives(s: Kernel, r: Kernel, t: Task) {
    && t in s.lists.at && !s.lists.at[t].Ready? && t in r.lists.at && r.lists.at[t].Ready?
  }

  // vTaskResume makes ready exactly a suspended task that waits for no event, and asks for a context switch
  // exactly if that task's priority is not below the running one's. The call from an interrupt, which does
  // not make ready while the scheduler is suspended, notes it instead.
  lemma ResumeOutcome(s: Kernel, t: Task)
    requires Valid(s) && t in s.prio
    ensures var r := Next(s, ResumeStep(t));
            && (Arrives(s, r, t) <==> t != s.current && IsTaskSuspended(s, t))
            && (Asks(s, ResumeStep(t)) <==> Arrives(s, r, t) && ValueOf(s.prio, t) >= ValueOf(s.prio, s.current))
            && (Arrives(s, r, t) ==> r.lists.at[t] == Ready(s.prio[t])) && r.yieldPending == s.yieldPending
    ensures var r := Next(s, ResumeFromISRStep(t));
            && (Arrives(s, r, t) <==> s.nest == 0 && IsTaskSuspended(s, t))
            && (r.yieldPending
                <==> s.yieldPending || (Arrives(s, r, t) && ValueOf(s.prio, t) >= ValueOf(s.prio, s.current)))
  {
    hide Valid, Structure, RemoveItem, AddReady;
    ValidStructure(s);
    KnownTask(s, t);
    MakeReadyMoves(s, t);
  }

  // An event wakes t at once or, with the scheduler suspended, notes it. Either way a yield becomes pending
  // exactly if t outranks the running task.
  lemma WakeOutcome(s: Kernel, t: Task)
    requires Valid(s) && t in s.prio && s.event[t] == OnObject
    ensures var r := Next(s, RemoveStep(t));
            && (Arrives(s, r, t) <==> s.nest == 0) && (s.nest > 0 ==> r.pending == s.pending + [t])
            && (r.yieldPending <==> s.yieldPending || ValueOf(r.prio, t) > ValueOf(r.prio, r.current))
    ensures var r := Next(s, RemoveUnorderedStep(t));
            && Arrives(s, r, t)
            && (r.yieldPending <==> s.yieldPending || ValueOf(r.prio, t) > ValueOf(r.prio, r.current))
  {
    hide Valid, Structure, RemoveItem, AddReady;
    ValidStructure(s);
    KnownTask(s, t);
    NotReady(s, t);
    MakeReadyMoves(s, t);
  }

  // A task created while the scheduler runs is ready at the priority asked for, or the highest one if that
  // is too high, and a context switch is asked for exactly if it outranks the running task.
  lemma CreateOutcome(s: Kernel, t: Task, level: nat)
    requires Valid(s) && t !in s.prio
    ensures var r := Next(s, CreateStep(t, level));
            && t in r.prio && r.prio[t] == (if level < configMAX_PRIORITIES then level else configMAX_PRIORITIES - 1)
            && t in r.base && r.base[t] == r.prio[t]
            && t in r.lists.at && r.lists.at[t] == Ready(r.prio[t])
            && (Asks(s, CreateStep(t, level)) <==> r.prio[t] > ValueOf(s.prio, s.current))
  {
  }

  lemma PendingStay(s: Kernel)
    requires Consistent(s) && s.pending != []
    ensures ReleaseHead(s).pending == s.pending[1..] && ReleaseHead(s).prio == s.prio
    ensures ReleaseHead(s).current == s.current
    ensures ReleaseHead(s).yieldPending == (s.yieldPending || NotBelow(s, s.pending[0]))
  {
    ConsistentStructure(s);
    hide Consistent, AddReady, RemoveItem;
    PendedHead(s);
    assert s.pending[..0] == [];
  }

  lemma {:induction false} ReleaseAllNotes(s: Kernel)
    requires Consistent(s)
    ensures ReleaseAll(s).yieldPending <==> s.yieldPending || exists t :: t in s.pending && NotBelow(s, t)
    decreases |s.pending|
  {
    hide Consistent, ReleaseHead;
    if s.pending != [] {
      var h := ReleaseHead(s);
      ReleaseHeadStep(s);
      PendingStay(s);
      ReleaseAllNotes(h);
      assert s.pending == [s.pending[0]] + s.pending[1..];
      forall t ensures NotBelow(h, t) == NotBelow(s, t) {
      }
    }
  }

  lemma {:induction false} ReplayNotes(s: Kernel, n: nat)
    requires Consistent(s)
    ensures ReplayTicks(s, n).yieldPending
            <==> s.yieldPending || SomeTickAsks(s, n)
    decreases n
  {
    hide Consistent, IncrementTick, SwitchRequired, SomeTickAsks;
    NoTickAsks(s);
    if n > 0 {
      var r := ReplayTick(s);
      TickKeepsConsistent(s);
      YieldConsistent(IncrementTick(s), r.yieldPending);
      TickYield(s);
      ReplayNotes(r, n - 1);
      ShiftTicks(s, n);
    }
  }

  // One of the first n replayed ticks calls for a context switch.
  ghost predicate SomeTickAsks(s: Kernel, n: nat) {
    exists k: nat :: k < n && SwitchRequired(ReplayTicks(s, k))
  }

  lemma NoTickAsks(s: Kernel)
    ensures !SomeTickAsks(s, 0)
  {
  }

  lemma ShiftTicks(s: Kernel, n: nat)
    requires n > 0
    ensures SomeTickAsks(s, n) <==> SwitchRequired(s) || SomeTickAsks(ReplayTick(s), n - 1)
  {
    hide SwitchRequired, ReplayTick;
    assert ReplayTicks(s, 0) == s;
    if SomeTickAsks(s, n) {
      var k: nat :| k < n && SwitchRequired(ReplayTicks(s, k));
      if k > 0 {
        assert ReplayTicks(ReplayTick(s), k - 1) == ReplayTicks(s, k);
      }
    }
    if SomeTickAsks(ReplayTick(s), n - 1) {
      var k: nat :| k < n - 1 && SwitchRequired(ReplayTicks(ReplayTick(s), k));
      assert ReplayTicks(s, k + 1) == ReplayTicks(ReplayTick(s), k);
    }
  }

  // The outermost resume asks for a context switch exactly if a yield was pending, or a woken task that is
  // not below the running one was, or one of the held-back ticks calls for it when it is replayed.
  lemma ResumeAllOutcome(s: Kernel)
    requires Valid(s) && s.nest == 1
    ensures var r := s.(nest := 0);
            Asks(s, ResumeAllStep)
            <==> || s.yieldPending || (exists t :: t in s.pending && NotBelow(s, t))
                 || SomeTickAsks(PendingReleased(r), s.pended)
  {
    hide Consistent, ReplayTicks, ReleaseAll, SomeTickAsks, NotBelow;
    var r := s.(nest := 0);
    NestKeeps(s, 0, s.pended);
    ReleaseAllNotes(r);
    ReleasedRefines(r);
    ReplayNotes(PendingReleased(r), s.pended);
    forall t ensures NotBelow(r, t) == NotBelow(s, t) {
      SameBelow(s, r, t);
    }
  }

  lemma SameBelow(s: Kernel, r: Kernel, t: Task)
    requires r.prio == s.prio && r.current == s.current
    ensures NotBelow(r, t) == NotBelow(s, t)
  {
  }

  // prvResetNextTaskUnblockTime finds the earliest wake time on the delayed list.
  lemma ResetOutcome(s: Kernel)
    requires Structure(s)
    ensures var q, r := s.lists.delayed, ResetNextTaskUnblockTime(s);
            && (forall t :: t in q ==> t in s.value && r.next <= s.value[t])
            && if q == [] then r.next == 0xFFFF_FFFF else exists t :: t in q && t in s.value && r.next == s.value[t]
  {
    var q := s.lists.delayed;
    if q != [] {
      assert q[0] in q;
      forall t | t in q ensures s.value[q[0]] <= s.value[t] {
        var k :| 0 <= k < |q| && q[k] == t;
      }
    }
    hide Placed, Pended, ReadyItems, Tasks, Epochs, Somewhere;
  }

  // ----- suspension --------------------------------------------------------------------------------

  ghost predicate Parked(a: Delays, t: Task) {
    t in a.phase && t in a.event && a.phase[t] == Indefinitely && a.event[t] == NoEvent
  }

  // The events that could end a suspension.
  predicate Resumes(e: Event, t: Task) {
    match e
    case ResumeEvent(u) => u == t
    case ResumeFromISREvent(u) => u == t
    case _ => false
  }

  lemma {:induction false} ParkedThroughReplay(a: Delays, n: nat, t: Task)
    requires Parked(a, t)
    ensures Parked(Replay(a, n), t)
    decreases n
  {
    if n > 0 {
      ParkedThroughReplay(ProcessTick(a), n - 1, t);
    }
  }

  lemma ParkedThroughEvent(a: Delays, e: Event, t: Task)
    requires Parked(a, t) && !Resumes(e, t) && (DelayRun.Touches(e, t) ==> e == SuspendEvent(t))
    ensures Parked(Happens(a, e), t)
  {
    if e.ResumeAllEvent? && a.nest == 1 {
      ParkedThroughReplay(ReleasePending(a.(nest := 0)), a.pended, t);
    }
  }

  lemma ParkedIs(s: Kernel, t: Task)
    requires Valid(s)
    ensures Parked(View(s), t)
            <==> t in s.lists.at && s.lists.at[t] == Suspended && t in s.event && s.event[t] == NoEvent
    ensures Parked(View(s), t) ==> t in s.prio && IsTaskSuspended(s, t)
  {
  }

  // A suspended task that waits for no event neither blocks, nor is it woken or created.
  lemma ParkedIsLeft(s: Kernel, st: Step, t: Task, idle: Task)
    requires Good(s, idle) && Can(s, st, idle) && Parked(View(s), t)
    ensures DelayRun.Touches(Meaning(s, st), t) ==> Meaning(s, st) == SuspendEvent(t)
  {
    hide Good, View, Parked, Valid, Consistent, Structure, SomeReady, IsTaskSuspended;
    GoodParts(s, idle);
    ParkedIs(s, t);
  }

  // No call resumes t.
  predicate NotResumed(sts: seq<Step>, t: Task) {
    ResumeStep(t) !in sts && ResumeFromISRStep(t) !in sts
  }

  lemma ResumesIs(s: Kernel, st: Step, t: Task)
    requires st != ResumeStep(t) && st != ResumeFromISRStep(t)
    ensures !Resumes(Meaning(s, st), t)
  {
  }

  lemma {:induction false} ParkedThroughSteps(s: Kernel, sts: seq<Step>, t: Task, idle: Task)
    requires Good(s, idle) && CanSteps(s, sts, idle) && Parked(View(s), t) && NotResumed(sts, t)
    ensures Good(Steps(s, sts), idle) && Parked(View(Steps(s, sts)), t)
    decreases |sts|
  {
    hide Good, View, Next, Happens, Meaning, Can, Parked, DelayRun.Touches, Resumes;
    if sts != [] {
      StepGood(s, sts[0], idle);
      assert Refines(s, sts[0]) by { StepRefines(s, sts[0], idle); }
      ParkedIsLeft(s, sts[0], t, idle);
      ResumesIs(s, sts[0], t);
      ParkedThroughEvent(View(s), Meaning(s, sts[0]), t);
      ParkedThroughSteps(Next(s, sts[0]), sts[1..], t, idle);
    }
  }

  lemma SuspendParks(s: Kernel, t: Task, idle: Task)
    requires Good(s, idle) && Can(s, SuspendStep(t), idle)
    ensures Good(Next(s, SuspendStep(t)), idle) && Parked(View(Next(s, SuspendStep(t))), t)
  {
    hide Good, View, Next, Can, Valid, Parked;
    StepGood(s, SuspendStep(t), idle);
    StepRefines(s, SuspendStep(t), idle);
    SuspendedIsParked(View(s), t);
  }

  lemma SuspendedIsParked(a: Delays, t: Task)
    ensures Parked(Happens(a, SuspendEvent(t)), t)
  {
  }

  // A task that is suspended, in whatever state it was, is on the suspended list in every state of every
  // later run, whatever happens and however long it takes, until a call resumes it; then it is ready.
  lemma SuspendedUntilResumed(s: Kernel, t: Task, sts: seq<Step>, idle: Task)
    requires Good(s, idle) && Can(s, SuspendStep(t), idle)
    requires CanSteps(Next(s, SuspendStep(t)), sts, idle) && NotResumed(sts, t)
    ensures var e := Steps(Next(s, SuspendStep(t)), sts);
            && t in e.lists.at && e.lists.at[t] == Suspended && t in e.prio
            && (t != e.current ==>
                  var r := Next(e, ResumeStep(t)); t in r.lists.at && r.lists.at[t] == Ready(e.prio[t]))
  {
    hide Good, View, Next, Can, Parked, NotResumed, Steps, CanSteps, Valid;
    var n := Next(s, SuspendStep(t));
    var e := Steps(n, sts);
    SuspendParks(s, t, idle);
    ParkedThroughSteps(n, sts, t, idle);
    GoodParts(e, idle);
    ParkedIs(e, t);
    ResumeOutcome(e, t);
  }
}
