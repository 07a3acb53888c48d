/** Preemption: a ready task that outranks the running one never goes unnoticed. */
module KernelPreempt {
  import opened Ticks
  import opened ListSpec
  import opened DelayModel
  import opened StateLists
  import opened KernelModel
  import opened KernelTick
  import opened KernelSteps
  import opened KernelResume
  import opened KernelReady
  import opened KernelRun

  // Some ready task has a higher priority than the running one.
  predicate Overlooked(s: Kernel) {
    exists t :: t in s.lists.at && s.lists.at[t].Ready? && Above(s, t)
  }

  // Whether the source requests a context switch of the processor in this step.
  predicate Asks(s: Kernel, st: Step) {
    match st
    case TickStep => s.nest == 0 && SwitchRequired(s)
    case ResumeStep(t) => t != s.current && IsTaskSuspended(s, t) && NotBelow(s, t)
    case ResumeAllStep => s.nest == 1 && Next(s, st).yieldPending
    case PriorityStep(t, p) => PriorityYields(s, t, p)
    case CreateStep(t, p) => ValueOf(s.prio, s.current) < Clamp(p)
    case GiveStep(p, Nobody) => p < ValueOf(s.prio, s.current)
    case GiveStep(p, Wakes(t)) => Above(ChangePriority(s, s.current, p), t)
    case _ => false
  }

  // Some ready task other than the running one is above that priority.
  predicate ReadyAbove(s: Kernel, p: nat) {
    exists t :: t in s.lists.at && s.lists.at[t].Ready? && t != s.current && ValueOf(s.prio, t) > p
  }

  // The one step that lets a ready task be passed over: the running task gives a mutex and falls back to
  // a priority that another ready task exceeds, but not the task that it wakes. The switch that its
  // lower priority calls for is not requested, because a task has been woken.
  predicate Silent(s: Kernel, st: Step, asked: bool) {
    && !asked && !s.yieldPending && st.GiveStep? && st.woken.Wakes? && st.p < ValueOf(s.prio, s.current)
    && !Above(ChangePriority(s, s.current, st.p), st.woken.t) && ReadyAbove(s, st.p)
  }

  // Only tasks that are no threat to the running task have become ready.
  ghost predicate NoNewAbove(s: Kernel, r: Kernel) {
    && r.current == s.current && r.prio == s.prio
    && forall t :: t in r.lists.at && r.lists.at[t].Ready? && Above(s, t) ==> t in s.lists.at && s.lists.at[t].Ready?
  }

  lemma MadeReadyAbove(s: Kernel, t: Task)
    requires Structure(s) && t in s.prio
    ensures Above(s, t) || NoNewAbove(s, MakeReady(s, t))
  {
    hide Structure, RemoveItem, AddReady;
    MakeReadyMoves(s, t);
  }

  lemma SwapReady(l: StateLists, t: Task)
    ensures t in SwapDelayed(l).at && SwapDelayed(l).at[t].Ready? ==> t in l.at && l.at[t].Ready?
  {
  }

  lemma CountedReady(s: Kernel, t: Task)
    ensures t in Counted(s).lists.at && Counted(s).lists.at[t].Ready? ==> t in s.lists.at && s.lists.at[t].Ready?
    ensures Counted(s).prio == s.prio && Counted(s).current == s.current
  {
    SwapReady(s.lists, t);
  }

  lemma ReleasedAbove(s: Kernel, c: Kernel, d: Kernel)
    requires KernelTick.Released(c, d) && c.prio == s.prio && c.current == s.current && !ReleasesAbove(c)
    requires forall t :: t in c.lists.at && c.lists.at[t].Ready? ==> t in s.lists.at && s.lists.at[t].Ready?
    requires forall t :: t in d.lists.at ==> t in s.prio
    ensures NoNewAbove(s, d)
  {
  }

  lemma TickNoNewAbove(s: Kernel)
    requires Consistent(s)
    ensures ReleasesAbove(Counted(s)) || NoNewAbove(s, IncrementTick(s))
  {
    hide Consistent, Structure, Drain, Counted, KernelTick.Released, ReleasesAbove, Tasks;
    if !ReleasesAbove(Counted(s)) {
      CountedStructure(s);
      DrainedWhenDue(Counted(s));
      forall t | t in Counted(s).lists.at && Counted(s).lists.at[t].Ready?
        ensures t in s.lists.at && s.lists.at[t].Ready?
      {
        CountedReady(s, t);
      }
      CountedReady(s, 0);
      DrainedKnows(s);
      ReleasedAbove(s, Counted(s), IncrementTick(s));
    }
  }

  lemma DrainedKnows(s: Kernel)
    requires Structure(IncrementTick(s)) && KernelTick.Released(Counted(s), IncrementTick(s))
    ensures forall t :: t in IncrementTick(s).lists.at ==> t in s.prio
  {
    var d := IncrementTick(s);
    assert Tasks(d.lists.at, d.event, d.value, d.prio);
  }

  // A ready task that outranks the running one has a context switch under way.
  ghost predicate Noticed(s: Kernel, asked: bool) {
    Overlooked(s) ==> s.yieldPending || asked
  }

  lemma WokenNoticed(s: Kernel, t: Task, y: bool, asked: bool, more: bool)
    requires Structure(s) && t in s.prio && Noticed(s, asked)
    requires s.yieldPending ==> y
    requires Above(s, t) ==> y || more
    ensures Noticed(MakeReady(s, t).(yieldPending := y), asked || more)
  {
    hide Structure, MakeReady;
    MadeReadyAbove(s, t);
    MakeReadyLeaves(s, t);
    SameAbove(s, MakeReady(s, t), MakeReady(s, t).(yieldPending := y));
  }

  lemma SameAbove(s: Kernel, r: Kernel, q: Kernel)
    requires q == r.(yieldPending := q.yieldPending)
    ensures NoNewAbove(s, r) ==> NoNewAbove(s, q)
  {
  }

  lemma TickNoticed(s: Kernel, y: bool, asked: bool, more: bool)
    requires Consistent(s) && Noticed(s, asked)
    requires s.yieldPending ==> y || more
    requires ReleasesAbove(Counted(s)) ==> y || more
    ensures Noticed(IncrementTick(s).(yieldPending := y), asked || more)
  {
    hide Consistent, IncrementTick, ReleasesAbove;
    TickNoNewAbove(s);
    SameAbove(s, IncrementTick(s), IncrementTick(s).(yieldPending := y));
  }

  lemma {:induction false} ReleaseAllNoticed(s: Kernel, asked: bool)
    requires Consistent(s) && Noticed(s, asked)
    ensures Noticed(ReleaseAll(s), asked)
    decreases |s.pending|
  {
    hide Consistent, Structure, Noticed, MakeReady, ReleaseHead;
    if s.pending != [] {
      ReleaseHeadStep(s);
      ReleaseHeadNoticed(s, asked);
      ReleaseAllNoticed(ReleaseHead(s), asked);
    }
  }

  lemma ReleaseHeadNoticed(s: Kernel, asked: bool)
    requires Consistent(s) && Noticed(s, asked) && s.pending != []
    ensures Noticed(ReleaseHead(s), asked)
  {
    hide Consistent, Structure, Noticed, MakeReady;
    ConsistentStructure(s);
    PendedHead(s);
    WokenNoticed(s, s.pending[0], ReleaseHead(s).yieldPending, asked, false);
  }

  lemma {:induction false} ReplayNoticed(s: Kernel, n: nat, asked: bool)
    requires Consistent(s) && Noticed(s, asked)
    ensures Noticed(ReplayTicks(s, n), asked)
    decreases n
  {
    hide Consistent, Noticed, IncrementTick, ReleasesAbove, Shared, Counted;
    if n > 0 {
      TickKeepsConsistent(s);
      YieldConsistent(IncrementTick(s), ReplayTick(s).yieldPending);
      TickNoticed(s, ReplayTick(s).yieldPending, asked, false);
      ReplayNoticed(ReplayTick(s), n - 1, asked);
    }
  }

  lemma SameLists(s: Kernel, r: Kernel, asked: bool)
    requires Noticed(s, asked) && r.lists.at == s.lists.at && r.prio == s.prio && r.current == s.current
    requires s.yieldPending ==> r.yieldPending
    ensures Noticed(r, asked)
  {
  }

  lemma ResumeAllNoticed(s: Kernel, asked: bool)
    requires Valid(s) && s.nest > 0 && Noticed(s, asked)
    ensures Noticed(KernelResume.ResumeAll(s), asked)
  {
    hide Consistent, Noticed, ReplayTicks, ReleaseAll;
    var r := s.(nest := s.nest - 1);
    NestKeeps(s, s.nest - 1, s.pended);
    SameLists(s, r, asked);
    if r.nest == 0 {
      ReleaseAllNoticed(r, asked);
      SameLists(ReleaseAll(r), ResetNextTaskUnblockTime(ReleaseAll(r)), asked);
      ReleasedRefines(r);
      ReplayNoticed(PendingReleased(r), r.pended, asked);
      SameLists(ReplayTicks(PendingReleased(r), r.pended), KernelResume.ResumeAll(s), asked);
    }
  }

  lemma BlockedNoticed(s: Kernel, t: Task, p: Place, r: Kernel, asked: bool)
    requires Noticed(s, asked) && !p.Ready? && r.lists.at == s.lists.at[t := p]
    requires r.prio == s.prio && r.current == s.current && r.yieldPending == s.yieldPending
    ensures Noticed(r, asked)
  {
  }

  lemma DelayNoticed(s: Kernel, d: nat, forever: bool, place: EventPlace, asked: bool)
    requires Valid(s) && 0 < d < W && Running(s) && Noticed(s, asked)
    ensures Noticed(AddCurrentTaskToDelayedList(s, d, forever, place), asked)
  {
    hide Valid, Consistent, Structure, Placed, Noticed, BlockPlace, AddBlocked, RemoveItem, Running;
    ValidStructure(s);
    var p := BlockPlace(s.tick, d, forever);
    var v := if p == Suspended then ValueOf(s.value, s.current) else TickAdd(s.tick, d);
    PhaseOfWake(s.tick, d, v, s.epoch, forever);
    MovesCurrent(s, p, v);
    BlockedNoticed(s, s.current, p, MoveCurrent(s, p, v, place), asked);
  }

  lemma MovesCurrent(s: Kernel, p: Place, v: nat)
    requires Placed(s.lists) && Running(s) && Blocking(p)
    ensures AddBlocked(RemoveItem(s.lists, s.current), s.current, p, s.value[s.current := v]).at
         == s.lists.at[s.current := p]
  {
    MovedToBlocked(s.lists, s.current, p, s.value[s.current := v]);
  }

  lemma SuspendNoticed(s: Kernel, t: Task, asked: bool)
    requires Valid(s) && t in s.prio && Noticed(s, asked)
    ensures Noticed(KernelSteps.SuspendTask(s, t), asked)
  {
    hide Valid, Consistent, Structure, Placed, Noticed, AddBlocked, RemoveItem;
    ValidStructure(s);
    KnownTask(s, t);
    MovedToSuspended(s.lists, t, s.value);
    BlockedNoticed(s, t, Suspended, KernelSteps.SuspendTask(s, t), asked);
  }

  lemma SwitchNoticed(s: Kernel)
    requires Valid(s) && SomeReady(s)
    ensures Noticed(SwitchContext(s), false)
  {
    hide Consistent, Structure, Placed, SwitchContext, SomeReady;
    SwitchContextValid(s);
    if s.nest == 0 {
      HighestNotOverlooked(SwitchContext(s));
    }
  }

  lemma HighestNotOverlooked(s: Kernel)
    requires Valid(s) && Highest(s)
    ensures !Overlooked(s)
  {
    assert ReadyItems(s.lists.at, s.prio, s.event);
  }

  lemma PriorityNoticed(s: Kernel, t: Task, p: nat, asked: bool)
    requires Valid(s) && t in s.prio && Noticed(s, asked)
    ensures Noticed(PrioritySet(s, t, p), asked || PriorityYields(s, t, p))
  {
    hide Valid, Consistent, Structure, Placed, SetPriority;
    ValidStructure(s);
    KnownTask(s, t);
    KnownPriority(s, t);
    var q := if p < configMAX_PRIORITIES then p else configMAX_PRIORITIES - 1;
    SetPriorityMoves(s, t, q);
    SetPriorityMoves(s, t, s.prio[t]);
  }

  lemma CreateNoticed(s: Kernel, t: Task, p: nat, asked: bool)
    requires Valid(s) && t !in s.prio && p < configMAX_PRIORITIES && Noticed(s, asked)
    ensures Noticed(AddNewTask(s, t, p), asked || ValueOf(s.prio, s.current) < p)
  {
    assert s.current in s.prio;
    hide Valid, Consistent, Structure, Placed;
    ValidStructure(s);
    NewTaskPlaced(s.lists, t, p);
  }

  // Another task's priority becomes one that does not put it above the running task.
  lemma ChangeNoticed(s: Kernel, t: Task, p: nat, asked: bool)
    requires Valid(s) && t in s.prio && t != s.current && Noticed(s, asked) && p < configMAX_PRIORITIES
    requires p <= s.prio[t] || p <= ValueOf(s.prio, s.current)
    ensures Noticed(ChangePriority(s, t, p), asked)
  {
    hide Valid, Consistent, Structure, Placed, SetPriority;
    ValidStructure(s);
    KnownTask(s, t);
    SetPriorityMoves(s, t, p);
  }

  lemma InheritNoticed(s: Kernel, t: Task, asked: bool)
    requires Valid(s) && t in s.prio && Noticed(s, asked)
    ensures Noticed(InheritPriority(s, t), asked)
  {
    hide Valid, Consistent, Structure, Noticed, SetPriority;
    ValidCurrent(s);
    KnownPriority(s, s.current);
    if s.prio[t] < s.prio[s.current] {
      ChangeNoticed(s, t, s.prio[s.current], asked);
    }
  }

  ghost predicate SameReady(s: Kernel, q: Kernel) {
    && q.current == s.current
    && forall t :: t in q.lists.at && q.lists.at[t].Ready? <==> t in s.lists.at && s.lists.at[t].Ready?
  }

  lemma LoweredOverlooked(s: Kernel, q: Kernel, p: nat)
    requires SameReady(s, q) && q.prio == s.prio[s.current := p]
    ensures Overlooked(q) <==> ReadyAbove(s, p)
  {
    if ReadyAbove(s, p) {
      var t :| t in s.lists.at && s.lists.at[t].Ready? && t != s.current && ValueOf(s.prio, t) > p;
      assert t in q.lists.at && q.lists.at[t].Ready? && Above(q, t);
    }
    if Overlooked(q) {
      var t :| t in q.lists.at && q.lists.at[t].Ready? && Above(q, t);
      assert t != s.current;
    }
  }

  lemma MovedReady(at: map<Task, Place>, moved: map<Task, Place>, t: Task, p: nat)
    requires t in at && moved == if at[t].Ready? then at[t := Ready(p)] else at
    ensures forall x :: x in moved && moved[x].Ready? <==> x in at && at[x].Ready?
  {
  }

  lemma ChangedReady(s: Kernel, t: Task, p: nat)
    requires Structure(s) && t in s.prio && p < configMAX_PRIORITIES
    ensures var q := ChangePriority(s, t, p); SameReady(s, q) && q.prio == s.prio[t := p]
  {
    hide Structure, SetPriority, Placed;
    KnownTask(s, t);
    if s.prio[t] != p {
      SetPriorityMoves(s, t, p);
      MovedReady(s.lists.at, SetPriority(s, t, p).lists.at, t, p);
    } else {
      assert s.prio[t := p] == s.prio;
    }
  }

  // The running task's own priority falls to p.
  lemma FallsBack(s: Kernel, p: nat)
    requires Valid(s) && p <= ValueOf(s.prio, s.current)
    ensures var q := ChangePriority(s, s.current, p);
            Valid(q) && q == s.(prio := q.prio, lists := q.lists) && q.prio.Keys == s.prio.Keys
    ensures Overlooked(ChangePriority(s, s.current, p)) <==> ReadyAbove(s, p)
  {
    ValidCurrent(s);
    hide Valid, Consistent, Structure, SameReady, ChangePriority, Overlooked, ReadyAbove;
    ValidStructure(s);
    KnownPriority(s, s.current);
    ChangeValid(s, s.current, p);
    ChangedReady(s, s.current, p);
    ChangeFields(s, s.current, p);
    LoweredOverlooked(s, ChangePriority(s, s.current, p), p);
  }

  lemma ReadiedOverlooked(q: Kernel, r: Kernel, t: Task)
    requires r.prio == q.prio && r.current == q.current && !Above(q, t)
    requires r.lists.at == q.lists.at || (t in q.prio && r.lists.at == q.lists.at[t := Ready(q.prio[t])])
    requires t in q.lists.at
    ensures Overlooked(r) <==> Overlooked(q)
  {
    if Overlooked(q) {
      var x :| x in q.lists.at && q.lists.at[x].Ready? && Above(q, x);
      assert x != t && x in r.lists.at && r.lists.at[x].Ready? && Above(r, x);
    }
    if Overlooked(r) {
      var x :| x in r.lists.at && r.lists.at[x].Ready? && Above(r, x);
      assert x != t && x in q.lists.at && q.lists.at[x].Ready? && Above(q, x);
    }
  }

  // Waking a task that is not above the running one changes nothing about that.
  lemma WokenOverlooked(q: Kernel, t: Task)
    requires Valid(q) && t in q.prio && !Above(q, t)
    ensures Overlooked(RemoveFromEventList(q, t)) <==> Overlooked(q)
    ensures RemoveFromEventList(q, t).yieldPending == q.yieldPending
  {
    hide Valid, Consistent, Structure, Placed, Above, Overlooked, AddReady, RemoveItem;
    ValidStructure(q);
    KnownTask(q, t);
    MakeReadyMoves(q, t);
    ReadiedOverlooked(q, RemoveFromEventList(q, t), t);
  }

  lemma WokenAbove(q: Kernel, t: Task)
    requires Above(q, t)
    ensures RemoveFromEventList(q, t).yieldPending
  {
  }

  lemma MorePriority(s: Kernel, p: nat)
    requires p <= ValueOf(s.prio, s.current)
    ensures Overlooked(s) ==> ReadyAbove(s, p)
    ensures p == ValueOf(s.prio, s.current) ==> (ReadyAbove(s, p) <==> Overlooked(s))
  {
    if Overlooked(s) {
      var t :| t in s.lists.at && s.lists.at[t].Ready? && Above(s, t);
      assert t != s.current;
    }
    if ReadyAbove(s, p) && p == ValueOf(s.prio, s.current) {
      var t :| t in s.lists.at && s.lists.at[t].Ready? && t != s.current && ValueOf(s.prio, t) > p;
      assert Above(s, t);
    }
  }

  lemma YieldKept(q: Kernel, t: Task)
    ensures q.yieldPending ==> RemoveFromEventList(q, t).yieldPending
  {
  }

  lemma GiveNoticedIff(s: Kernel, p: nat, w: Woken, asked: bool)
    requires Valid(s) && Noticed(s, asked) && p <= ValueOf(s.prio, s.current)
    requires w.Wakes? ==> w.t in s.prio
    ensures Noticed(GiveMutex(s, p, w), asked || Asks(s, GiveStep(p, w))) <==> !Silent(s, GiveStep(p, w), asked)
  {
    hide Valid, Consistent, Structure, ChangePriority, RemoveFromEventList, Above, Overlooked, ReadyAbove;
    FallsBack(s, p);
    MorePriority(s, p);
    var q := ChangePriority(s, s.current, p);
    if w.Wakes? {
      YieldKept(q, w.t);
      if Above(q, w.t) {
        WokenAbove(q, w.t);
      } else {
        WokenOverlooked(q, w.t);
      }
    }
  }

  // ----- steps and runs ------------------------------------------------------------------------

  // asked: a context switch has been requested of the processor and not yet been carried out.
  function StillAsked(s: Kernel, st: Step, asked: bool): bool {
    if st.SwitchStep? then false else asked || Asks(s, st)
  }

  lemma TickStepNoticed(s: Kernel, asked: bool)
    requires Valid(s) && Noticed(s, asked)
    ensures Noticed(TickInterrupt(s), asked || Asks(s, TickStep))
  {
    hide Consistent, Noticed, IncrementTick, ReleasesAbove, Shared, Counted;
    if s.nest == 0 {
      YieldStays(s);
      TickNoticed(s, IncrementTick(s).yieldPending, asked, SwitchRequired(s));
    } else {
      SameLists(s, TickInterrupt(s), asked);
    }
  }

  lemma YieldStays(s: Kernel)
    ensures IncrementTick(s) == IncrementTick(s).(yieldPending := IncrementTick(s).yieldPending)
  {
  }

  lemma RemoveStepNoticed(s: Kernel, t: Task, asked: bool)
    requires Valid(s) && t in s.prio && Noticed(s, asked)
    ensures Noticed(RemoveFromEventList(s, t), asked) && Noticed(RemoveFromUnorderedEventList(s, t), asked)
  {
    hide Valid, Consistent, Structure, Noticed, MakeReady, Above;
    ValidStructure(s);
    WokenNoticed(s, t, s.yieldPending || Above(s, t), asked, false);
    SameLists(s, JoinPendingReady(s, t).(yieldPending := s.yieldPending || Above(s, t)), asked);
  }

  lemma ResumeStepNoticed(s: Kernel, t: Task, asked: bool)
    requires Valid(s) && t in s.prio && Noticed(s, asked)
    ensures Noticed(KernelSteps.ResumeTask(s, t), asked || Asks(s, ResumeStep(t)))
    ensures Noticed(KernelSteps.ResumeTaskFromISR(s, t), asked)
  {
    hide Valid, Consistent, Structure, Noticed, MakeReady, IsTaskSuspended;
    ValidStructure(s);
    MakeReadyLeaves(s, t);
    WokenNoticed(s, t, s.yieldPending, asked, NotBelow(s, t));
    WokenNoticed(s, t, s.yieldPending || NotBelow(s, t), asked, false);
    SameLists(s, JoinPendingReady(s, t), asked);
    MoreNoticed(s, asked, Asks(s, ResumeStep(t)));
  }

  lemma MoreNoticed(s: Kernel, asked: bool, more: bool)
    requires Noticed(s, asked)
    ensures Noticed(s, asked || more)
  {
  }

  lemma OtherStepNoticed(s: Kernel, st: Step, idle: Task, asked: bool)
    requires Good(s, idle) && Can(s, st, idle) && Noticed(s, asked) && !st.GiveStep?
    ensures Noticed(Next(s, st), StillAsked(s, st, asked))
  {
    hide Good, Valid, Consistent, Structure, SomeReady, Noticed, View, TickInterrupt, AddCurrentTaskToDelayedList;
    hide RemoveFromEventList, RemoveFromUnorderedEventList, KernelSteps.SuspendTask, KernelSteps.ResumeTask;
    hide KernelSteps.ResumeTaskFromISR, KernelResume.ResumeAll, SwitchContext, PrioritySet, AddNewTask;
    hide IsTaskSuspended, NotBelow, SwitchRequired, PriorityYields, InheritPriority, ChangePriority;
    GoodParts(s, idle);
    match st
    case TickStep => TickStepNoticed(s, asked);
    case DelayStep(d, forever, place) => DelayNoticed(s, d, forever, place, asked);
    case RemoveStep(t) => RemoveStepNoticed(s, t, asked);
    case RemoveUnorderedStep(t) => RemoveStepNoticed(s, t, asked);
    case SuspendStep(t) => SuspendNoticed(s, t, asked);
    case ResumeStep(t) => ResumeStepNoticed(s, t, asked);
    case ResumeFromISRStep(t) => ResumeStepNoticed(s, t, asked);
    case SuspendAllStep => SameLists(s, Next(s, st), asked);
    case ResumeAllStep => ResumeAllNoticed(s, asked); MoreNoticed(Next(s, st), asked, Asks(s, st));
    case SwitchStep => SwitchNoticed(s);
    case PriorityStep(t, p) => PriorityNoticed(s, t, p, asked);
    case CreateStep(t, p) => CreateNoticed(s, t, Clamp(p), asked);
    case InheritStep(t) => InheritNoticed(s, t, asked);
    case LowerStep(t, p) => KnownPriority(s, t); ChangeNoticed(s, t, p, asked);
    case GiveStep(_, _) =>
  }

  // Every step but the silent one requests or notes the switch that it makes necessary.
  lemma StepNoticedIff(s: Kernel, st: Step, idle: Task, asked: bool)
    requires Good(s, idle) && Can(s, st, idle) && Noticed(s, asked)
    ensures Noticed(Next(s, st), StillAsked(s, st, asked)) <==> !Silent(s, st, asked)
  {
    hide Good, Valid, Consistent, Structure, SomeReady, Noticed;
    if st.GiveStep? {
      GoodParts(s, idle);
      hide Silent, GiveMutex, Asks;
      GiveNoticedIff(s, st.p, st.woken, asked);
    } else {
      OtherStepNoticed(s, st, idle, asked);
      hide Next, StillAsked, Can;
    }
  }

  function AskedAfter(s: Kernel, sts: seq<Step>, asked: bool): bool
    decreases |sts|
  {
    if sts == [] then asked else AskedAfter(Next(s, sts[0]), sts[1..], StillAsked(s, sts[0], asked))
  }

  // A switch is under way in every state of the run in which it is due.
  ghost predicate AlwaysNoticed(s: Kernel, sts: seq<Step>, asked: bool)
    decreases |sts|
  {
    Noticed(s, asked) && (sts == [] || AlwaysNoticed(Next(s, sts[0]), sts[1..], StillAsked(s, sts[0], asked)))
  }

  predicate NeverSilent(s: Kernel, sts: seq<Step>, asked: bool)
    decreases |sts|
  {
    sts == [] || (!Silent(s, sts[0], asked) && NeverSilent(Next(s, sts[0]), sts[1..], StillAsked(s, sts[0], asked)))
  }

  lemma {:induction false} RunNoticedIff(s: Kernel, sts: seq<Step>, idle: Task, asked: bool)
    requires Good(s, idle) && CanSteps(s, sts, idle) && Noticed(s, asked)
    ensures AlwaysNoticed(s, sts, asked) <==> NeverSilent(s, sts, asked)
    decreases |sts|
  {
    hide Good, Noticed, Next, Can, StillAsked, Silent;
    if sts != [] {
      StepNoticedIff(s, sts[0], idle, asked);
      StepGood(s, sts[0], idle);
      if Silent(s, sts[0], asked) {
        assert !AlwaysNoticed(Next(s, sts[0]), sts[1..], StillAsked(s, sts[0], asked));
      } else {
        RunNoticedIff(Next(s, sts[0]), sts[1..], idle, StillAsked(s, sts[0], asked));
      }
    }
  }

  lemma {:induction false} AlwaysAtEnd(s: Kernel, sts: seq<Step>, asked: bool)
    requires AlwaysNoticed(s, sts, asked)
    ensures Noticed(Steps(s, sts), AskedAfter(s, sts, asked))
    decreases |sts|
  {
    hide Noticed, Next, StillAsked;
    if sts != [] {
      AlwaysAtEnd(Next(s, sts[0]), sts[1..], StillAsked(s, sts[0], asked));
    }
  }

  lemma StartedNoticed(cs: seq<Creation>, idle: Task)
    requires cs != [] && AllDifferent(cs) && idle in Names(cs)
    ensures Good(Started(cs), idle) && Noticed(Started(cs), false)
  {
    StartedGood(cs, idle);
    StartedValid(cs);
    hide Valid, Started, Good;
  }

  // From the start, over every run: a ready task above the running one has a context switch requested
  // or noted as pending, in every state, exactly if no mutex is given silently.
  lemma NeverOverlooked(cs: seq<Creation>, idle: Task, sts: seq<Step>)
    requires cs != [] && AllDifferent(cs) && idle in Names(cs) && CanSteps(Started(cs), sts, idle)
    ensures AlwaysNoticed(Started(cs), sts, false) <==> NeverSilent(Started(cs), sts, false)
  {
    hide Good, CanSteps, AlwaysNoticed, NeverSilent, Started, Noticed;
    StartedNoticed(cs, idle);
    RunNoticedIff(Started(cs), sts, idle, false);
  }

  // And a processed tick turns what is noted into a request.
  lemma NoticedAtTick(cs: seq<Creation>, idle: Task, sts: seq<Step>)
    requires cs != [] && AllDifferent(cs) && idle in Names(cs) && CanSteps(Started(cs), sts, idle)
    requires NeverSilent(Started(cs), sts, false)
    ensures var s, asked := Steps(Started(cs), sts), AskedAfter(Started(cs), sts, false);
            && (Overlooked(s) ==> s.yieldPending || asked)
            && (s.nest == 0 && Overlooked(Next(s, TickStep)) ==> asked || Asks(s, TickStep))
  {
    NeverOverlooked(cs, idle, sts);
    AlwaysAtEnd(Started(cs), sts, false);
    hide Good, Steps, AskedAfter, CanSteps, Next, Overlooked, Started, IncrementTick, NeverSilent, AlwaysNoticed;
    ReachableGood(cs, idle, sts);
    TickFromRun(Steps(Started(cs), sts), idle, AskedAfter(Started(cs), sts, false));
  }

  lemma TickFromRun(s: Kernel, idle: Task, asked: bool)
    requires Good(s, idle) && Noticed(s, asked)
    ensures s.nest == 0 && Overlooked(Next(s, TickStep)) ==> asked || Asks(s, TickStep)
  {
    hide Good, Overlooked, Valid, ReleasesAbove, Shared;
    GoodParts(s, idle);
    TickStepNoticed(s, asked);
    TickYield(s);
  }

  lemma TickYield(s: Kernel)
    requires Consistent(s)
    ensures IncrementTick(s).yieldPending == s.yieldPending
  {
    hide Structure, Drain, Counted;
    ConsistentStructure(s);
    CountedStructure(s);
    DrainedWhenDue(Counted(s));
    CountedYield(s);
  }

  lemma CountedYield(s: Kernel)
    ensures Counted(s).yieldPending == s.yieldPending
  {
  }
}
