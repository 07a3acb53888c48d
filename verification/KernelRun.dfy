/** Every run of kernel steps: the refinement to unbounded time, and that no ready task is overlooked. */
module KernelRun {
  import opened Ticks
  import opened ListSpec
  import opened DelayModel
  import opened StateLists
  import opened KernelModel
  import opened KernelSteps
  import opened KernelResume
  import opened KernelReady
  import DelayRun

  datatype Step = TickStep | DelayStep(d: nat, forever: bool, place: EventPlace)
                | RemoveStep(t: Task) | RemoveUnorderedStep(t: Task)
                | SuspendStep(t: Task) | ResumeStep(t: Task) | ResumeFromISRStep(t: Task)
                | SuspendAllStep | ResumeAllStep | SwitchStep | PriorityStep(t: Task, p: nat)
                | CreateStep(t: Task, p: nat)
                | InheritStep(t: Task) | LowerStep(t: Task, p: nat) | GiveStep(p: nat, woken: Woken)

  // What the source demands. idle is the idle task, which neither blocks nor is suspended. LowerStep is
  // what a time-out of the running task does to the holder of the mutex it has waited for.
  predicate Can(s: Kernel, st: Step, idle: Task) {
    match st
    case DelayStep(d, forever, place) => 0 < d < W && place != PendingReady && Running(s) && s.current != idle
    case RemoveStep(t) => t in s.prio && t in s.event && s.event[t] == OnObject
    case RemoveUnorderedStep(t) => t in s.prio && t in s.event && s.event[t] == OnObject && s.nest > 0
    case SuspendStep(t) => t in s.prio && t != idle
    case ResumeStep(t) => t in s.prio
    case ResumeFromISRStep(t) => t in s.prio
    case ResumeAllStep => s.nest > 0
    case PriorityStep(t, p) => t in s.prio
    case CreateStep(t, p) => t !in s.prio
    case InheritStep(t) => t in s.prio
    case LowerStep(t, p) => t in s.prio && t != s.current && p <= s.prio[t]
    case GiveStep(p, w) =>
      p <= ValueOf(s.prio, s.current) && (w.Wakes? ==> w.t in s.prio && w.t in s.event && s.event[w.t] == OnObject)
    case _ => true
  }

  function Next(s: Kernel, st: Step): Kernel {
    match st
    case TickStep => TickInterrupt(s)
    case DelayStep(d, forever, place) => AddCurrentTaskToDelayedList(s, d, forever, place)
    case RemoveStep(t) => RemoveFromEventList(s, t)
    case RemoveUnorderedStep(t) => RemoveFromUnorderedEventList(s, t)
    case SuspendStep(t) => KernelSteps.SuspendTask(s, t)
    case ResumeStep(t) => KernelSteps.ResumeTask(s, t)
    case ResumeFromISRStep(t) => KernelSteps.ResumeTaskFromISR(s, t)
    case SuspendAllStep => KernelResume.SuspendAll(s)
    case ResumeAllStep => if s.nest > 0 then KernelResume.ResumeAll(s) else s
    case SwitchStep => SwitchContext(s)
    case PriorityStep(t, p) => PrioritySet(s, t, p)
    case CreateStep(t, p) => AddNewTask(s, t, Clamp(p))
    case InheritStep(t) => InheritPriority(s, t)
    case LowerStep(t, p) => ChangePriority(s, t, p)
    case GiveStep(p, w) => GiveMutex(s, p, w)
  }

  // The same step, as seen in unbounded time.
  function Meaning(s: Kernel, st: Step): Event {
    match st
    case TickStep => TickEvent
    case DelayStep(d, forever, place) => BlockEvent(s.current, d, forever, place)
    case RemoveStep(t) => WakeEvent(t)
    case RemoveUnorderedStep(t) => WakeNowEvent(t)
    case SuspendStep(t) => SuspendEvent(t)
    case ResumeStep(t) => if t == s.current then OtherEvent else ResumeEvent(t)
    case ResumeFromISRStep(t) => ResumeFromISREvent(t)
    case SuspendAllStep => SuspendAllEvent
    case ResumeAllStep => ResumeAllEvent
    case SwitchStep => OtherEvent
    case PriorityStep(t, p) => OtherEvent
    case CreateStep(t, p) => WakeNowEvent(t)
    case InheritStep(t) => OtherEvent
    case LowerStep(t, p) => OtherEvent
    case GiveStep(p, w) => if w.Wakes? then WakeEvent(w.t) else OtherEvent
  }

  ghost predicate Good(s: Kernel, idle: Task) {
    Valid(s) && idle in s.lists.at && s.lists.at[idle].Ready?
  }

  lemma GoodParts(s: Kernel, idle: Task)
    requires Good(s, idle)
    ensures Valid(s) && Consistent(s) && Structure(s) && SomeReady(s) && s.nest >= 0
    ensures idle in View(s).phase && View(s).phase[idle] == Runnable
  {
  }

  lemma RunnableIsReady(s: Kernel, idle: Task)
    requires Valid(s) && idle in View(s).phase && View(s).phase[idle] == Runnable
    ensures Good(s, idle)
  {
    var l := s.lists;
    assert Somewhere(l.at);
  }

  lemma RemoveUnorderedRefines(s: Kernel, t: Task)
    requires Valid(s) && t in s.prio
    ensures Valid(RemoveFromUnorderedEventList(s, t)) && View(RemoveFromUnorderedEventList(s, t)) == WakeNow(View(s), t)
  {
    hide Valid, Structure, Consistent, MakeReady, View;
    ValidStructure(s);
    MakeReadyValid(s, t);
    MakeReadyView(s, t);
    YieldValid(MakeReady(s, t), RemoveFromUnorderedEventList(s, t).yieldPending);
    YieldConsistent(MakeReady(s, t), RemoveFromUnorderedEventList(s, t).yieldPending);
  }

  lemma ViewNest(s: Kernel)
    ensures View(s).nest == s.nest
  {
  }

  lemma ResumeCurrent(s: Kernel)
    ensures KernelSteps.ResumeTask(s, s.current) == s
  {
  }

  // The step keeps the invariant and does in unbounded time what it should.
  ghost predicate Refines(s: Kernel, st: Step) {
    Valid(Next(s, st)) && View(Next(s, st)) == Happens(View(s), Meaning(s, st))
  }

  lemma TickStepRefines(s: Kernel)
    requires Valid(s)
    ensures Refines(s, TickStep)
  {
    hide Valid, Consistent, Structure, View, TickInterrupt, Tick;
    TickInterruptRefines(s);
  }

  lemma DelayStepRefines(s: Kernel, d: nat, forever: bool, place: EventPlace)
    requires Valid(s) && 0 < d < W && place != PendingReady && Running(s)
    ensures Refines(s, DelayStep(d, forever, place))
  {
    hide Valid, Consistent, Structure, View, AddCurrentTaskToDelayedList, Block;
    BlockValid(s, d, forever, place);
    BlockView(s, d, forever, place);
  }

  lemma RemoveStepRefines(s: Kernel, t: Task)
    requires Valid(s) && t in s.prio && t in s.event && s.event[t] == OnObject
    ensures Refines(s, RemoveStep(t))
  {
    hide Valid, Consistent, Structure, View, RemoveFromEventList, Wake;
    RemoveFromEventListValid(s, t);
    RemoveFromEventListView(s, t);
  }

  lemma RemoveUnorderedStepRefines(s: Kernel, t: Task)
    requires Valid(s) && t in s.prio
    ensures Refines(s, RemoveUnorderedStep(t))
  {
    hide Valid, Consistent, Structure, View, RemoveFromUnorderedEventList, WakeNow;
    RemoveUnorderedRefines(s, t);
  }

  lemma SuspendStepRefines(s: Kernel, t: Task)
    requires Valid(s) && t in s.prio
    ensures Refines(s, SuspendStep(t))
  {
    hide Valid, Consistent, Structure, View, KernelSteps.SuspendTask, DelayModel.SuspendTask;
    ValidStructure(s);
    SuspendTaskValid(s, t);
    SuspendTaskView(s, t);
  }

  lemma ResumeStepRefines(s: Kernel, t: Task)
    requires Valid(s) && t in s.prio
    ensures Refines(s, ResumeStep(t))
  {
    hide Valid, Consistent, Structure, View, KernelSteps.ResumeTask, DelayModel.ResumeTask;
    ValidStructure(s);
    ResumeTaskValid(s, t);
    ResumeTaskView(s, t);
    ResumeCurrent(s);
  }

  lemma ResumeFromISRStepRefines(s: Kernel, t: Task)
    requires Valid(s) && t in s.prio
    ensures Refines(s, ResumeFromISRStep(t))
  {
    hide Valid, Consistent, Structure, View, KernelSteps.ResumeTaskFromISR, DelayModel.ResumeTaskFromISR;
    ValidStructure(s);
    ResumeTaskValid(s, t);
    ResumeTaskFromISRView(s, t);
  }

  lemma SuspendAllStepRefines(s: Kernel)
    requires Valid(s)
    ensures Refines(s, SuspendAllStep)
  {
    hide Valid, Consistent, Structure, View, KernelResume.SuspendAll, DelayModel.SuspendAll;
    SuspendAllRefines(s);
  }

  lemma ResumeAllStepRefines(s: Kernel)
    requires Valid(s) && s.nest > 0
    ensures Refines(s, ResumeAllStep)
  {
    hide Valid, Consistent, Structure, View, KernelResume.ResumeAll, DelayModel.ResumeAll;
    ViewNest(s);
    ResumeAllRefines(s);
  }

  lemma SwitchStepRefines(s: Kernel)
    requires Valid(s) && SomeReady(s)
    ensures Refines(s, SwitchStep)
  {
    hide Valid, Consistent, Structure, View, SwitchContext, SomeReady, Highest;
    SwitchContextValid(s);
  }

  lemma PriorityStepRefines(s: Kernel, t: Task, p: nat)
    requires Valid(s) && t in s.prio
    ensures Refines(s, PriorityStep(t, p))
  {
    hide Valid, Consistent, Structure, View, PrioritySet;
    PrioritySetValid(s, t, p);
  }

  lemma CreateStepRefines(s: Kernel, t: Task, p: nat)
    requires Valid(s) && t !in s.prio
    ensures Refines(s, CreateStep(t, p))
  {
    hide Valid, Consistent, Structure, View, AddNewTask, WakeNow;
    AddNewTaskRefines(s, t, Clamp(p));
  }

  lemma InheritStepRefines(s: Kernel, t: Task)
    requires Valid(s) && t in s.prio
    ensures Refines(s, InheritStep(t))
  {
    hide Valid, Consistent, Structure, View, InheritPriority;
    InheritValid(s, t);
  }

  lemma LowerStepRefines(s: Kernel, t: Task, p: nat)
    requires Valid(s) && t in s.prio && p <= s.prio[t]
    ensures Refines(s, LowerStep(t, p))
  {
    hide Valid, Consistent, Structure, View, ChangePriority;
    KnownPriority(s, t);
    ChangeValid(s, t, p);
  }

  lemma GiveStepRefines(s: Kernel, p: nat, w: Woken)
    requires Valid(s) && p <= ValueOf(s.prio, s.current)
    requires w.Wakes? ==> w.t in s.prio && w.t in s.event && s.event[w.t] == OnObject
    ensures Refines(s, GiveStep(p, w))
  {
    hide Valid, Consistent, Structure, View, GiveMutex, Wake;
    ValidCurrent(s);
    KnownPriority(s, s.current);
    GiveValid(s, p, w);
  }

  lemma StepRefines(s: Kernel, st: Step, idle: Task)
    requires Good(s, idle) && Can(s, st, idle)
    ensures Refines(s, st)
  {
    hide Refines, Valid, Consistent, Structure, View, SomeReady;
    GoodParts(s, idle);
    match st
    case TickStep => TickStepRefines(s);
    case DelayStep(d, forever, place) => DelayStepRefines(s, d, forever, place);
    case RemoveStep(t) => RemoveStepRefines(s, t);
    case RemoveUnorderedStep(t) => RemoveUnorderedStepRefines(s, t);
    case SuspendStep(t) => SuspendStepRefines(s, t);
    case ResumeStep(t) => ResumeStepRefines(s, t);
    case ResumeFromISRStep(t) => ResumeFromISRStepRefines(s, t);
    case SuspendAllStep => SuspendAllStepRefines(s);
    case ResumeAllStep => ResumeAllStepRefines(s);
    case SwitchStep => SwitchStepRefines(s);
    case PriorityStep(t, p) => PriorityStepRefines(s, t, p);
    case CreateStep(t, p) => CreateStepRefines(s, t, p);
    case InheritStep(t) => InheritStepRefines(s, t);
    case LowerStep(t, p) => LowerStepRefines(s, t, p);
    case GiveStep(p, w) => GiveStepRefines(s, p, w);
  }

  // ----- runs ----------------------------------------------------------------------------------

  function Steps(s: Kernel, sts: seq<Step>): Kernel
    decreases |sts|
  {
    if sts == [] then s else Steps(Next(s, sts[0]), sts[1..])
  }

  predicate CanSteps(s: Kernel, sts: seq<Step>, idle: Task)
    decreases |sts|
  {
    sts == [] || (Can(s, sts[0], idle) && CanSteps(Next(s, sts[0]), sts[1..], idle))
  }

  function Meanings(s: Kernel, sts: seq<Step>): seq<Event>
    decreases |sts|
  {
    if sts == [] then [] else [Meaning(s, sts[0])] + Meanings(Next(s, sts[0]), sts[1..])
  }

  lemma IdleIsNotBlocked(s: Kernel, st: Step, idle: Task)
    requires Can(s, st, idle)
    ensures !DelayRun.Blocks(Meaning(s, st), idle)
  {
  }

  lemma ViewKnows(s: Kernel, t: Task)
    requires Structure(s) && t in s.lists.at
    ensures t in View(s).phase && t in View(s).event
  {
  }

  lemma StepGood(s: Kernel, st: Step, idle: Task)
    requires Good(s, idle) && Can(s, st, idle)
    ensures Good(Next(s, st), idle)
  {
    ViewKnows(s, idle);
    hide Valid, Consistent, Structure, View, SomeReady, Next, Happens, Meaning, Can;
    GoodParts(s, idle);
    StepRefines(s, st, idle);
    IdleIsNotBlocked(s, st, idle);
    DelayRun.RunnableThroughEvent(View(s), Meaning(s, st), idle);
    RunnableIsReady(Next(s, st), idle);
  }

  // Every run of the kernel, with its two wrapping lists, held-back ticks and pending tasks, is a run
  // of the one queue of unbounded wake times.
  lemma {:induction false} RunRefines(s: Kernel, sts: seq<Step>, idle: Task)
    requires Good(s, idle) && CanSteps(s, sts, idle)
    ensures Good(Steps(s, sts), idle) && View(Steps(s, sts)) == Run(View(s), Meanings(s, sts))
    decreases |sts|
  {
    hide Good, View, Next, Happens, Meaning, Can;
    if sts != [] {
      StepGood(s, sts[0], idle);
      assert Refines(s, sts[0]) by { StepRefines(s, sts[0], idle); }
      RunRefines(Next(s, sts[0]), sts[1..], idle);
      assert Meanings(s, sts)[1..] == Meanings(Next(s, sts[0]), sts[1..]);
    }
  }

  // In particular everything that is reachable from the start keeps the invariants: any tasks may have
  // been created before the scheduler was started, the idle task among them.
  lemma ReachableGood(cs: seq<Creation>, idle: Task, sts: seq<Step>)
    requires cs != [] && AllDifferent(cs) && idle in Names(cs) && CanSteps(Started(cs), sts, idle)
    ensures Good(Steps(Started(cs), sts), idle)
  {
    hide Steps, CanSteps, Valid, View, Started;
    StartedGood(cs, idle);
    RunRefines(Started(cs), sts, idle);
  }

  lemma StartedGood(cs: seq<Creation>, idle: Task)
    requires cs != [] && AllDifferent(cs) && idle in Names(cs)
    ensures Good(Started(cs), idle)
  {
    StartedValid(cs);
    hide Valid, Started;
  }

  // On how many of the lists a task's state item is.
  ghost function Memberships(l: StateLists, t: Task): set<Place> {
    (if t in l.delayed then {Delayed} else {}) + (if t in l.overflow then {Overflow} else {})
    + (if t in l.suspended then {Suspended} else {})
    + (set p: nat | p < |l.ready| && t in l.ready[p].items :: Ready(p))
  }

  lemma OneMembership(s: Kernel, t: Task)
    requires Valid(s) && t in s.prio
    ensures t in s.lists.at && Memberships(s.lists, t) == {s.lists.at[t]}
    ensures s.lists.at[t].Ready? ==> s.lists.at[t] == Ready(s.prio[t]) && s.prio[t] <= s.lists.top
    ensures s.nest == 0 ==> s.pending == []
  {
    var l := s.lists;
    assert Somewhere(l.at);
    forall p: nat | p < |l.ready| ensures t in l.ready[p].items <==> l.at[t] == Ready(p) {
      assert ReadyAt(l.ready[p], l.at, p);
    }
  }

  // In every reachable state each task is on exactly one list, a ready task on that of its current
  // priority and not above uxTopReadyPriority; nothing is pending while the scheduler runs; and the
  // next selection ends, at a ready task of the highest priority.
  lemma ReachableLists(cs: seq<Creation>, idle: Task, sts: seq<Step>, t: Task)
    requires cs != [] && AllDifferent(cs) && idle in Names(cs) && CanSteps(Started(cs), sts, idle)
    requires t in Steps(Started(cs), sts).prio
    ensures var s := Steps(Started(cs), sts);
            && t in s.lists.at && Memberships(s.lists, t) == {s.lists.at[t]}
            && (s.lists.at[t].Ready? ==> s.lists.at[t] == Ready(s.prio[t]) && s.prio[t] <= s.lists.top)
            && (s.nest == 0 ==> s.pending == [] && Highest(SwitchContext(s)))
  {
    hide Steps, CanSteps, Valid, SwitchContext, Highest, SomeReady, Memberships, Started;
    ReachableGood(cs, idle, sts);
    var s := Steps(Started(cs), sts);
    GoodParts(s, idle);
    OneMembership(s, t);
    SwitchContextValid(s);
  }

  // None of the steps blocks, wakes or suspends t.
  predicate Undisturbed(s: Kernel, sts: seq<Step>, t: Task)
    decreases |sts|
  {
    sts == [] || (!DelayRun.Touches(Meaning(s, sts[0]), t) && Undisturbed(Next(s, sts[0]), sts[1..], t))
  }

  lemma {:induction false} UndisturbedEvents(s: Kernel, sts: seq<Step>, t: Task)
    requires Undisturbed(s, sts, t)
    ensures forall e :: e in Meanings(s, sts) ==> !DelayRun.Touches(e, t)
    decreases |sts|
  {
    hide Next, Meaning, DelayRun.Touches;
    if sts != [] {
      UndisturbedEvents(Next(s, sts[0]), sts[1..], t);
    }
  }

  lemma PlaceOfPhase(s: Kernel, t: Task, wake: nat)
    requires Valid(s) && DelayRun.Sleeps(View(s), t, wake)
    ensures t in s.lists.at && t in s.prio
    ensures View(s).clock >= wake ==> s.lists.at[t] == Ready(s.prio[t])
    ensures View(s).clock < wake ==> s.lists.at[t].Delayed? || s.lists.at[t].Overflow?
  {
    assert Somewhere(s.lists.at);
    assert t in View(s).phase && View(s).phase[t] == PhaseOf(s.lists.at[t], ValueOf(s.value, t), s.epoch);
  }

  lemma DelayStarts(s: Kernel, d: nat, forever: bool, place: EventPlace, idle: Task)
    requires Good(s, idle) && Can(s, DelayStep(d, forever, place), idle)
    ensures Good(Next(s, DelayStep(d, forever, place)), idle) && 0 < d && place != PendingReady
    ensures View(Next(s, DelayStep(d, forever, place))) == Block(View(s), s.current, d, forever, place)
  {
    hide Good, View, Next, Block, Valid;
    StepGood(s, DelayStep(d, forever, place), idle);
    StepRefines(s, DelayStep(d, forever, place), idle);
  }

  lemma SleepsToTheEnd(n: Kernel, a: Delays, d: nat, forever: bool, place: EventPlace, t: Task, sts: seq<Step>,
                       idle: Task)
    requires Good(n, idle) && View(n) == Block(a, t, d, forever, place)
    requires 0 < d && place != PendingReady && (d == MAX_DELAY ==> !forever)
    requires CanSteps(n, sts, idle) && Undisturbed(n, sts, t)
    ensures Valid(Steps(n, sts)) && DelayRun.Sleeps(View(Steps(n, sts)), t, a.clock + d)
  {
    hide Good, View, DelayRun.Touches, DelayRun.Sleeps, Steps, Meanings, Run, Undisturbed, CanSteps, Block, Valid;
    RunRefines(n, sts, idle);
    UndisturbedEvents(n, sts, t);
    DelayRun.DelayIsExact(a, Meanings(n, sts), t, d, forever, place);
    GoodParts(Steps(n, sts), idle);
  }

  // The running task blocks for d ticks when the unbounded clock stands at T. In every state of
  // every later run it is on its ready list if T + d ticks have been processed and on one of the two
  // delayed lists if not, unless something else blocks, wakes or suspends it.
  lemma ReleasedOnTime(s: Kernel, d: nat, forever: bool, place: EventPlace, sts: seq<Step>, idle: Task)
    requires Good(s, idle) && Can(s, DelayStep(d, forever, place), idle) && (d == MAX_DELAY ==> !forever)
    requires var n := Next(s, DelayStep(d, forever, place));
             CanSteps(n, sts, idle) && Undisturbed(n, sts, s.current)
    ensures var e, t := Steps(Next(s, DelayStep(d, forever, place)), sts), s.current;
            && t in e.lists.at && t in e.prio
            && if View(e).clock >= View(s).clock + d then e.lists.at[t] == Ready(e.prio[t])
               else e.lists.at[t].Delayed? || e.lists.at[t].Overflow?
  {
    hide Good, View, Next, Can, DelayRun.Sleeps, Steps, Undisturbed, CanSteps, Block, Valid;
    var n := Next(s, DelayStep(d, forever, place));
    DelayStarts(s, d, forever, place, idle);
    SleepsToTheEnd(n, View(s), d, forever, place, s.current, sts, idle);
    PlaceOfPhase(Steps(n, sts), s.current, View(s).clock + d);
  }
}
