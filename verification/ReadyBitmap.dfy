/** The bit map of ready priorities that the port uses instead of the generic search, along kernel runs. */
module ReadyBitmap {
  import opened Ticks
  import opened ListSpec
  import opened DelayModel
  import opened StateLists
  import opened KernelModel
  import opened KernelTick
  import opened KernelSteps
  import opened KernelResume
  import opened KernelReady
  import opened KernelRun

  // ----- the bit map -----------------------------------------------------------------------------

  ghost predicate Someone(at: map<Task, Place>, p: nat) {
    exists t :: t in at && at[t] == Ready(p)
  }

  // bits holds the numbers of the bits that are set. A bit is set exactly if a task is on the ready
  // list of that priority.
  ghost predicate Exact(at: map<Task, Place>, bits: set<nat>) {
    forall p: nat :: p in bits <==> Someone(at, p)
  }

  // No other task is on the list.
  ghost predicate Alone(at: map<Task, Place>, t: Task)
    requires t in at
  {
    forall u :: u in at && at[u] == at[t] ==> u == t
  }

  // uxListRemove of a ready task's item, with portRESET_READY_PRIORITY for the given priority if the list
  // is empty then.
  ghost function Dropped(at: map<Task, Place>, bits: set<nat>, t: Task, reset: nat): set<nat> {
    if t in at && at[t].Ready? && Alone(at, t) then bits - {reset} else bits
  }

  // The priorities that prvAddTaskToReadyList records, for the tasks that become ready.
  function Recorded(at: map<Task, Place>, r: map<Task, Place>): set<nat> {
    set t | t in r && r[t].Ready? && !(t in at && at[t] == r[t]) :: r[t].prio
  }

  // Every task that was ready is so still, at its priority.
  ghost predicate Stays(at: map<Task, Place>, r: map<Task, Place>) {
    forall t :: t in at && at[t].Ready? ==> t in r && r[t] == at[t]
  }

  lemma RecordedIs(at: map<Task, Place>, r: map<Task, Place>, t: Task)
    requires t in r && r[t].Ready? && !(t in at && at[t] == r[t])
    ensures r[t].prio in Recorded(at, r)
  {
  }

  lemma StaysExact(at: map<Task, Place>, r: map<Task, Place>, bits: set<nat>)
    requires Exact(at, bits) && Stays(at, r)
    ensures Exact(r, bits + Recorded(at, r))
  {
    forall p: nat ensures p in bits + Recorded(at, r) <==> Someone(r, p) {
      if Someone(at, p) {
        var t :| t in at && at[t] == Ready(p);
        assert t in r && r[t] == Ready(p);
      }
      if Someone(r, p) {
        var t :| t in r && r[t] == Ready(p);
        if t in at && at[t] == Ready(p) {
          assert Someone(at, p);
        } else {
          RecordedIs(at, r, t);
        }
      }
    }
  }

  // A ready task leaves its list for one that is not a ready list.
  lemma DropKeeps(at: map<Task, Place>, bits: set<nat>, t: Task, x: Place)
    requires Exact(at, bits) && t in at && !x.Ready?
    ensures Exact(at[t := x], Dropped(at, bits, t, if at[t].Ready? then at[t].prio else 0))
  {
    var r := at[t := x];
    forall p: nat ensures Someone(r, p) <==> Someone(at, p) && !(at[t] == Ready(p) && Alone(at, t)) {
      if Someone(r, p) {
        var u :| u in r && r[u] == Ready(p);
        assert u in at && at[u] == Ready(p) && u != t;
      }
      if Someone(at, p) && !(at[t] == Ready(p) && Alone(at, t)) {
        var u :| u in at && at[u] == Ready(p) && u != t;
        assert u in r && r[u] == Ready(p);
      }
    }
  }

  lemma Moved(at: map<Task, Place>, t: Task, p: nat, q: nat)
    requires t in at && at[t].Ready?
    ensures Someone(at[t := Ready(p)], q) <==> q == p || (Someone(at, q) && !(at[t] == Ready(q) && Alone(at, t)))
  {
    var r := at[t := Ready(p)];
    assert r[t] == Ready(p);
    if Someone(r, q) && q != p {
      var u :| u in r && r[u] == Ready(q);
      assert u in at && at[u] == Ready(q) && u != t;
    }
    if Someone(at, q) && !(at[t] == Ready(q) && Alone(at, t)) {
      var u :| u in at && at[u] == Ready(q) && u != t;
      assert u in r && r[u] == Ready(q);
    }
  }

  // vTaskPrioritySet, xTaskPriorityInherit and xTaskPriorityDisinherit reset the old priority.
  lemma ResetOldKeeps(at: map<Task, Place>, bits: set<nat>, t: Task, p: nat)
    requires Exact(at, bits) && t in at && at[t].Ready?
    ensures Exact(at[t := Ready(p)], Dropped(at, bits, t, at[t].prio) + {p})
  {
    forall q: nat ensures q in Dropped(at, bits, t, at[t].prio) + {p} <==> Someone(at[t := Ready(p)], q) {
      Moved(at, t, p, q);
    }
  }

  // vTaskPriorityDisinheritAfterTimeout resets the new priority, having changed the field before: the
  // bit map stays right exactly if another task is left at the old priority.
  lemma ResetNewKeepsIff(at: map<Task, Place>, bits: set<nat>, t: Task, p: nat)
    requires Exact(at, bits) && t in at && at[t].Ready? && at[t].prio != p
    ensures Exact(at[t := Ready(p)], Dropped(at, bits, t, p) + {p}) <==> !Alone(at, t)
  {
    var r, d := at[t := Ready(p)], Dropped(at, bits, t, p) + {p};
    Moved(at, t, p, at[t].prio);
    assert Someone(at, at[t].prio);
    if !Alone(at, t) {
      forall q: nat ensures q in d <==> Someone(r, q) {
        Moved(at, t, p, q);
      }
    }
  }

  // As long as it is right, the highest bit is the priority at which the generic search ends.
  lemma HighestBitIsTop(l: StateLists, bits: set<nat>, h: nat)
    requires Placed(l) && Exact(l.at, bits) && h in bits && forall p :: p in bits ==> p <= h
    ensures l.top < |l.ready| && h == TopPriority(l.ready, l.top)
  {
    var t :| t in l.at && l.at[t] == Ready(h);
    NoneAbove(l, t);
    TopIsReady(l);
    var q := TopPriority(l.ready, l.top);
    assert ReadyAt(l.ready[q], l.at, q);
    var u := l.ready[q].items[0];
    assert u in l.ready[q].items && l.at[u] == Ready(q);
    assert Someone(l.at, q);
  }

  // ----- the bit map along a run -----------------------------------------------------------------

  // A change of the priority of t: a ready task leaves the list of its old priority, with a reset of the
  // bit of the given priority, and joins that of the new one.
  ghost function Changed(s: Kernel, bits: set<nat>, t: Task, p: nat, reset: nat): set<nat> {
    if t in s.lists.at && s.lists.at[t].Ready? then Dropped(s.lists.at, bits, t, reset) + {p} else bits
  }

  // A change that resets the bit of the old priority, as long as there is a change.
  ghost function ChangedRight(s: Kernel, bits: set<nat>, t: Task, p: nat): set<nat> {
    if ValueOf(s.prio, t) != p then Changed(s, bits, t, p, ValueOf(s.prio, t)) else bits
  }

  // vTaskPriorityDisinheritAfterTimeout passes the new priority to the macro that resets.
  ghost function ChangedWrong(s: Kernel, bits: set<nat>, t: Task, p: nat): set<nat> {
    if ValueOf(s.prio, t) != p then Changed(s, bits, t, p, p) else bits
  }

  ghost function PrioritySetBits(s: Kernel, bits: set<nat>, t: Task, level: nat): set<nat> {
    if ValueOf(s.base, t) == Clamp(level) then bits
    else
      var p := if ValueOf(s.base, t) == ValueOf(s.prio, t) then Clamp(level) else ValueOf(s.prio, t);
      Changed(s, bits, t, p, ValueOf(s.prio, t))
  }

  ghost function InheritBits(s: Kernel, bits: set<nat>, t: Task): set<nat> {
    if ValueOf(s.prio, t) < ValueOf(s.prio, s.current)
    then Changed(s, bits, t, ValueOf(s.prio, s.current), ValueOf(s.prio, t)) else bits
  }

  // The bit map after the step. Everything that becomes ready is recorded.
  ghost function BitsAfter(s: Kernel, st: Step, bits: set<nat>): set<nat> {
    match st
    case DelayStep(_, _, _) => Dropped(s.lists.at, bits, s.current, ValueOf(s.prio, s.current))
    case SuspendStep(t) => Dropped(s.lists.at, bits, t, ValueOf(s.prio, t))
    case PriorityStep(t, level) => PrioritySetBits(s, bits, t, level)
    case InheritStep(t) => InheritBits(s, bits, t)
    case LowerStep(t, p) => ChangedWrong(s, bits, t, p)
    case GiveStep(p, w) =>
      ChangedRight(s, bits, s.current, p)
      + Recorded(ChangePriority(s, s.current, p).lists.at, Next(s, st).lists.at)
    case _ => bits + Recorded(s.lists.at, Next(s, st).lists.at)
  }

  // The holder is lowered from a priority at which no other task is ready.
  ghost predicate Stale(s: Kernel, st: Step) {
    && st.LowerStep? && st.t in s.lists.at && s.lists.at[st.t].Ready? && Alone(s.lists.at, st.t)
    && ValueOf(s.prio, st.t) != st.p
  }

  // ----- steps that only make tasks ready --------------------------------------------------------

  lemma StaysTwice(a: map<Task, Place>, b: map<Task, Place>, c: map<Task, Place>)
    requires Stays(a, b) && Stays(b, c)
    ensures Stays(a, c)
  {
  }

  lemma ReadiedStays(s: Kernel, t: Task)
    requires Structure(s) && t in s.prio && t in s.lists.at && !s.lists.at[t].Ready?
    ensures Stays(s.lists.at, MakeReady(s, t).lists.at)
  {
    MakeReadyMoves(s, t);
  }

  lemma SwapStays(l: StateLists)
    ensures Stays(l.at, SwapDelayed(l).at)
  {
  }

  lemma CountedStays(s: Kernel)
    ensures Stays(s.lists.at, Counted(s).lists.at)
  {
    hide Stays, SwapDelayed;
    SwapStays(s.lists);
    StaysSame(s.lists.at);
  }

  lemma TickStays(s: Kernel)
    requires Consistent(s)
    ensures Stays(s.lists.at, IncrementTick(s).lists.at)
  {
    hide Placed, Queued, Pended, ReadyItems, Somewhere, Counted, Drain;
    CountedStructure(s);
    CountedStays(s);
    DrainedWhenDue(Counted(s));
    StructureTasks(Counted(s));
    StaysTwice(s.lists.at, Counted(s).lists.at, IncrementTick(s).lists.at);
  }

  lemma {:induction false} ReleaseAllStays(s: Kernel)
    requires Consistent(s)
    ensures Stays(s.lists.at, ReleaseAll(s).lists.at)
    decreases |s.pending|
  {
    hide Stays, ReleaseHead;
    if s.pending != [] {
      ConsistentStructure(s);
      PendedHead(s);
      NotReady(s, s.pending[0]);
      HeadStays(s);
      ReleaseHeadStep(s);
      hide Consistent, Structure;
      ReleaseAllStays(ReleaseHead(s));
      StaysTwice(s.lists.at, ReleaseHead(s).lists.at, ReleaseAll(s).lists.at);
    } else {
      StaysSame(s.lists.at);
    }
  }

  lemma HeadStays(s: Kernel)
    requires Structure(s) && s.pending != [] && s.pending[0] in s.prio
    requires s.pending[0] in s.lists.at && !s.lists.at[s.pending[0]].Ready?
    ensures Stays(s.lists.at, ReleaseHead(s).lists.at)
  {
    ReadiedStays(s, s.pending[0]);
    hide MakeReady;
  }

  lemma {:induction false} ReplayStays(s: Kernel, n: nat)
    requires Consistent(s)
    ensures Stays(s.lists.at, ReplayTicks(s, n).lists.at)
    decreases n
  {
    hide Stays, Consistent, IncrementTick, SwitchRequired;
    if n > 0 {
      TickStays(s);
      TickKeepsConsistent(s);
      YieldConsistent(IncrementTick(s), ReplayTick(s).yieldPending);
      ReplayStays(ReplayTick(s), n - 1);
      StaysTwice(s.lists.at, ReplayTick(s).lists.at, ReplayTicks(s, n).lists.at);
    } else {
      StaysSame(s.lists.at);
    }
  }

  lemma StaysSame(at: map<Task, Place>)
    ensures Stays(at, at)
  {
  }

  lemma ResumeAllStays(s: Kernel)
    requires Valid(s) && s.nest > 0
    ensures Stays(s.lists.at, KernelResume.ResumeAll(s).lists.at)
  {
    hide Stays, Consistent, ReleaseAll, ReplayTicks;
    var r := s.(nest := s.nest - 1);
    StaysSame(s.lists.at);
    NestKeeps(s, s.nest - 1, s.pended);
    ReleaseAllStays(r);
    ReleasedRefines(r);
    ReplayStays(PendingReleased(r), r.pended);
    StaysTwice(r.lists.at, PendingReleased(r).lists.at, ReplayTicks(PendingReleased(r), r.pended).lists.at);
  }

  predicate OnlyReadies(st: Step) {
    st.TickStep? || st.RemoveStep? || st.RemoveUnorderedStep? || st.ResumeStep? || st.ResumeFromISRStep?
    || st.SuspendAllStep? || st.ResumeAllStep? || st.SwitchStep? || st.CreateStep?
  }

  lemma RemoveStays(s: Kernel, t: Task)
    requires Structure(s) && t in s.prio && t in s.event && s.event[t] == OnObject
    ensures Stays(s.lists.at, RemoveFromEventList(s, t).lists.at)
    ensures Stays(s.lists.at, RemoveFromUnorderedEventList(s, t).lists.at)
  {
    NotReady(s, t);
    hide Structure, MakeReady, Stays;
    ReadiedStays(s, t);
    StaysSame(s.lists.at);
  }

  lemma ResumeStays(s: Kernel, t: Task)
    requires Structure(s) && t in s.prio
    ensures Stays(s.lists.at, KernelSteps.ResumeTask(s, t).lists.at)
    ensures Stays(s.lists.at, KernelSteps.ResumeTaskFromISR(s, t).lists.at)
  {
    hide Structure, MakeReady, Stays;
    StaysSame(s.lists.at);
    if IsTaskSuspended(s, t) {
      ReadiedStays(s, t);
    }
  }

  lemma CreateStays(s: Kernel, t: Task, p: nat)
    requires Structure(s) && t !in s.prio && p < configMAX_PRIORITIES
    ensures Stays(s.lists.at, AddNewTask(s, t, p).lists.at)
  {
    StructureTasks(s);
    NewTaskPlaced(s.lists, t, p);
  }

  lemma SwitchStays(s: Kernel)
    requires Valid(s) && SomeReady(s)
    ensures SwitchContext(s).lists.at == s.lists.at
  {
    ValidStructure(s);
    SelectSteps(s.(yieldPending := false));
  }

  lemma StepStays(s: Kernel, st: Step, idle: Task)
    requires Good(s, idle) && Can(s, st, idle) && OnlyReadies(st)
    ensures Stays(s.lists.at, Next(s, st).lists.at)
  {
    hide Good, Valid, Consistent, Structure, SomeReady, Stays, IncrementTick, RemoveFromEventList;
    hide RemoveFromUnorderedEventList, KernelSteps.ResumeTask, KernelSteps.ResumeTaskFromISR, KernelResume.ResumeAll;
    hide SwitchContext, AddNewTask;
    GoodParts(s, idle);
    StaysSame(s.lists.at);
    match st
    case TickStep => TickStays(s);
    case RemoveStep(t) => RemoveStays(s, t);
    case RemoveUnorderedStep(t) => RemoveStays(s, t);
    case ResumeStep(t) => ResumeStays(s, t);
    case ResumeFromISRStep(t) => ResumeStays(s, t);
    case ResumeAllStep => ResumeAllStays(s);
    case SwitchStep => SwitchStays(s);
    case CreateStep(t, p) => CreateStays(s, t, Clamp(p));
    case _ =>
  }

  // ----- steps that move ready tasks -------------------------------------------------------------

  lemma ReadyAtPriority(s: Kernel, t: Task)
    requires Structure(s) && t in s.prio
    ensures t in s.lists.at && s.prio[t] < configMAX_PRIORITIES
    ensures s.lists.at[t].Ready? ==> s.lists.at[t] == Ready(s.prio[t])
  {
  }

  lemma DelayExact(s: Kernel, d: nat, forever: bool, place: EventPlace, bits: set<nat>)
    requires Structure(s) && Running(s) && 0 < d < W && Exact(s.lists.at, bits)
    ensures Exact(AddCurrentTaskToDelayedList(s, d, forever, place).lists.at,
                  Dropped(s.lists.at, bits, s.current, ValueOf(s.prio, s.current)))
  {
    ReadyAtPriority(s, s.current);
    StructureTasks(s);
    hide Structure, Exact, Placed, AddBlocked, RemoveItem, Dropped, TickAdd;
    var p := BlockPlace(s.tick, d, forever);
    MovedToBlocked(s.lists, s.current, p,
                   s.value[s.current := if p == Suspended then ValueOf(s.value, s.current) else TickAdd(s.tick, d)]);
    DropKeeps(s.lists.at, bits, s.current, p);
  }

  lemma SuspendExact(s: Kernel, t: Task, bits: set<nat>)
    requires Structure(s) && t in s.prio && Exact(s.lists.at, bits)
    ensures Exact(KernelSteps.SuspendTask(s, t).lists.at, Dropped(s.lists.at, bits, t, ValueOf(s.prio, t)))
  {
    ReadyAtPriority(s, t);
    StructureTasks(s);
    hide Structure, Exact, Placed, AddBlocked, RemoveItem;
    MovedToSuspended(s.lists, t, s.value);
    DropKeeps(s.lists.at, bits, t, Suspended);
  }

  // The bit of the old priority is reset.
  lemma ChangedExact(s: Kernel, t: Task, p: nat, bits: set<nat>)
    requires Structure(s) && t in s.prio && p < configMAX_PRIORITIES && Exact(s.lists.at, bits)
    ensures Exact(SetPriority(s, t, p).lists.at, Changed(s, bits, t, p, s.prio[t]))
  {
    ReadyAtPriority(s, t);
    hide Structure, Exact, Placed, SetPriority, Dropped;
    SetPriorityMoves(s, t, p);
    if s.lists.at[t].Ready? {
      ResetOldKeeps(s.lists.at, bits, t, p);
    }
  }

  lemma LowerExactIff(s: Kernel, t: Task, p: nat, bits: set<nat>)
    requires Structure(s) && t in s.prio && p <= s.prio[t] && Exact(s.lists.at, bits)
    ensures Exact(ChangePriority(s, t, p).lists.at, ChangedWrong(s, bits, t, p)) <==> !Stale(s, LowerStep(t, p))
  {
    hide Structure, Exact, Placed, SetPriority, Dropped, Alone;
    ReadyAtPriority(s, t);
    if s.prio[t] != p {
      SetPriorityMoves(s, t, p);
      LoweredExactIff(s, SetPriority(s, t, p).lists.at, t, p, bits);
    }
  }

  lemma LoweredExactIff(s: Kernel, r: map<Task, Place>, t: Task, p: nat, bits: set<nat>)
    requires t in s.lists.at && t in s.prio && s.prio[t] != p && Exact(s.lists.at, bits)
    requires s.lists.at[t].Ready? ==> s.lists.at[t] == Ready(s.prio[t])
    requires r == if s.lists.at[t].Ready? then s.lists.at[t := Ready(p)] else s.lists.at
    ensures Exact(r, Changed(s, bits, t, p, p)) <==> !Stale(s, LowerStep(t, p))
  {
    hide Exact, Dropped, Alone;
    if s.lists.at[t].Ready? {
      ResetNewKeepsIff(s.lists.at, bits, t, p);
    }
  }

  lemma PriorityExact(s: Kernel, t: Task, level: nat, bits: set<nat>)
    requires Structure(s) && t in s.prio && Exact(s.lists.at, bits)
    ensures Exact(PrioritySet(s, t, level).lists.at, PrioritySetBits(s, bits, t, level))
  {
    hide Structure, Exact, SetPriority, Changed;
    ReadyAtPriority(s, t);
    ChangedExact(s, t, Clamp(level), bits);
    ChangedExact(s, t, s.prio[t], bits);
  }

  lemma InheritExact(s: Kernel, t: Task, bits: set<nat>)
    requires Structure(s) && t in s.prio && s.current in s.prio && Exact(s.lists.at, bits)
    ensures Exact(InheritPriority(s, t).lists.at, InheritBits(s, bits, t))
  {
    hide Structure, Exact, SetPriority, Changed;
    ReadyAtPriority(s, s.current);
    ChangedExact(s, t, s.prio[s.current], bits);
  }

  lemma FallExact(s: Kernel, p: nat, bits: set<nat>)
    requires Structure(s) && s.current in s.prio && p < configMAX_PRIORITIES && Exact(s.lists.at, bits)
    ensures Exact(ChangePriority(s, s.current, p).lists.at, ChangedRight(s, bits, s.current, p))
  {
    hide Structure, Exact, SetPriority, Changed;
    ChangedExact(s, s.current, p, bits);
  }

  lemma GiveStays(q: Kernel, w: Woken)
    requires Structure(q) && (w.Wakes? ==> w.t in q.prio && w.t in q.event && q.event[w.t] == OnObject)
    ensures Stays(q.lists.at, (match w case Nobody => q case Wakes(t) => RemoveFromEventList(q, t)).lists.at)
  {
    hide Structure, Stays, RemoveFromEventList;
    StaysSame(q.lists.at);
    if w.Wakes? {
      RemoveStays(q, w.t);
    }
  }

  lemma GiveExact(s: Kernel, p: nat, w: Woken, bits: set<nat>)
    requires Valid(s) && p <= ValueOf(s.prio, s.current) && Exact(s.lists.at, bits)
    requires w.Wakes? ==> w.t in s.prio && w.t in s.event && s.event[w.t] == OnObject
    ensures Exact(GiveMutex(s, p, w).lists.at,
                  ChangedRight(s, bits, s.current, p)
                  + Recorded(ChangePriority(s, s.current, p).lists.at, GiveMutex(s, p, w).lists.at))
  {
    hide Valid, Structure, Consistent, Exact, ChangedRight, ChangePriority, RemoveFromEventList, Placed;
    hide Stays, Recorded;
    ValidCurrent(s);
    ValidStructure(s);
    KnownPriority(s, s.current);
    ChangeValid(s, s.current, p);
    var q := ChangePriority(s, s.current, p);
    ValidStructure(q);
    ChangeFields(s, s.current, p);
    FallExact(s, p, bits);
    GiveStays(q, w);
    StaysExact(q.lists.at, GiveMutex(s, p, w).lists.at, ChangedRight(s, bits, s.current, p));
  }

  // ----- runs ------------------------------------------------------------------------------------

  lemma StaleIs(s: Kernel, st: Step)
    ensures Stale(s, st) ==> st.LowerStep?
  {
  }

  lemma PlainExact(s: Kernel, st: Step, idle: Task, bits: set<nat>)
    requires Good(s, idle) && Can(s, st, idle) && Exact(s.lists.at, bits) && OnlyReadies(st)
    ensures Exact(Next(s, st).lists.at, BitsAfter(s, st, bits)) && !Stale(s, st)
  {
    hide Good, Stays, Exact, Recorded, Next, Can;
    StepStays(s, st, idle);
    StaysExact(s.lists.at, Next(s, st).lists.at, bits);
  }

  lemma OwnStepExact(s: Kernel, st: Step, idle: Task, bits: set<nat>)
    requires Good(s, idle) && Can(s, st, idle) && Exact(s.lists.at, bits)
    requires st.DelayStep? || st.SuspendStep? || st.PriorityStep?
    ensures Exact(Next(s, st).lists.at, BitsAfter(s, st, bits)) && !Stale(s, st)
  {
    hide Good, Valid, Consistent, Structure, SomeReady, Stays, Exact, AddCurrentTaskToDelayedList, PrioritySet;
    hide KernelSteps.SuspendTask, InheritPriority, ChangePriority, GiveMutex, Changed, Dropped, Stale;
    hide PrioritySetBits, InheritBits, ChangedRight, ChangedWrong, Recorded;
    hide IncrementTick, RemoveFromEventList, RemoveFromUnorderedEventList, KernelSteps.ResumeTask, SwitchContext;
    hide KernelSteps.ResumeTaskFromISR, KernelResume.ResumeAll, AddNewTask;
    GoodParts(s, idle);
    StaleIs(s, st);
    match st
    case DelayStep(d, forever, place) => DelayExact(s, d, forever, place, bits);
    case SuspendStep(t) => SuspendExact(s, t, bits);
    case PriorityStep(t, level) => PriorityExact(s, t, level, bits);
  }

  lemma MutexStepExactIff(s: Kernel, st: Step, idle: Task, bits: set<nat>)
    requires Good(s, idle) && Can(s, st, idle) && Exact(s.lists.at, bits)
    requires st.InheritStep? || st.LowerStep? || st.GiveStep?
    ensures Exact(Next(s, st).lists.at, BitsAfter(s, st, bits)) <==> !Stale(s, st)
  {
    hide Good, Valid, Consistent, Structure, SomeReady, Stays, Exact, AddCurrentTaskToDelayedList, PrioritySet;
    hide KernelSteps.SuspendTask, InheritPriority, ChangePriority, GiveMutex, Changed, Dropped, Stale;
    hide PrioritySetBits, InheritBits, ChangedRight, ChangedWrong, Recorded;
    hide IncrementTick, RemoveFromEventList, RemoveFromUnorderedEventList, KernelSteps.ResumeTask, SwitchContext;
    hide KernelSteps.ResumeTaskFromISR, KernelResume.ResumeAll, AddNewTask;
    GoodParts(s, idle);
    StaleIs(s, st);
    ValidCurrent(s);
    match st
    case InheritStep(t) => InheritExact(s, t, bits);
    case LowerStep(t, p) => LowerExactIff(s, t, p, bits);
    case GiveStep(p, w) => GiveExact(s, p, w, bits);
  }

  // One step keeps the bit map right, unless it is stale.
  lemma StepExactIff(s: Kernel, st: Step, idle: Task, bits: set<nat>)
    requires Good(s, idle) && Can(s, st, idle) && Exact(s.lists.at, bits)
    ensures Exact(Next(s, st).lists.at, BitsAfter(s, st, bits)) <==> !Stale(s, st)
  {
    hide *;
    if OnlyReadies(st) {
      PlainExact(s, st, idle, bits);
    } else if st.DelayStep? || st.SuspendStep? || st.PriorityStep? {
      OwnStepExact(s, st, idle, bits);
    } else {
      NotOnlyReadies(st);
      MutexStepExactIff(s, st, idle, bits);
    }
  }

  lemma NotOnlyReadies(st: Step)
    requires !OnlyReadies(st) && !st.DelayStep? && !st.SuspendStep? && !st.PriorityStep?
    ensures st.InheritStep? || st.LowerStep? || st.GiveStep?
  {
  }

  // In every state of the run.
  ghost predicate AlwaysExact(s: Kernel, sts: seq<Step>, bits: set<nat>)
    decreases |sts|
  {
    Exact(s.lists.at, bits) && (sts == [] || AlwaysExact(Next(s, sts[0]), sts[1..], BitsAfter(s, sts[0], bits)))
  }

  ghost predicate NeverStale(s: Kernel, sts: seq<Step>)
    decreases |sts|
  {
    sts == [] || (!Stale(s, sts[0]) && NeverStale(Next(s, sts[0]), sts[1..]))
  }

  lemma {:induction false} RunExactIff(s: Kernel, sts: seq<Step>, idle: Task, bits: set<nat>)
    requires Good(s, idle) && CanSteps(s, sts, idle) && Exact(s.lists.at, bits)
    ensures AlwaysExact(s, sts, bits) <==> NeverStale(s, sts)
    decreases |sts|
  {
    hide Good, Exact, Next, Can, Stale, BitsAfter;
    if sts != [] {
      StepExactIff(s, sts[0], idle, bits);
      StepGood(s, sts[0], idle);
      if Stale(s, sts[0]) {
        assert !AlwaysExact(Next(s, sts[0]), sts[1..], BitsAfter(s, sts[0], bits));
      } else {
        RunExactIff(Next(s, sts[0]), sts[1..], idle, BitsAfter(s, sts[0], bits));
      }
    }
  }

  // From the start, over every run: the bit map is right in every state, and so the two selections agree,
  // exactly if no time-out lowers a holder from a priority at which no other task is ready.
  lemma BitMapExactIff(cs: seq<Creation>, idle: Task, sts: seq<Step>)
    requires cs != [] && AllDifferent(cs) && idle in Names(cs) && CanSteps(Started(cs), sts, idle)
    ensures var s := Started(cs); AlwaysExact(s, sts, Recorded(map[], s.lists.at)) <==> NeverStale(s, sts)
  {
    hide Good, Exact, CanSteps, Started, AlwaysExact, NeverStale, Recorded;
    StartedGood(cs, idle);
    NoneExact();
    StaysNone(Started(cs).lists.at);
    StaysExact(map[], Started(cs).lists.at, {});
    assert {} + Recorded(map[], Started(cs).lists.at) == Recorded(map[], Started(cs).lists.at);
    RunExactIff(Started(cs), sts, idle, Recorded(map[], Started(cs).lists.at));
  }

  lemma NoneExact()
    ensures Exact(map[], {})
  {
  }

  lemma StaysNone(at: map<Task, Place>)
    ensures Stays(map[], at)
  {
  }
}
