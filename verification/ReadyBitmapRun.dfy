/** A run after which the bit map names a priority at which no task is ready. */
module ReadyBitmapRun {
  import opened Ticks
  import opened ListSpec
  import opened DelayModel
  import opened StateLists
  import opened KernelModel
  import opened KernelTick
  import opened KernelSteps
  import opened KernelResume
  import opened KernelReady
  import opened KernelRun
  import opened ReadyBitmap

  // The run is possible, and leads from s and bits to r and after.
  ghost predicate Leads(s: Kernel, bits: set<nat>, sts: seq<Step>, r: Kernel, after: set<nat>) {
    CanSteps(s, sts, IDLE) && Steps(s, sts) == r && BitsRun(s, sts, bits) == after
  }

  ghost function BitsRun(s: Kernel, sts: seq<Step>, bits: set<nat>): set<nat>
    decreases |sts|
  {
    if sts == [] then bits else BitsRun(Next(s, sts[0]), sts[1..], BitsAfter(s, sts[0], bits))
  }

  lemma LeadsOn(s: Kernel, bits: set<nat>, st: Step, rest: seq<Step>, r: Kernel, after: set<nat>)
    requires Can(s, st, IDLE) && Leads(Next(s, st), BitsAfter(s, st, bits), rest, r, after)
    ensures Leads(s, bits, [st] + rest, r, after)
  {
    assert ([st] + rest)[1..] == rest;
    hide Can, Next, BitsAfter;
  }

  lemma {:induction false} LeadsAppend(s: Kernel, bits: set<nat>, a: seq<Step>, q: Kernel, mid: set<nat>,
                                       b: seq<Step>, r: Kernel, after: set<nat>)
    requires Leads(s, bits, a, q, mid) && Leads(q, mid, b, r, after)
    ensures Leads(s, bits, a + b, r, after)
    decreases |a|
  {
    hide Can, Next, BitsAfter;
    if a == [] {
      assert a + b == b;
    } else {
      assert (a + b)[0] == a[0] && (a + b)[1..] == a[1..] + b;
      LeadsAppend(Next(s, a[0]), BitsAfter(s, a[0], bits), a[1..], q, mid, b, r, after);
    }
  }

  lemma LeadsNowhere(s: Kernel, bits: set<nat>)
    ensures Leads(s, bits, [], s, bits)
  {
  }

  // Task 0 has base priority 2, task 1 has 1.
  const IDLE: Task := 9

  function Tasks3(): seq<Creation> {
    [Creation(IDLE, 0), Creation(1, 1), Creation(0, 2)]
  }

  // What is known of a state: who runs, the priorities of tasks 0 and 1, the base priority of task 0, and
  // whether task 0 is ready or is to be woken by the next tick.
  ghost predicate Known(s: Kernel, current: Task, p0: nat, p1: nat, b0: nat, ready: bool) {
    && Valid(s) && s.nest == 0 && s.current == current && s.prio.Keys == {0, 1, IDLE}
    && s.prio[0] == p0 && s.prio[1] == p1 && s.prio[IDLE] == 0 && 0 in s.base && s.base[0] == b0
    && 0 in View(s).phase && 1 in View(s).phase && IDLE in View(s).phase
    && View(s).phase[0] == (if ready then Runnable else Until(View(s).clock + 1))
    && View(s).phase[1] == Runnable && View(s).phase[IDLE] == Runnable
  }

  // Where the tasks are then.
  lemma KnownPlaces(s: Kernel, current: Task, p0: nat, p1: nat, b0: nat, ready: bool)
    requires Known(s, current, p0, p1, b0, ready)
    ensures s.lists.at.Keys == {0, 1, IDLE} && s.lists.at[1] == Ready(p1) && s.lists.at[IDLE] == Ready(0)
    ensures if ready then s.lists.at[0] == Ready(p0) else !s.lists.at[0].Ready?
    ensures Good(s, IDLE)
  {
    ValidStructure(s);
    StructureTasks(s);
    assert Somewhere(s.lists.at) && ReadyItems(s.lists.at, s.prio, s.event);
    hide Placed, Queued;
  }

  lemma FromView(s: Kernel, r: Kernel, current: Task, p0: nat, p1: nat, b0: nat, ready: bool,
                 c: Task, q0: nat, q1: nat, d0: nat)
    requires Known(s, current, p0, p1, b0, ready) && Valid(r) && View(r) == View(s)
    requires r.nest == 0 && r.current == c && r.prio.Keys == {0, 1, IDLE}
    requires r.prio[0] == q0 && r.prio[1] == q1 && r.prio[IDLE] == 0 && 0 in r.base && r.base[0] == d0
    ensures Known(r, c, q0, q1, d0, ready)
  {
    hide Valid, View;
  }

  lemma Begins()
    ensures Known(Started(Tasks3()), 0, 2, 1, 2, true)
    ensures AllDifferent(Tasks3()) && IDLE in Names(Tasks3()) && Good(Started(Tasks3()), IDLE)
  {
    hide Valid, Started, Good;
    var cs := Tasks3();
    assert cs[0].t == IDLE && cs[1].t == 1 && cs[2].t == 0;
    NamesAre();
    StartedValid(cs);
    StartedGood(cs, IDLE);
    StartedFields();
  }

  lemma NamesAre()
    ensures Names(Tasks3()) == {0, 1, IDLE}
  {
    var cs := Tasks3();
    assert cs[0].t == IDLE && cs[1].t == 1 && cs[2].t == 0;
  }

  lemma StartedFields()
    ensures var s := Started(Tasks3());
            && s.current == 0 && s.prio == map[IDLE := 0, 1 := 1, 0 := 2] && s.base == map[IDLE := 0, 1 := 1, 0 := 2]
  {
    var cs := Tasks3();
    assert cs[..2] == [Creation(IDLE, 0), Creation(1, 1)] && cs[..2][..1] == [Creation(IDLE, 0)];
    hide AddReady;
    var a, b := Created(cs[..2][..1]), Created(cs[..2]);
    assert a.prio == map[IDLE := 0] && a.base == map[IDLE := 0] && a.current == IDLE;
    assert b.prio == map[IDLE := 0, 1 := 1] && b.base == map[IDLE := 0, 1 := 1] && b.current == 1;
  }

  lemma InheritFields(s: Kernel, t: Task)
    ensures var r := InheritPriority(s, t);
            && r.base == s.base && r.current == s.current && r.nest == s.nest
            && (ValueOf(s.prio, t) < ValueOf(s.prio, s.current) ==> r.prio == s.prio[t := ValueOf(s.prio, s.current)])
  {
    hide AddReady, RemoveItem;
  }

  lemma KnownFields(s: Kernel, current: Task, p0: nat, p1: nat, b0: nat, ready: bool)
    requires Known(s, current, p0, p1, b0, ready)
    ensures Valid(s) && s.nest == 0 && s.current == current && s.prio.Keys == {0, 1, IDLE}
    ensures s.prio[0] == p0 && s.prio[1] == p1 && s.prio[IDLE] == 0 && 0 in s.base && s.base[0] == b0
  {
    hide Valid, View;
  }

  // Task 0 finds the mutex held, and task 1 inherits.
  lemma Inherits(s: Kernel)
    requires Known(s, 0, 2, 1, 2, true)
    ensures Can(s, InheritStep(1), IDLE) && Known(Next(s, InheritStep(1)), 0, 2, 2, 2, true)
  {
    hide Known, Valid, View, InheritPriority;
    KnownFields(s, 0, 2, 1, 2, true);
    InheritValid(s, 1);
    InheritFields(s, 1);
    FromView(s, InheritPriority(s, 1), 0, 2, 1, 2, true, 0, 2, 2, 2);
  }

  lemma BlockFields(s: Kernel, d: nat)
    ensures var r := AddCurrentTaskToDelayedList(s, d, false, OnObject);
            r.prio == s.prio && r.base == s.base && r.current == s.current && r.nest == s.nest
  {
    hide AddBlocked, RemoveItem;
  }

  lemma FromBlocked(s: Kernel, r: Kernel, p0: nat, p1: nat, b0: nat)
    requires Known(s, 0, p0, p1, b0, true) && Valid(r) && View(r) == Block(View(s), 0, 1, false, OnObject)
    requires r.prio == s.prio && r.base == s.base && r.current == s.current && r.nest == s.nest
    ensures Known(r, 0, p0, p1, b0, false)
  {
    hide Valid, View;
  }

  // The running task blocks for one tick.
  lemma Blocks(s: Kernel, p0: nat, p1: nat, b0: nat)
    requires Known(s, 0, p0, p1, b0, true)
    ensures var st := DelayStep(1, false, OnObject); Can(s, st, IDLE) && Known(Next(s, st), 0, p0, p1, b0, false)
  {
    hide Known, Valid, View, AddCurrentTaskToDelayedList, Block;
    KnownFields(s, 0, p0, p1, b0, true);
    KnownPlaces(s, 0, p0, p1, b0, true);
    BlockValid(s, 1, false, OnObject);
    BlockView(s, 1, false, OnObject);
    BlockFields(s, 1);
    FromBlocked(s, AddCurrentTaskToDelayedList(s, 1, false, OnObject), p0, p1, b0);
  }

  lemma SwitchFields(s: Kernel)
    requires Placed(s.lists) && SomeReady(s) && s.nest == 0
    ensures var r := SwitchContext(s);
            r.prio == s.prio && r.base == s.base && r.nest == 0 && r.lists.at == s.lists.at
  {
    SelectSteps(s.(yieldPending := false));
    hide Select, Placed;
  }

  lemma Switches(s: Kernel, c: Task, p0: nat, p1: nat, b0: nat, ready: bool)
    requires Known(s, c, p0, p1, b0, ready) && 0 < p1 && (ready ==> p0 > p1)
    ensures Can(s, SwitchStep, IDLE) && Known(Next(s, SwitchStep), if ready then 0 else 1, p0, p1, b0, ready)
  {
    hide Known, Valid, View, SwitchContext, SomeReady, Placed, Good, Highest;
    KnownFields(s, c, p0, p1, b0, ready);
    KnownPlaces(s, c, p0, p1, b0, ready);
    GoodParts(s, IDLE);
    ValidStructure(s);
    SwitchContextValid(s);
    SwitchFields(s);
    var r := SwitchContext(s);
    Chosen(s.lists.at, r, p0, p1, ready);
    FromView(s, r, c, p0, p1, b0, ready, r.current, p0, p1, b0);
  }

  lemma Chosen(at: map<Task, Place>, r: Kernel, p0: nat, p1: nat, ready: bool)
    requires r.lists.at == at && Highest(r) && 0 < p1 && (ready ==> p0 > p1)
    requires at.Keys == {0, 1, IDLE} && at[1] == Ready(p1) && at[IDLE] == Ready(0)
    requires if ready then at[0] == Ready(p0) else !at[0].Ready?
    ensures r.current == if ready then 0 else 1
  {
    assert 0 in at && 1 in at;
  }

  lemma PrioritySetFields(s: Kernel, t: Task, level: nat)
    requires t in s.base && t in s.prio && s.base[t] == s.prio[t] != level && level < configMAX_PRIORITIES
    ensures var r := PrioritySet(s, t, level);
            r.prio == s.prio[t := level] && r.base == s.base[t := level] && r.current == s.current && r.nest == s.nest
  {
    hide AddReady, RemoveItem;
  }

  // Task 1 raises the base priority of task 0 to 3.
  lemma Raises(s: Kernel)
    requires Known(s, 1, 2, 2, 2, false)
    ensures Can(s, PriorityStep(0, 3), IDLE) && Known(Next(s, PriorityStep(0, 3)), 1, 3, 2, 3, false)
  {
    hide Known, Valid, View, PrioritySet;
    KnownFields(s, 1, 2, 2, 2, false);
    PrioritySetValid(s, 0, 3);
    PrioritySetFields(s, 0, 3);
    FromView(s, PrioritySet(s, 0, 3), 1, 2, 2, 2, false, 1, 3, 2, 3);
  }

  lemma TickFields(s: Kernel)
    requires Consistent(s)
    ensures var r := IncrementTick(s);
            r.prio == s.prio && r.base == s.base && r.current == s.current && r.nest == s.nest
  {
    CountedStructure(s);
    DrainedWhenDue(Counted(s));
    hide Structure, Drain, SwapDelayed;
  }

  lemma Wakes(s: Kernel, p0: nat, p1: nat, b0: nat)
    requires Known(s, 1, p0, p1, b0, false)
    ensures Can(s, TickStep, IDLE) && Known(Next(s, TickStep), 1, p0, p1, b0, true)
  {
    TickInterruptRefines(s);
    ValidStructure(s);
    TickFields(s);
    hide Valid, View, IncrementTick;
  }

  lemma ChangedPriority(s: Kernel, t: Task, p: nat)
    requires t in s.prio
    ensures ChangePriority(s, t, p).prio == s.prio[t := p]
  {
    hide AddReady, RemoveItem;
    if s.prio[t] == p {
      assert s.prio[t := p] == s.prio;
    }
  }

  // Its block time has expired, and task 1 goes back to its base priority.
  lemma Lowers(s: Kernel)
    requires Known(s, 0, 3, 2, 3, true)
    ensures Can(s, LowerStep(1, 1), IDLE) && Known(Next(s, LowerStep(1, 1)), 0, 3, 1, 3, true)
  {
    hide Known, Valid, View, ChangePriority;
    KnownFields(s, 0, 3, 2, 3, true);
    ChangeValid(s, 1, 1);
    ChangeFields(s, 1, 1);
    ChangedPriority(s, 1, 1);
    FromView(s, ChangePriority(s, 1, 1), 0, 3, 2, 3, true, 0, 3, 1, 3);
  }

  const LAST: Step := DelayStep(1, false, OnObject)

  lemma BitsAre(at: map<Task, Place>, bits: set<nat>)
    requires at.Keys == {0, 1, IDLE} && at[0] == Ready(3) && at[1] == Ready(2) && at[IDLE] == Ready(0)
    requires Exact(at, bits)
    ensures bits == {0, 2, 3} && Alone(at, 1)
  {
    assert 0 in at && 1 in at && IDLE in at;
    assert Someone(at, 3) && Someone(at, 2) && Someone(at, 0);
    forall p: nat ensures p in bits <==> p in {0, 2, 3} {
      if Someone(at, p) {
        var t :| t in at && at[t] == Ready(p);
      }
    }
  }

  lemma LowerBits(s: Kernel, bits: set<nat>)
    requires 1 in s.lists.at && s.lists.at[1].Ready? && Alone(s.lists.at, 1) && ValueOf(s.prio, 1) != 1
    ensures BitsAfter(s, LowerStep(1, 1), bits) == bits - {1} + {1}
  {
    hide Alone;
  }

  // What the bit map is then, and after task 0 has blocked once more.
  lemma StaleBits(s: Kernel, bits: set<nat>)
    requires Known(s, 0, 3, 2, 3, true) && Exact(s.lists.at, bits)
    ensures BitsAfter(s, LowerStep(1, 1), bits) == {0, 1, 2, 3}
  {
    hide Known, Exact, Alone, BitsAfter;
    KnownPlaces(s, 0, 3, 2, 3, true);
    KnownFields(s, 0, 3, 2, 3, true);
    BitsAre(s.lists.at, bits);
    LowerBits(s, bits);
    assert bits - {1} + {1} == {0, 1, 2, 3};
  }

  lemma DelayBits(s: Kernel, bits: set<nat>)
    requires s.current in s.lists.at && s.lists.at[s.current].Ready? && Alone(s.lists.at, s.current)
    ensures BitsAfter(s, LAST, bits) == bits - {ValueOf(s.prio, s.current)}
  {
    hide Alone;
  }

  lemma ZeroAlone(at: map<Task, Place>)
    requires at.Keys == {0, 1, IDLE} && at[0] == Ready(3) && at[1] == Ready(1) && at[IDLE] == Ready(0)
    ensures Alone(at, 0)
  {
  }

  lemma LastBits(s: Kernel)
    requires Known(s, 0, 3, 1, 3, true)
    ensures BitsAfter(s, LAST, {0, 1, 2, 3}) == {0, 1, 2}
  {
    hide Known, Alone, BitsAfter;
    KnownPlaces(s, 0, 3, 1, 3, true);
    KnownFields(s, 0, 3, 1, 3, true);
    ZeroAlone(s.lists.at);
    DelayBits(s, {0, 1, 2, 3});
    assert {0, 1, 2, 3} - {3} == {0, 1, 2};
  }

  // ----- the run ---------------------------------------------------------------------------------

  // Task 0 waits for one tick. Meanwhile task 1 runs, and takes a mutex.
  function Takes(): seq<Step> {
    [LAST] + ([SwitchStep] + ([TickStep] + ([SwitchStep] + [])))
  }

  // Task 0 finds the mutex held, and waits for it for one tick. Task 1, which has inherited priority 2,
  // gives task 0 the priority 3. The time of task 0 expires.
  function Expires(): seq<Step> {
    [InheritStep(1)] + ([LAST] + ([SwitchStep] + ([PriorityStep(0, 3)] + ([TickStep] + ([SwitchStep] + [])))))
  }

  // It lowers task 1, and then waits for something else.
  function Lowered(): seq<Step> {
    [LowerStep(1, 1)] + ([LAST] + [])
  }

  function Run(): seq<Step> {
    Takes() + (Expires() + Lowered())
  }

  // The run leads there, and the bit map is exact there.
  ghost predicate Reaches(s: Kernel, bits: set<nat>, sts: seq<Step>, r: Kernel, after: set<nat>) {
    Leads(s, bits, sts, r, after) && Exact(r.lists.at, after)
  }

  lemma ReachesOn(s: Kernel, bits: set<nat>, st: Step, rest: seq<Step>, r: Kernel, after: set<nat>)
    requires Can(s, st, IDLE) && Reaches(Next(s, st), BitsAfter(s, st, bits), rest, r, after)
    ensures Reaches(s, bits, [st] + rest, r, after)
  {
    hide Leads, Can, Next, BitsAfter, Exact;
    LeadsOn(s, bits, st, rest, r, after);
  }

  lemma ReachesNowhere(s: Kernel, bits: set<nat>)
    requires Exact(s.lists.at, bits)
    ensures Reaches(s, bits, [], s, bits)
  {
    hide Exact;
  }

  lemma TakesReaches(s0: Kernel, b0: set<nat>) returns (r: Kernel, bits: set<nat>)
    requires Known(s0, 0, 2, 1, 2, true) && Exact(s0.lists.at, b0)
    ensures Reaches(s0, b0, Takes(), r, bits) && Known(r, 0, 2, 1, 2, true)
  {
    hide Next, Can, BitsAfter, Known, Exact, Reaches;
    Blocks(s0, 2, 1, 2);
    var s1, b1 := Next(s0, LAST), BitsAfter(s0, LAST, b0);
    Switches(s1, 0, 2, 1, 2, false);
    var s2, b2 := Next(s1, SwitchStep), BitsAfter(s1, SwitchStep, b1);
    Wakes(s2, 2, 1, 2);
    var s3, b3 := Next(s2, TickStep), BitsAfter(s2, TickStep, b2);
    Switches(s3, 1, 2, 1, 2, true);
    var s4, b4 := Next(s3, SwitchStep), BitsAfter(s3, SwitchStep, b3);
    StaysRight(s0, LAST, b0, 0, 2, 1, 2, true);
    StaysRight(s1, SwitchStep, b1, 0, 2, 1, 2, false);
    StaysRight(s2, TickStep, b2, 1, 2, 1, 2, false);
    StaysRight(s3, SwitchStep, b3, 1, 2, 1, 2, true);
    ReachesNowhere(s4, b4);
    ReachesOn(s3, b3, SwitchStep, [], s4, b4);
    ReachesOn(s2, b2, TickStep, [SwitchStep] + [], s4, b4);
    ReachesOn(s1, b1, SwitchStep, [TickStep] + ([SwitchStep] + []), s4, b4);
    ReachesOn(s0, b0, LAST, [SwitchStep] + ([TickStep] + ([SwitchStep] + [])), s4, b4);
    r, bits := s4, b4;
  }

  lemma ExpiresReaches(s0: Kernel, b0: set<nat>) returns (r: Kernel, bits: set<nat>)
    requires Known(s0, 0, 2, 1, 2, true) && Exact(s0.lists.at, b0)
    ensures Reaches(s0, b0, Expires(), r, bits) && Known(r, 0, 3, 2, 3, true)
  {
    hide Next, Can, BitsAfter, Known, Exact, Reaches;
    Inherits(s0);
    var s1, b1 := Next(s0, InheritStep(1)), BitsAfter(s0, InheritStep(1), b0);
    Blocks(s1, 2, 2, 2);
    var s2, b2 := Next(s1, LAST), BitsAfter(s1, LAST, b1);
    Switches(s2, 0, 2, 2, 2, false);
    var s3, b3 := Next(s2, SwitchStep), BitsAfter(s2, SwitchStep, b2);
    Raises(s3);
    var s4, b4 := Next(s3, PriorityStep(0, 3)), BitsAfter(s3, PriorityStep(0, 3), b3);
    Wakes(s4, 3, 2, 3);
    var s5, b5 := Next(s4, TickStep), BitsAfter(s4, TickStep, b4);
    Switches(s5, 1, 3, 2, 3, true);
    var s6, b6 := Next(s5, SwitchStep), BitsAfter(s5, SwitchStep, b5);
    StaysRight(s0, InheritStep(1), b0, 0, 2, 1, 2, true);
    StaysRight(s1, LAST, b1, 0, 2, 2, 2, true);
    StaysRight(s2, SwitchStep, b2, 0, 2, 2, 2, false);
    StaysRight(s3, PriorityStep(0, 3), b3, 1, 2, 2, 2, false);
    StaysRight(s4, TickStep, b4, 1, 3, 2, 3, false);
    StaysRight(s5, SwitchStep, b5, 1, 3, 2, 3, true);
    ReachesNowhere(s6, b6);
    ReachesOn(s5, b5, SwitchStep, [], s6, b6);
    ReachesOn(s4, b4, TickStep, [SwitchStep] + [], s6, b6);
    ReachesOn(s3, b3, PriorityStep(0, 3), [TickStep] + ([SwitchStep] + []), s6, b6);
    ReachesOn(s2, b2, SwitchStep, [PriorityStep(0, 3)] + ([TickStep] + ([SwitchStep] + [])), s6, b6);
    ReachesOn(s1, b1, LAST, [SwitchStep] + ([PriorityStep(0, 3)] + ([TickStep] + ([SwitchStep] + []))), s6, b6);
    ReachesOn(s0, b0, InheritStep(1),
              [LAST] + ([SwitchStep] + ([PriorityStep(0, 3)] + ([TickStep] + ([SwitchStep] + [])))), s6, b6);
    r, bits := s6, b6;
  }

  lemma LoweredLeads(s0: Kernel, b0: set<nat>) returns (r: Kernel)
    requires Known(s0, 0, 3, 2, 3, true) && Exact(s0.lists.at, b0)
    ensures Leads(s0, b0, Lowered(), r, {0, 1, 2}) && !Someone(r.lists.at, 2)
  {
    hide Next, Can, BitsAfter, Known, Exact, Leads, Someone;
    Lowers(s0);
    var s1 := Next(s0, LowerStep(1, 1));
    Blocks(s1, 3, 1, 3);
    var s2 := Next(s1, LAST);
    StaleBits(s0, b0);
    LastBits(s1);
    NoneAtTwo(s2);
    LeadsNowhere(s2, {0, 1, 2});
    LeadsOn(s1, {0, 1, 2, 3}, LAST, [], s2, {0, 1, 2});
    LeadsOn(s0, b0, LowerStep(1, 1), [LAST] + [], s2, {0, 1, 2});
    r := s2;
  }

  // After this run from the start the highest bit is that of priority 2, at which no task is ready, so
  // that the port's selection finds an empty list.
  lemma SelectionFindsNone()
    ensures CanSteps(Started(Tasks3()), Run(), IDLE)
    ensures var s, e := Started(Tasks3()), Steps(Started(Tasks3()), Run());
            && BitsRun(s, Run(), Recorded(map[], s.lists.at)) == {0, 1, 2} && !Someone(e.lists.at, 2)
  {
    hide Known, Started, CanSteps, Steps, BitsRun, Exact, Recorded, Good, Someone, Takes, Expires, Lowered;
    Begins();
    var s0, b0 := Started(Tasks3()), Recorded(map[], Started(Tasks3()).lists.at);
    StartExact(s0.lists.at);
    var s1, b1 := TakesReaches(s0, b0);
    var s2, b2 := ExpiresReaches(s1, b1);
    var s3 := LoweredLeads(s2, b2);
    LeadsAppend(s1, b1, Expires(), s2, b2, Lowered(), s3, {0, 1, 2});
    LeadsAppend(s0, b0, Takes(), s1, b1, Expires() + Lowered(), s3, {0, 1, 2});
  }

  lemma StartExact(at: map<Task, Place>)
    ensures Exact(at, Recorded(map[], at))
  {
    hide Exact, Recorded;
    NoneExact();
    StaysNone(at);
    StaysExact(map[], at, {});
    assert {} + Recorded(map[], at) == Recorded(map[], at);
  }

  lemma StaysRight(s: Kernel, st: Step, bits: set<nat>, c: Task, p0: nat, p1: nat, b0: nat, ready: bool)
    requires Known(s, c, p0, p1, b0, ready) && Can(s, st, IDLE) && !st.LowerStep? && Exact(s.lists.at, bits)
    ensures Exact(Next(s, st).lists.at, BitsAfter(s, st, bits))
  {
    hide Known, Can, Next, BitsAfter, Exact, Good;
    KnownPlaces(s, c, p0, p1, b0, ready);
    StaleIs(s, st);
    StepExactIff(s, st, IDLE, bits);
  }

  lemma NoneAtTwo(s: Kernel)
    requires Known(s, 0, 3, 1, 3, false)
    ensures !Someone(s.lists.at, 2)
  {
    KnownPlaces(s, 0, 3, 1, 3, false);
    hide Known;
  }
}
