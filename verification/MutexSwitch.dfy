/** Giving a mutex: when the context switch that is requested is enough, and when it is not. */
module MutexSwitch {
  import opened ListSpec
  import opened MutexModel

  // Whether xQueueGenericSend, which gives mutex m, requests a context switch: if a task waits, by
  // what xTaskRemoveFromEventList says of that task, and only if none waits by what
  // xTaskPriorityDisinherit says of the giver.
  predicate GiveAsks(s: System, m: nat)
    requires m < |s.mutexes|
  {
    var x := s.mutexes[m];
    var q := Disinherit(s.p, x.holder);
    if x.waiting != [] then Prio(q, x.waiting[0]) > Prio(q, s.current) else Lowers(s.p, x.holder)
  }

  // A ready task is above the base priority of the running one.
  predicate OthersAboveBase(s: System) {
    exists t :: t in s.ready && t != s.current && Prio(s.p, t) > Base(s.p, s.current)
  }

  lemma GivenPrio(s: System, m: nat)
    requires m < |s.mutexes| && Inv(s) && Can(s, GiveStep(m))
    ensures var q := Disinherit(s.p, s.mutexes[m].holder);
            && (forall t :: t != s.current ==> Prio(q, t) == Prio(s.p, t))
            && Prio(q, s.current)
               == if Lowers(s.p, s.mutexes[m].holder) then Base(s.p, s.current) else Prio(s.p, s.current)
    ensures s.mutexes[m].waiting != [] ==> s.mutexes[m].waiting[0] != s.current
  {
    QueueAt(s, m);
    hide Inv, QueuesOk, QueueOk, Covered, PrioritiesOk, Counted, WaitsOnce;
    HolderHolds(s, m);
    if s.mutexes[m].waiting != [] {
      FirstWaits(s, m);
    }
  }

  // The running task has the highest priority when it gives the mutex. Afterwards it has so again, or
  // a switch has been requested: but for one case. That is that the giver goes back from an inherited
  // priority to its base, that another ready task is above that, and that a task waits for the mutex
  // which is not. The request that the giver's lower priority calls for is then not made.
  lemma GiveSwitchesIff(s: System, m: nat)
    requires m < |s.mutexes| && Inv(s) && Can(s, GiveStep(m)) && RunsHighest(s)
    ensures RunsHighest(Give(s, m)) || GiveAsks(s, m)
            <==> !(&& Lowers(s.p, s.mutexes[m].holder) && OthersAboveBase(s)
                   && s.mutexes[m].waiting != [] && Prio(s.p, s.mutexes[m].waiting[0]) <= Base(s.p, s.current))
  {
    GivenPrio(s, m);
    GiveSize(s, m);
    hide Inv, Can, Disinherit, Lowers, Give, Prio, Base;
  }

  // ----- the case is reached, and what comes of it -------------------------------------------------

  // Four tasks at the start: their base priorities, and the values of their event items.
  const BASE: map<Task, nat> := map[0 := 1, 1 := 3, 2 := 0, 3 := 2]
  const HELD: map<Task, nat> := map[0 := 0, 1 := 0, 2 := 0, 3 := 0]
  const VALUE: map<Task, nat> := map[0 := 4, 1 := 2, 2 := 5, 3 := 3]

  // prio and held are those of task 0.
  function Now(prio: nat, held: nat): Priorities
    requires prio <= 5
  {
    Priorities(BASE, BASE[0 := prio], HELD[0 := held], VALUE[0 := 5 - prio])
  }

  lemma Overwritten(m: map<Task, nat>, a: nat, b: nat)
    ensures m[0 := a][0 := b] == m[0 := b]
  {
  }

  lemma NowIs(prio: nat, held: nat)
    requires prio <= 5
    ensures var p := Now(prio, held);
            && p.prio.Keys == {0, 1, 2, 3}
            && Prio(p, 0) == prio && Prio(p, 1) == 3 && Prio(p, 2) == 0 && Prio(p, 3) == 2
            && Held(p, 0) == held && Held(p, 1) == Held(p, 2) == Held(p, 3) == 0
            && ValueOf(p.value, 1) == 2 && ValueOf(p.value, 3) == 3
    ensures IncrementHeld(Now(prio, held), 0) == Now(prio, held + 1)
  {
  }

  lemma NowKept()
    ensures Inherit(Now(1, 2), HeldBy(0), 2) == Now(1, 2) && !Inherited(Now(1, 2), HeldBy(0), 2)
  {
  }

  lemma NowRaised(from: nat, t: Task)
    requires (from == 1 && t == 3) || (from == 2 && t == 1)
    ensures Inherit(Now(from, 2), HeldBy(0), t) == Now(from + 1, 2) && Inherited(Now(from, 2), HeldBy(0), t)
  {
    Overwritten(BASE, from, from + 1);
    Overwritten(VALUE, 5 - from, 4 - from);
  }

  lemma NowGiven()
    ensures Disinherit(Now(3, 2), HeldBy(0)) == Now(3, 1)
  {
    Overwritten(HELD, 2, 1);
  }

  lemma NowLowered()
    ensures Disinherit(Now(3, 1), HeldBy(0)) == Now(1, 0)
  {
    Overwritten(HELD, 1, 0);
    Overwritten(BASE, 3, 1);
    Overwritten(VALUE, 2, 4);
  }

  // x and y are the two mutexes.
  function At(prio: nat, held: nat, x: Mutex, y: Mutex, ready: set<Task>, current: Task, noted: set<Task>): System
    requires prio <= 5
  {
    System(Now(prio, held), [x, y], ready, current, noted)
  }

  const FREE: Mutex := Mutex(NoTask, [], {})

  // Held by task 0, while the given tasks wait.
  function Mine(waiting: seq<Task>): Mutex {
    Mutex(HeldBy(0), waiting, {})
  }

  lemma TakeOne(held: nat, x: Mutex, y: Mutex, m: nat)
    requires (m == 0 && x == FREE) || (m == 1 && y == FREE)
    ensures Take(At(1, held, x, y, {0, 2}, 0, {}), m)
         == At(1, held + 1, if m == 0 then Mine([]) else x, if m == 1 then Mine([]) else y, {0, 2}, 0, {})
  {
    NowIs(1, held);
    hide Now, IncrementHeld;
    assert FREE.woken - {0} == {};
  }

  // Task t blocks on a mutex that task 0 holds, before all who wait for it.
  lemma BlockOne(s: System, m: nat, t: Task, q: Priorities, w: seq<Task>, noted: set<Task>)
    requires m < |s.mutexes| && s.mutexes[m] == Mine(w) && s.current == t && s.ready == {t}
    requires Inherit(s.p, HeldBy(0), t) == q && (w == [] || ValueOf(q.value, w[0]) > ValueOf(q.value, t))
    requires noted == if Inherited(s.p, HeldBy(0), t) then s.noted + {t} else s.noted - {t}
    ensures Block(s, m) == System(q, s.mutexes[m := Mine([t] + w)], {}, t, noted)
  {
    hide Inherit, Inherited;
    assert s.ready - {t} == {} && s.mutexes[m].woken - {t} == {};
  }

  // Tasks 1 and 3 go to sleep, task 0 takes both mutexes and goes to sleep.
  const SLEEPS: seq<Step> := [SleepStep, RunStep(3), SleepStep]
  const TAKES: seq<Step> := [RunStep(0), TakeStep(0), TakeStep(1)]
  // Task 2 blocks on mutex 1, then tasks 3 and 1 block on mutex 0, and task 0 inherits.
  const BLOCKS2: seq<Step> := [SleepStep, RunStep(2), BlockStep(1)]
  const BLOCKS3: seq<Step> := [WakeStep(3), RunStep(3), BlockStep(0)]
  const BLOCKS1: seq<Step> := [WakeStep(1), RunStep(1), BlockStep(0)]
  // Task 0 gives mutex 0.
  const GIVES: seq<Step> := [WakeStep(0), RunStep(0), GiveStep(0)]

  lemma NowFirst()
    ensures Now(1, 0) == Priorities(BASE, BASE, HELD, VALUE) && BASE.Keys == HELD.Keys == VALUE.Keys == {0, 1, 2, 3}
    ensures forall t :: t in BASE ==> HELD[t] == 0 && VALUE[t] == ItemValue(BASE[t])
  {
    assert BASE[0 := 1] == BASE && HELD[0 := 0] == HELD && VALUE[0 := 4] == VALUE;
  }

  lemma StartsAt()
    ensures Begun() == At(1, 0, FREE, FREE, {0, 1, 2, 3}, 1, {})
  {
    hide Now, ItemValue, Started;
    NowFirst();
    StartedWithTwo(BASE, HELD, VALUE, 1);
  }

  // Task t wakes up, runs and makes a call.
  lemma WakesUp(s: System, t: Task, st: Step)
    requires s.ready == {} && t in s.p.prio && !WaitsSomewhere(s, t) && Can(s.(ready := {t}, current := t), st)
    ensures CanSteps(s, [WakeStep(t), RunStep(t), st])
    ensures Steps(s, [WakeStep(t), RunStep(t), st]) == Apply(s.(ready := {t}, current := t), st)
  {
    assert s.ready + {t} == {t};
    var a, b := s.(ready := {t}), s.(ready := {t}, current := t);
    assert Apply(s, WakeStep(t)) == a && Apply(a, RunStep(t)) == b && Can(s, WakeStep(t)) && Can(a, RunStep(t));
    OneStep(b, st, []);
    OneStep(a, RunStep(t), [st]);
    OneStep(s, WakeStep(t), [RunStep(t), st]);
    hide Apply, Can, Steps, CanSteps;
    assert [st] + [] == [st] && [RunStep(t)] + [st] == [RunStep(t), st];
    assert [WakeStep(t)] + [RunStep(t), st] == [WakeStep(t), RunStep(t), st];
    Nothing(Apply(b, st));
  }

  lemma OneStep(s: System, st: Step, rest: seq<Step>)
    requires Can(s, st)
    ensures Steps(s, [st] + rest) == Steps(Apply(s, st), rest)
    ensures CanSteps(s, [st] + rest) == CanSteps(Apply(s, st), rest)
  {
    assert ([st] + rest)[1..] == rest;
    hide Can, Apply;
  }

  lemma Nothing(s: System)
    ensures Steps(s, []) == s && CanSteps(s, [])
  {
  }

  lemma Sleeps()
    ensures var s := At(1, 0, FREE, FREE, {0, 1, 2, 3}, 1, {});
            CanSteps(s, SLEEPS) && Steps(s, SLEEPS) == At(1, 0, FREE, FREE, {0, 2}, 3, {})
  {
    hide Now;
    assert {0, 1, 2, 3} - {1} == {0, 2, 3} && {0, 2, 3} - {3} == {0, 2};
  }

  lemma Takes()
    ensures var s := At(1, 0, FREE, FREE, {0, 2}, 3, {});
            CanSteps(s, TAKES) && Steps(s, TAKES) == At(1, 2, Mine([]), Mine([]), {0, 2}, 0, {})
  {
    hide Now, Take;
    TakeOne(0, FREE, FREE, 0);
    TakeOne(1, Mine([]), FREE, 1);
  }

  lemma Blocks2()
    ensures var s := At(1, 2, Mine([]), Mine([]), {0, 2}, 0, {});
            CanSteps(s, BLOCKS2) && Steps(s, BLOCKS2) == At(1, 2, Mine([]), Mine([2]), {}, 2, {})
  {
    var a := At(1, 2, Mine([]), Mine([]), {2}, 2, {});
    NowKept();
    NowIs(1, 2);
    hide Now, Block, Inherit, Inherited;
    assert {0, 2} - {0} == {2} && a.noted - {2} == {} && [2] + [] == [2];
    BlockOne(a, 1, 2, Now(1, 2), [], {});
  }

  lemma Blocks3()
    ensures var s := At(1, 2, Mine([]), Mine([2]), {}, 2, {});
            CanSteps(s, BLOCKS3) && Steps(s, BLOCKS3) == At(2, 2, Mine([3]), Mine([2]), {}, 3, {3})
  {
    NowRaised(1, 3);
    NowIs(1, 2);
    hide Now, Block, Inherit, Inherited, CanSteps, Steps;
    assert [3] + [] == [3] && {} + {3} == {3};
    BlockOne(At(1, 2, Mine([]), Mine([2]), {3}, 3, {}), 0, 3, Now(2, 2), [], {3});
    WakesUp(At(1, 2, Mine([]), Mine([2]), {}, 2, {}), 3, BlockStep(0));
  }

  lemma Blocks1()
    ensures var s := At(2, 2, Mine([3]), Mine([2]), {}, 3, {3});
            CanSteps(s, BLOCKS1) && Steps(s, BLOCKS1) == At(3, 2, Mine([1, 3]), Mine([2]), {}, 1, {1, 3})
  {
    NowRaised(2, 1);
    NowIs(2, 2);
    NowIs(3, 2);
    hide Now, Block, Inherit, Inherited, CanSteps, Steps;
    assert [1] + [3] == [1, 3] && {3} + {1} == {1, 3};
    BlockOne(At(2, 2, Mine([3]), Mine([2]), {1}, 1, {3}), 0, 1, Now(3, 2), [3], {1, 3});
    WakesUp(At(2, 2, Mine([3]), Mine([2]), {}, 3, {3}), 1, BlockStep(0));
  }

  lemma Gives()
    ensures var s := At(3, 2, Mine([1, 3]), Mine([2]), {}, 1, {1, 3});
            CanSteps(s, GIVES) && Steps(s, GIVES) == At(3, 1, Mutex(NoTask, [3], {1}), Mine([2]), {0, 1}, 0, {1, 3})
  {
    NowIs(3, 2);
    hide Now, Give, CanSteps, Steps;
    GivesFirst(At(3, 2, Mine([1, 3]), Mine([2]), {0}, 0, {1, 3}));
    WakesUp(At(3, 2, Mine([1, 3]), Mine([2]), {}, 1, {1, 3}), 0, GiveStep(0));
  }

  lemma GivesFirst(s: System)
    requires s == At(3, 2, Mine([1, 3]), Mine([2]), {0}, 0, {1, 3})
    ensures Give(s, 0) == At(3, 1, Mutex(NoTask, [3], {1}), Mine([2]), {0, 1}, 0, {1, 3})
  {
    NowGiven();
    hide Now, Disinherit;
    assert s.ready + {1} == {0, 1} && [1, 3][1..] == [3] && {} + {1} == {1};
  }

  // Task 0, back at priority 1, has given its last mutex to task 2.
  lemma GivesLast(s: System)
    requires s == At(3, 1, Mutex(NoTask, [3], {1}), Mine([2]), {0, 1}, 0, {1, 3})
    ensures Can(s, GiveStep(1)) && RunsHighest(s) && !GiveAsks(s, 1)
    ensures Give(s, 1) == At(1, 0, Mutex(NoTask, [3], {1}), Mutex(NoTask, [], {2}), {0, 1, 2}, 0, {1, 3})
  {
    NowLowered();
    NowIs(3, 1);
    NowIs(1, 0);
    hide Now, Disinherit, Prio;
    assert s.ready + {2} == {0, 1, 2} && [2][1..] == [] && {} + {2} == {2};
  }

  const RUN: seq<Step> := SLEEPS + (TAKES + (BLOCKS2 + (BLOCKS3 + (BLOCKS1 + GIVES))))

  function Begun(): System {
    Started(BASE, 2, 1)
  }

  lemma Runs()
    ensures CanSteps(Begun(), RUN)
    ensures Steps(Begun(), RUN) == At(3, 1, Mutex(NoTask, [3], {1}), Mine([2]), {0, 1}, 0, {1, 3})
  {
    hide Steps, CanSteps, At, Begun;
    StartsAt();
    Sleeps();
    Takes();
    Blocks2();
    Blocks3();
    Blocks1();
    Gives();
    StepsAppend(Begun(), SLEEPS, TAKES + (BLOCKS2 + (BLOCKS3 + (BLOCKS1 + GIVES))));
    StepsAppend(At(1, 0, FREE, FREE, {0, 2}, 3, {}), TAKES, BLOCKS2 + (BLOCKS3 + (BLOCKS1 + GIVES)));
    StepsAppend(At(1, 2, Mine([]), Mine([]), {0, 2}, 0, {}), BLOCKS2, BLOCKS3 + (BLOCKS1 + GIVES));
    StepsAppend(At(1, 2, Mine([]), Mine([2]), {}, 2, {}), BLOCKS3, BLOCKS1 + GIVES);
    StepsAppend(At(2, 2, Mine([3]), Mine([2]), {}, 3, {3}), BLOCKS1, GIVES);
  }

  // A run after which task 0 gives its last mutex to task 2 and goes on running at priority 1, although
  // task 1 is ready at priority 3 and no switch has been requested.
  lemma GiveCanOverlook()
    ensures CanSteps(Begun(), RUN)
    ensures var s := Steps(Begun(), RUN);
            Can(s, GiveStep(1)) && RunsHighest(s) && !RunsHighest(Give(s, 1)) && !GiveAsks(s, 1)
  {
    Runs();
    var s := At(3, 1, Mutex(NoTask, [3], {1}), Mine([2]), {0, 1}, 0, {1, 3});
    GivesLast(s);
    NowIs(1, 0);
    hide Steps, CanSteps, Can, RUN, Give, GiveAsks, Now, Prio;
    var r := At(1, 0, Mutex(NoTask, [3], {1}), Mutex(NoTask, [], {2}), {0, 1, 2}, 0, {1, 3});
    assert Prio(r.p, 1) > Prio(r.p, 0) && 1 in r.ready && r.current == 0;
  }

  // If it then takes mutex 0 back, it holds it at priority 1 while task 3 waits for it at priority 2.
  lemma TakeCanInvert()
    ensures CanSteps(Begun(), RUN + [GiveStep(1), TakeStep(0)])
    ensures !NoInversion(Steps(Begun(), RUN + [GiveStep(1), TakeStep(0)]))
  {
    Runs();
    var s := At(3, 1, Mutex(NoTask, [3], {1}), Mine([2]), {0, 1}, 0, {1, 3});
    StepsAppend(Begun(), RUN, [GiveStep(1), TakeStep(0)]);
    GivesLast(s);
    hide RUN, Give, GiveAsks, Now;
    var r := At(1, 0, Mutex(NoTask, [3], {1}), Mutex(NoTask, [], {2}), {0, 1, 2}, 0, {1, 3});
    TakesBack(r);
    LastTwo(s, r);
    hide Steps, CanSteps, Take, NoInversion;
  }

  lemma TakesBack(r: System)
    requires r == At(1, 0, Mutex(NoTask, [3], {1}), Mutex(NoTask, [], {2}), {0, 1, 2}, 0, {1, 3})
    ensures Can(r, TakeStep(0)) && !NoInversion(Take(r, 0))
  {
    NowIs(1, 0);
    NowIs(1, 1);
    hide Now, IncrementHeld, Prio;
    var q := Take(r, 0);
    assert q.mutexes[0].holder == HeldBy(0) && 3 in q.mutexes[0].waiting && Prio(q.p, 3) > Prio(q.p, 0);
  }

  lemma LastTwo(s: System, r: System)
    requires |s.mutexes| == |r.mutexes| == 2 && Give(s, 1) == r && Can(s, GiveStep(1)) && Can(r, TakeStep(0))
    ensures CanSteps(s, [GiveStep(1), TakeStep(0)]) && Steps(s, [GiveStep(1), TakeStep(0)]) == Take(r, 0)
  {
    hide Can, Give, Take;
  }
}
