/** Chains of holders: a priority is inherited from one task to the next, and no further. */
module MutexChains {
  import opened ListSpec
  import opened MutexModel

  // The holder of the mutex waits for another one, whose holder would stay below the task that blocks.
  predicate Chained(s: System, m: nat)
    requires m < |s.mutexes| && s.mutexes[m].holder.HeldBy?
  {
    exists i :: 0 <= i < |s.mutexes| && s.mutexes[i].holder.HeldBy? && s.mutexes[m].holder.t in s.mutexes[i].waiting
                && s.mutexes[i].holder != s.mutexes[m].holder
                && Prio(s.p, s.current) > Prio(s.p, s.mutexes[i].holder.t)
  }

  // The task that runs waits for nothing.
  predicate Runs(s: System) {
    forall i :: 0 <= i < |s.mutexes| ==> s.current !in s.mutexes[i].waiting
  }

  lemma BlockedFields(s: System, m: nat)
    requires m < |s.mutexes| && s.mutexes[m].holder.HeldBy?
    ensures var r, x, h, c := Block(s, m), s.mutexes[m], s.mutexes[m].holder.t, s.current;
            && |r.mutexes| == |s.mutexes| && r.p.base == s.p.base
            && (forall t :: t in r.mutexes[m].waiting <==> t == c || t in x.waiting) && r.mutexes[m].holder == x.holder
            && (forall i :: 0 <= i < |s.mutexes| && i != m ==> r.mutexes[i] == s.mutexes[i])
            && (forall t :: t != h ==> Prio(r.p, t) == Prio(s.p, t) && (t in r.p.prio <==> t in s.p.prio))
            && Prio(r.p, h) == (if Prio(s.p, h) < Prio(s.p, c) then Prio(s.p, c) else Prio(s.p, h))
  {
  }

  lemma BlockOutranksIff(s: System, m: nat)
    requires NoneOutranked(s) && Runs(s) && m < |s.mutexes| && s.mutexes[m].holder.HeldBy?
    ensures NoneOutranked(Block(s, m)) <==> !Chained(s, m)
  {
    BlockedFields(s, m);
    var r, h, c := Block(s, m), s.mutexes[m].holder.t, s.current;
    hide Block, Prio, Base;
    if Chained(s, m) {
      var i :| 0 <= i < |s.mutexes| && s.mutexes[i].holder.HeldBy? && h in s.mutexes[i].waiting
               && s.mutexes[i].holder != s.mutexes[m].holder && Prio(s.p, c) > Prio(s.p, s.mutexes[i].holder.t);
      assert i != m && h in r.mutexes[i].waiting && r.mutexes[i].holder.t != h;
    }
  }

  // Whatever the tasks hold: blocking keeps every holder above the tasks that wait for it, exactly if
  // the holder of the mutex does not itself wait for a task of lower priority than the one that blocks.
  lemma BlockInvertsIff(s: System, m: nat)
    requires NoInversion(s) && Runs(s)
    requires m < |s.mutexes| && s.mutexes[m].holder.HeldBy? && s.mutexes[m].holder.t in s.p.prio
    ensures NoInversion(Block(s, m)) <==> !Chained(s, m)
  {
    BlockOutranksIff(s, m);
    BlockedFields(s, m);
    hide NoneOutranked, Block, Prio, Base, Chained, Runs;
    var r := Block(s, m);
    assert forall i :: 0 <= i < |s.mutexes| ==> r.mutexes[i].holder == s.mutexes[i].holder;
  }

  // ----- a chain ---------------------------------------------------------------------------------

  ghost predicate AllowedSteps(s: System, sts: seq<Step>)
    decreases |sts|
  {
    sts == [] || (Allowed(s, sts[0]) && AllowedSteps(Apply(s, sts[0]), sts[1..]))
  }

  // The task that runs is a ready task of highest priority whenever it does something itself.
  ghost predicate Preemptive(s: System, st: Step) {
    st.ExpireStep? || st.WakeStep? || st.RunStep? || RunsHighest(s)
  }

  ghost predicate PreemptiveSteps(s: System, sts: seq<Step>)
    decreases |sts|
  {
    sts == [] || (Preemptive(s, sts[0]) && PreemptiveSteps(Apply(s, sts[0]), sts[1..]))
  }

  // The run leads from s to r, the source allows it, and no ready task is passed over in it.
  ghost predicate Leads(s: System, sts: seq<Step>, r: System) {
    AllowedSteps(s, sts) && PreemptiveSteps(s, sts) && Steps(s, sts) == r
  }

  lemma LeadsOn(s: System, st: Step, rest: seq<Step>, r: System)
    requires Allowed(s, st) && Preemptive(s, st) && Leads(Apply(s, st), rest, r)
    ensures Leads(s, [st] + rest, r)
  {
    assert ([st] + rest)[1..] == rest;
    hide Allowed, Preemptive, Apply;
  }

  lemma {:induction false} LeadsAppend(s: System, a: seq<Step>, q: System, b: seq<Step>, r: System)
    requires Leads(s, a, q) && Leads(q, b, r)
    ensures Leads(s, a + b, r)
    decreases |a|
  {
    if a == [] {
      assert a + b == b;
    } else {
      assert (a + b)[0] == a[0] && (a + b)[1..] == a[1..] + b;
      LeadsAppend(Apply(s, a[0]), a[1..], q, b, r);
    }
  }

  const BASE: map<Task, nat> := map[0 := 1, 1 := 2, 2 := 3]
  const HELD: map<Task, nat> := map[0 := 0, 1 := 0, 2 := 0]
  const VALUE: map<Task, nat> := map[0 := 4, 1 := 3, 2 := 2]

  const FREE: Mutex := Mutex(NoTask, [], {})

  // Tasks 0 and 1 hold that many mutexes; task 0 has that priority.
  function Now(prio: nat, held0: nat, held1: nat): Priorities
    requires prio <= 5
  {
    Priorities(BASE, BASE[0 := prio], HELD[0 := held0][1 := held1], VALUE[0 := 5 - prio])
  }

  lemma NowPrio(prio: nat, held0: nat, held1: nat)
    requires prio <= 5
    ensures var p := Now(prio, held0, held1); Prio(p, 0) == prio && Prio(p, 1) == 2 && Prio(p, 2) == 3
  {
  }

  lemma NowTakes()
    ensures IncrementHeld(Now(1, 0, 0), 0) == Now(1, 1, 0) && IncrementHeld(Now(1, 1, 0), 1) == Now(1, 1, 1)
  {
    assert HELD[0 := 0][1 := 0][0 := 1] == HELD[0 := 1][1 := 0];
    assert HELD[0 := 1][1 := 0][1 := 1] == HELD[0 := 1][1 := 1];
  }

  lemma NowInherits()
    ensures Inherit(Now(1, 1, 1), HeldBy(0), 1) == Now(2, 1, 1) && Inherited(Now(1, 1, 1), HeldBy(0), 1)
    ensures Prio(Now(2, 1, 1), 0) == Prio(Now(2, 1, 1), 1) == 2 && Prio(Now(2, 1, 1), 2) == 3
    ensures {0, 1, 2} <= Now(2, 1, 1).prio.Keys
  {
    assert BASE[0 := 1][0 := 2] == BASE[0 := 2] && VALUE[0 := 4][0 := 3] == VALUE[0 := 3];
  }

  // Task 0 takes mutex 0, task 1 takes mutex 1 and blocks on mutex 0. Then task 2 runs.
  const FIRST: seq<Step> := [SleepStep] + ([RunStep(1)] + ([SleepStep] + ([RunStep(0)] + ([TakeStep(0)] + []))))
  const SECOND: seq<Step> := [WakeStep(1)] + ([RunStep(1)] + ([TakeStep(1)] + []))
  const THIRD: seq<Step> := [BlockStep(0)] + ([WakeStep(2)] + ([RunStep(2)] + []))

  function Begun(): System {
    Started(BASE, 2, 2)
  }

  lemma NowFirst()
    ensures Now(1, 0, 0) == Priorities(BASE, BASE, HELD, VALUE) && BASE.Keys == HELD.Keys == VALUE.Keys == {0, 1, 2}
    ensures forall t :: t in BASE ==> HELD[t] == 0 && VALUE[t] == ItemValue(BASE[t])
  {
    assert BASE[0 := 1] == BASE && HELD[0 := 0][1 := 0] == HELD && VALUE[0 := 4] == VALUE;
  }

  lemma Starts()
    ensures Begun() == System(Now(1, 0, 0), [FREE, FREE], {0, 1, 2}, 2, {})
  {
    hide Now, ItemValue, Started;
    NowFirst();
    StartedWithTwo(BASE, HELD, VALUE, 2);
  }

  lemma FirstLeads()
    ensures Leads(System(Now(1, 0, 0), [FREE, FREE], {0, 1, 2}, 2, {}), FIRST,
                  System(Now(1, 1, 0), [Mutex(HeldBy(0), [], {}), FREE], {0}, 0, {}))
  {
    var p := Now(1, 0, 0);
    var s0, s1, s2 := System(p, [FREE, FREE], {0, 1, 2}, 2, {}), System(p, [FREE, FREE], {0, 1}, 2, {}),
                      System(p, [FREE, FREE], {0, 1}, 1, {});
    var s3, s4 := System(p, [FREE, FREE], {0}, 1, {}), System(p, [FREE, FREE], {0}, 0, {});
    var s5 := System(Now(1, 1, 0), [Mutex(HeldBy(0), [], {}), FREE], {0}, 0, {});
    NowTakes();
    NowPrio(1, 0, 0);
    hide Now, IncrementHeld;
    assert {0, 1, 2} - {2} == {0, 1} && {0, 1} - {1} == {0} && FREE.woken - {0} == {};
    assert Apply(s0, SleepStep) == s1 && Apply(s1, RunStep(1)) == s2 && Apply(s2, SleepStep) == s3;
    assert Apply(s3, RunStep(0)) == s4 && Apply(s4, TakeStep(0)) == s5;
    assert Allowed(s0, SleepStep) && Allowed(s2, SleepStep) && Allowed(s4, TakeStep(0));
    assert Allowed(s1, RunStep(1)) && Allowed(s3, RunStep(0)) && Leads(s5, [], s5);
    assert Preemptive(s0, SleepStep) && Preemptive(s2, SleepStep) && Preemptive(s4, TakeStep(0));
    assert Preemptive(s1, RunStep(1)) && Preemptive(s3, RunStep(0));
    hide Allowed, Preemptive, Apply, Leads;
    LeadsOn(s4, TakeStep(0), [], s5);
    LeadsOn(s3, RunStep(0), [TakeStep(0)] + [], s5);
    LeadsOn(s2, SleepStep, [RunStep(0)] + ([TakeStep(0)] + []), s5);
    LeadsOn(s1, RunStep(1), [SleepStep] + ([RunStep(0)] + ([TakeStep(0)] + [])), s5);
    LeadsOn(s0, SleepStep, [RunStep(1)] + ([SleepStep] + ([RunStep(0)] + ([TakeStep(0)] + []))), s5);
  }

  lemma SecondLeads()
    ensures Leads(System(Now(1, 1, 0), [Mutex(HeldBy(0), [], {}), FREE], {0}, 0, {}), SECOND,
                  System(Now(1, 1, 1), [Mutex(HeldBy(0), [], {}), Mutex(HeldBy(1), [], {})], {0, 1}, 1, {}))
  {
    var x, y := Mutex(HeldBy(0), [], {}), Mutex(HeldBy(1), [], {});
    var s0, s1 := System(Now(1, 1, 0), [x, FREE], {0}, 0, {}), System(Now(1, 1, 0), [x, FREE], {0, 1}, 0, {});
    var s2, s3 := System(Now(1, 1, 0), [x, FREE], {0, 1}, 1, {}), System(Now(1, 1, 1), [x, y], {0, 1}, 1, {});
    NowTakes();
    NowPrio(1, 1, 0);
    assert 1 in s0.p.prio;
    hide Now, IncrementHeld;
    assert {0} + {1} == {0, 1} && FREE.woken - {1} == {};
    assert Apply(s0, WakeStep(1)) == s1 && Apply(s1, RunStep(1)) == s2 && Apply(s2, TakeStep(1)) == s3;
    assert Allowed(s0, WakeStep(1)) && Allowed(s1, RunStep(1)) && Allowed(s2, TakeStep(1)) && Leads(s3, [], s3);
    assert Preemptive(s0, WakeStep(1)) && Preemptive(s1, RunStep(1)) && Preemptive(s2, TakeStep(1));
    hide Allowed, Preemptive, Apply, Leads;
    LeadsOn(s2, TakeStep(1), [], s3);
    LeadsOn(s1, RunStep(1), [TakeStep(1)] + [], s3);
    LeadsOn(s0, WakeStep(1), [RunStep(1)] + ([TakeStep(1)] + []), s3);
  }

  lemma ThirdLeads()
    ensures Leads(System(Now(1, 1, 1), [Mutex(HeldBy(0), [], {}), Mutex(HeldBy(1), [], {})], {0, 1}, 1, {}), THIRD,
                  System(Now(2, 1, 1), [Mutex(HeldBy(0), [1], {}), Mutex(HeldBy(1), [], {})], {0, 2}, 2, {1}))
  {
    var x, w, y := Mutex(HeldBy(0), [], {}), Mutex(HeldBy(0), [1], {}), Mutex(HeldBy(1), [], {});
    var s0, s1 := System(Now(1, 1, 1), [x, y], {0, 1}, 1, {}), System(Now(2, 1, 1), [w, y], {0}, 1, {1});
    var s2, s3 := System(Now(2, 1, 1), [w, y], {0, 2}, 1, {1}), System(Now(2, 1, 1), [w, y], {0, 2}, 2, {1});
    NowInherits();
    NowPrio(1, 1, 1);
    hide Now, Inherit, Inherited;
    assert {0, 1} - {1} == {0} && {0} + {2} == {0, 2} && s0.noted + {1} == {1} && x.woken - {1} == {};
    assert InsertByValue(x.waiting, s1.p.value, 1) == [1];
    assert Apply(s0, BlockStep(0)) == s1 && Apply(s1, WakeStep(2)) == s2 && Apply(s2, RunStep(2)) == s3;
    assert Allowed(s0, BlockStep(0)) && Allowed(s1, WakeStep(2)) && Allowed(s2, RunStep(2)) && Leads(s3, [], s3);
    assert Preemptive(s0, BlockStep(0)) && Preemptive(s1, WakeStep(2)) && Preemptive(s2, RunStep(2));
    hide Allowed, Preemptive, Apply, Leads;
    LeadsOn(s2, RunStep(2), [], s3);
    LeadsOn(s1, WakeStep(2), [RunStep(2)] + [], s3);
    LeadsOn(s0, BlockStep(0), [WakeStep(2)] + ([RunStep(2)] + []), s3);
  }

  // Task 2 blocks on mutex 1, and task 1 inherits its priority, but not task 0, for which task 1 waits.
  lemma LastBlock(s: System)
    requires s == System(Now(2, 1, 1), [Mutex(HeldBy(0), [1], {}), Mutex(HeldBy(1), [], {})], {0, 2}, 2, {1})
    ensures Allowed(s, BlockStep(1)) && RunsHighest(s) && !NoInversion(Block(s, 1))
  {
    NowInherits();
    hide Now;
    BlockedFields(s, 1);
    hide Block, Prio;
    var r := Block(s, 1);
    assert r.mutexes[0] == Mutex(HeldBy(0), [1], {}) && 1 in r.mutexes[0].waiting && Prio(r.p, 1) > Prio(r.p, 0);
  }

  // A run from the start, in which no ready task is passed over.
  lemma ChainsInvert()
    ensures AllowedSteps(Begun(), FIRST + (SECOND + THIRD)) && PreemptiveSteps(Begun(), FIRST + (SECOND + THIRD))
    ensures var s := Steps(Begun(), FIRST + (SECOND + THIRD));
            Allowed(s, BlockStep(1)) && RunsHighest(s) && !NoInversion(Block(s, 1))
  {
    Starts();
    FirstLeads();
    SecondLeads();
    ThirdLeads();
    var x, w, y := Mutex(HeldBy(0), [], {}), Mutex(HeldBy(0), [1], {}), Mutex(HeldBy(1), [], {});
    var s1, s2 := System(Now(1, 1, 0), [x, FREE], {0}, 0, {}), System(Now(1, 1, 1), [x, y], {0, 1}, 1, {});
    var s3 := System(Now(2, 1, 1), [w, y], {0, 2}, 2, {1});
    LastBlock(s3);
    hide FIRST, SECOND, THIRD, Begun, Now, Block, Allowed, RunsHighest, NoInversion;
    hide AllowedSteps, PreemptiveSteps, Steps;
    LeadsAppend(s1, SECOND, s2, THIRD, s3);
    LeadsAppend(Begun(), FIRST, s1, SECOND + THIRD, s3);
  }
}
