/** A time-out after which the holder of a mutex is outranked: the waiting list is no longer in order. */
module MutexTimeouts {
  import opened ListSpec
  import opened MutexModel
  import opened MutexChains

  const FIVE_BASES: map<Task, nat> := map[0 := 0, 1 := 1, 2 := 1, 3 := 2, 4 := 2]
  const FIVE_HELD: map<Task, nat> := map[0 := 0, 1 := 0, 2 := 0, 3 := 0, 4 := 0]
  const FIVE_VALUES: map<Task, nat> := map[0 := 5, 1 := 4, 2 := 4, 3 := 3, 4 := 3]

  // Tasks 0 and 1 have these priorities and hold that many mutexes.
  function At(prio0: nat, prio1: nat, held0: nat, held1: nat): Priorities
    requires prio0 <= 5 && prio1 <= 5
  {
    Priorities(FIVE_BASES, FIVE_BASES[0 := prio0][1 := prio1], FIVE_HELD[0 := held0][1 := held1],
               FIVE_VALUES[0 := 5 - prio0][1 := 5 - prio1])
  }

  // Mutex 0 is held by task 0 and mutex 1 by task 1.
  function Low(waiting: seq<Task>): Mutex {
    Mutex(HeldBy(0), waiting, {})
  }

  function Mid(waiting: seq<Task>): Mutex {
    Mutex(HeldBy(1), waiting, {})
  }

  lemma AtIs(prio0: nat, prio1: nat, held0: nat, held1: nat)
    requires prio0 <= 5 && prio1 <= 5
    ensures var p := At(prio0, prio1, held0, held1);
            && p.prio.Keys == {0, 1, 2, 3, 4} && p.base == FIVE_BASES
            && Prio(p, 0) == prio0 && Prio(p, 1) == prio1 && Prio(p, 2) == 1 && Prio(p, 3) == 2 && Prio(p, 4) == 2
            && ValueOf(p.value, 0) == 5 - prio0 && ValueOf(p.value, 1) == 5 - prio1 && ValueOf(p.value, 2) == 4
            && ValueOf(p.value, 3) == 3 && ValueOf(p.value, 4) == 3 && Held(p, 0) == held0 && Held(p, 1) == held1
  {
  }

  lemma Overwritten(v: map<Task, nat>, a: nat, b: nat, c: nat)
    ensures v[0 := a][1 := b][0 := c] == v[0 := c][1 := b] && v[0 := a][1 := b][1 := c] == v[0 := a][1 := c]
  {
  }

  lemma AtTakes(prio0: nat, prio1: nat, held0: nat, held1: nat)
    requires prio0 <= 5 && prio1 <= 5
    ensures IncrementHeld(At(prio0, prio1, held0, held1), 0) == At(prio0, prio1, held0 + 1, held1)
    ensures IncrementHeld(At(prio0, prio1, held0, held1), 1) == At(prio0, prio1, held0, held1 + 1)
  {
    Overwritten(FIVE_HELD, held0, held1, held0 + 1);
    Overwritten(FIVE_HELD, held0, held1, held1 + 1);
  }

  lemma AtChanges(prio0: nat, prio1: nat, held0: nat, held1: nat, h: Task, prio: nat)
    requires prio0 <= 5 && prio1 <= 5 && prio <= 5 && h < 2
    ensures WithPrio(At(prio0, prio1, held0, held1), h, prio)
         == if h == 0 then At(prio, prio1, held0, held1) else At(prio0, prio, held0, held1)
  {
    AtIs(prio0, prio1, held0, held1);
    Overwritten(FIVE_BASES, prio0, prio1, prio);
    Overwritten(FIVE_VALUES, 5 - prio0, 5 - prio1, 5 - prio);
    hide FIVE_BASES, FIVE_VALUES, FIVE_HELD;
  }

  // Task 0 or task 1 inherits from task t.
  lemma AtInherits(prio0: nat, prio1: nat, held0: nat, held1: nat, h: Task, t: Task)
    requires prio0 <= 5 && prio1 <= 5 && h < 2 && t < 5
    ensures var p := At(prio0, prio1, held0, held1);
            && Prio(p, t) <= 5 && (Inherited(p, HeldBy(h), t) <==> Prio(p, h) < Prio(p, t) || Base(p, h) < Prio(p, t))
            && Base(p, 0) == 0 && Base(p, 1) == 1
            && Inherit(p, HeldBy(h), t)
               == if Prio(p, h) >= Prio(p, t) then p
                  else if h == 0 then At(Prio(p, t), prio1, held0, held1) else At(prio0, Prio(p, t), held0, held1)
  {
    AtIs(prio0, prio1, held0, held1);
    hide At, WithPrio;
    AtChanges(prio0, prio1, held0, held1, h, Prio(At(prio0, prio1, held0, held1), t));
  }

  lemma AtLowers()
    ensures DisinheritAfterTimeout(At(2, 2, 1, 1), HeldBy(0), 1) == At(1, 2, 1, 1)
    ensures Prio(At(1, 2, 1, 1), 0) == 1 && Prio(At(1, 2, 1, 1), 1) == 2
  {
    AtIs(2, 2, 1, 1);
    AtIs(1, 2, 1, 1);
    hide At, WithPrio;
    AtChanges(2, 2, 1, 1, 0, 1);
  }

  function Begun5(): System {
    Started(FIVE_BASES, 2, 3)
  }

  lemma AtFirst()
    ensures At(0, 1, 0, 0) == Priorities(FIVE_BASES, FIVE_BASES, FIVE_HELD, FIVE_VALUES)
  {
    assert FIVE_BASES[0 := 0][1 := 1] == FIVE_BASES && FIVE_HELD[0 := 0][1 := 0] == FIVE_HELD;
    assert FIVE_VALUES[0 := 5][1 := 4] == FIVE_VALUES;
  }

  lemma FiveTasks()
    ensures FIVE_BASES.Keys == FIVE_HELD.Keys == FIVE_VALUES.Keys == {0, 1, 2, 3, 4}
    ensures forall t :: t in FIVE_BASES ==> FIVE_HELD[t] == 0 && FIVE_VALUES[t] == ItemValue(FIVE_BASES[t])
  {
  }

  lemma Starts5()
    ensures Begun5() == System(At(0, 1, 0, 0), [FREE, FREE], {0, 1, 2, 3, 4}, 3, {})
  {
    hide At, ItemValue, Started;
    AtFirst();
    FiveTasks();
    StartedWithTwo(FIVE_BASES, FIVE_HELD, FIVE_VALUES, 3);
  }

  // ----- what several steps do -------------------------------------------------------------------

  predicate NobodyWoken(s: System) {
    forall i :: 0 <= i < |s.mutexes| ==> s.mutexes[i].woken == {}
  }

  function Leaves(t: Task): seq<Step> {
    [SleepStep] + ([RunStep(t)] + [])
  }

  lemma LeavesLeads(s: System, t: Task)
    requires NobodyWoken(s) && RunsHighest(s) && t in s.ready && t != s.current
    ensures Leads(s, Leaves(t), s.(ready := s.ready - {s.current}, current := t))
  {
    var q := s.(ready := s.ready - {s.current});
    var r := q.(current := t);
    assert Leads(r, [], r);
    hide RunsHighest, Leads;
    LeadsOn(q, RunStep(t), [], r);
    LeadsOn(s, SleepStep, [RunStep(t)] + [], r);
  }

  function Comes(t: Task, m: nat): seq<Step> {
    [WakeStep(t)] + ([RunStep(t)] + ([BlockStep(m)] + []))
  }

  lemma ComesLeads(s: System, t: Task, m: nat)
    requires NobodyWoken(s) && !WaitsSomewhere(s, t) && t in s.p.prio
    requires m < |s.mutexes| && s.mutexes[m].holder.HeldBy?
    requires RunsHighest(s.(ready := s.ready + {t}, current := t))
    ensures Leads(s, Comes(t, m), Block(s.(ready := s.ready + {t}, current := t), m))
  {
    var q := s.(ready := s.ready + {t});
    var u := q.(current := t);
    var r := Block(u, m);
    assert Leads(r, [], r) && Allowed(u, BlockStep(m));
    assert Allowed(q, RunStep(t)) && Allowed(s, WakeStep(t));
    assert Apply(u, BlockStep(m)) == r && Apply(q, RunStep(t)) == u && Apply(s, WakeStep(t)) == q;
    assert Preemptive(u, BlockStep(m)) && Preemptive(q, RunStep(t)) && Preemptive(s, WakeStep(t));
    hide RunsHighest, Leads, Block, WaitsSomewhere, Allowed, Preemptive, Apply;
    LeadsOn(u, BlockStep(m), [], r);
    LeadsOn(q, RunStep(t), [BlockStep(m)] + [], r);
    LeadsOn(s, WakeStep(t), [RunStep(t)] + ([BlockStep(m)] + []), r);
  }

  // ----- the run ---------------------------------------------------------------------------------

  // All but tasks 0 and 1 go to sleep. Task 1 takes mutex 1, and task 0 takes mutex 0.
  function Settles(): seq<Step> {
    Leaves(4) + (Leaves(2) + Leaves(1))
  }

  lemma SettlesLeads()
    ensures Leads(System(At(0, 1, 0, 0), [FREE, FREE], {0, 1, 2, 3, 4}, 3, {}), Settles(),
                  System(At(0, 1, 0, 0), [FREE, FREE], {0, 1}, 1, {}))
  {
    var p, ms := At(0, 1, 0, 0), [FREE, FREE];
    var s0, s1 := System(p, ms, {0, 1, 2, 3, 4}, 3, {}), System(p, ms, {0, 1, 2, 4}, 4, {});
    var s2, s3 := System(p, ms, {0, 1, 2}, 2, {}), System(p, ms, {0, 1}, 1, {});
    AtIs(0, 1, 0, 0);
    hide At, Prio;
    assert {0, 1, 2, 3, 4} - {3} == {0, 1, 2, 4} && {0, 1, 2, 4} - {4} == {0, 1, 2} && {0, 1, 2} - {2} == {0, 1};
    LeavesLeads(s0, 4);
    LeavesLeads(s1, 2);
    LeavesLeads(s2, 1);
    hide Leads, Leaves;
    LeadsAppend(s1, Leaves(2), s2, Leaves(1), s3);
    LeadsAppend(s0, Leaves(4), s1, Leaves(2) + Leaves(1), s3);
  }

  function Holds(): seq<Step> {
    ([TakeStep(1)] + []) + (Leaves(0) + ([TakeStep(0)] + []))
  }

  lemma TakeLeads(s: System, m: nat, r: System)
    requires NobodyWoken(s) && RunsHighest(s) && m < |s.mutexes| && s.mutexes[m].holder.NoTask? && Take(s, m) == r
    ensures Leads(s, [TakeStep(m)] + [], r)
  {
    assert Allowed(s, TakeStep(m)) && Preemptive(s, TakeStep(m)) && Leads(r, [], r) && Apply(s, TakeStep(m)) == r;
    hide Take, RunsHighest, Allowed, Preemptive, Apply, Leads;
    LeadsOn(s, TakeStep(m), [], r);
  }

  lemma MidTaken()
    ensures Take(System(At(0, 1, 0, 0), [FREE, FREE], {0, 1}, 1, {}), 1)
         == System(At(0, 1, 0, 1), [FREE, Mid([])], {0, 1}, 1, {})
  {
    AtTakes(0, 1, 0, 0);
    hide At, IncrementHeld;
    assert FREE.woken - {1} == {};
  }

  lemma LowTaken()
    ensures Take(System(At(0, 1, 0, 1), [FREE, Mid([])], {0}, 0, {}), 0)
         == System(At(0, 1, 1, 1), [Low([]), Mid([])], {0}, 0, {})
  {
    AtTakes(0, 1, 0, 1);
    hide At, IncrementHeld;
    assert FREE.woken - {0} == {};
  }

  lemma HighestAre()
    ensures var s := System(At(0, 1, 0, 0), [FREE, FREE], {0, 1}, 1, {}); RunsHighest(s) && NobodyWoken(s)
    ensures var s := System(At(0, 1, 0, 1), [FREE, Mid([])], {0, 1}, 1, {}); RunsHighest(s) && NobodyWoken(s)
    ensures var s := System(At(0, 1, 0, 1), [FREE, Mid([])], {0}, 0, {}); RunsHighest(s) && NobodyWoken(s)
  {
    AtIs(0, 1, 0, 0);
    AtIs(0, 1, 0, 1);
    hide At, Prio;
  }

  lemma HoldsLeads()
    ensures Leads(System(At(0, 1, 0, 0), [FREE, FREE], {0, 1}, 1, {}), Holds(),
                  System(At(0, 1, 1, 1), [Low([]), Mid([])], {0}, 0, {}))
  {
    var s0, s1 := System(At(0, 1, 0, 0), [FREE, FREE], {0, 1}, 1, {}),
                  System(At(0, 1, 0, 1), [FREE, Mid([])], {0, 1}, 1, {});
    var s2, s3 := System(At(0, 1, 0, 1), [FREE, Mid([])], {0}, 0, {}),
                  System(At(0, 1, 1, 1), [Low([]), Mid([])], {0}, 0, {});
    HighestAre();
    MidTaken();
    LowTaken();
    hide At, Take, RunsHighest, Low, Mid;
    assert {0, 1} - {1} == {0};
    TakeLeads(s0, 1, s1);
    LeavesLeads(s1, 0);
    TakeLeads(s2, 0, s3);
    hide Leads, Leaves;
    LeadsAppend(s1, Leaves(0), s2, [TakeStep(0)] + [], s3);
    LeadsAppend(s0, [TakeStep(1)] + [], s1, Leaves(0) + ([TakeStep(0)] + []), s3);
  }

  // While task 0 alone is ready, and w waits for its mutex.
  function Alone(prio0: nat, w: seq<Task>, c: Task, noted: set<Task>): System
    requires prio0 <= 5
  {
    System(At(prio0, 1, 1, 1), [Low(w), Mid([])], {0}, c, noted)
  }

  lemma ComerIsHighest(prio0: nat, w: seq<Task>, c: Task, noted: set<Task>, t: Task, prio: nat)
    requires prio0 <= prio <= 5 && 0 < t < 5 && t !in w && Prio(At(prio0, 1, 1, 1), t) == prio
    ensures var s := Alone(prio0, w, c, noted);
            && RunsHighest(s.(ready := s.ready + {t}, current := t)) && !WaitsSomewhere(s, t) && NobodyWoken(s)
            && t in s.p.prio
  {
    AtIs(prio0, 1, 1, 1);
    hide At, Prio;
  }

  lemma Blocked(p: Priorities, q: Priorities, w: seq<Task>, ready: set<Task>, noted: set<Task>, t: Task)
    requires Inherit(p, HeldBy(0), t) == q && Inherited(p, HeldBy(0), t)
    ensures Block(System(p, [Low(w), Mid([])], ready, t, noted), 0)
         == System(q, [Low(InsertByValue(w, q.value, t)), Mid([])], ready - {t}, t, noted + {t})
  {
    hide Inherit, Inherited, InsertByValue;
    assert Low(w).woken - {t} == {};
  }

  lemma ComerWaits(prio0: nat, w: seq<Task>, c: Task, noted: set<Task>, t: Task, prio: nat)
    requires prio0 <= prio <= 5 && 0 < prio && 0 < t < 5 && Prio(At(prio0, 1, 1, 1), t) == prio
    ensures var s := Alone(prio0, w, c, noted);
            Block(s.(ready := s.ready + {t}, current := t), 0)
            == Alone(prio, InsertByValue(w, At(prio, 1, 1, 1).value, t), t, noted + {t})
  {
    AtIs(prio0, 1, 1, 1);
    AtInherits(prio0, 1, 1, 1, 0, t);
    hide At, Inherit, Inherited, Prio, Base, InsertByValue;
    assert {0} + {t} - {t} == {0};
    Blocked(At(prio0, 1, 1, 1), At(prio, 1, 1, 1), w, {0} + {t}, noted, t);
  }

  // A task of priority prio, no lower than that of task 0, comes and waits for mutex 0.
  lemma WaitsLeads(prio0: nat, w: seq<Task>, c: Task, noted: set<Task>, t: Task, prio: nat)
    requires prio0 <= prio <= 5 && 0 < prio && 0 < t < 5 && t !in w && Prio(At(prio0, 1, 1, 1), t) == prio
    ensures Leads(Alone(prio0, w, c, noted), Comes(t, 0),
                  Alone(prio, InsertByValue(w, At(prio, 1, 1, 1).value, t), t, noted + {t}))
  {
    ComerIsHighest(prio0, w, c, noted, t, prio);
    ComerWaits(prio0, w, c, noted, t, prio);
    hide At, Prio, Block, Leads, Comes, RunsHighest, WaitsSomewhere, NobodyWoken, InsertByValue;
    ComesLeads(Alone(prio0, w, c, noted), t, 0);
  }

  // Tasks 2, 1 and 3, in this order, wait for mutex 0, and task 4 for mutex 1.
  function Waits(): seq<Step> {
    Comes(2, 0) + (Comes(1, 0) + (Comes(3, 0) + Comes(4, 1)))
  }

  lemma Lists()
    ensures InsertByValue([], At(1, 1, 1, 1).value, 2) == [2]
    ensures InsertByValue([2], At(1, 1, 1, 1).value, 1) == [2, 1]
    ensures InsertByValue([2, 1], At(2, 1, 1, 1).value, 3) == [3, 2, 1]
  {
    AtIs(1, 1, 1, 1);
    AtIs(2, 1, 1, 1);
    hide At;
    assert [2][1..] == [];
    assert InsertByValue([], At(1, 1, 1, 1).value, 1) == [1];
  }

  lemma FourthLeads()
    ensures Leads(System(At(2, 1, 1, 1), [Low([3, 2, 1]), Mid([])], {0}, 3, {1, 2, 3}), Comes(4, 1),
                  System(At(2, 2, 1, 1), [Low([3, 2, 1]), Mid([4])], {0}, 4, {1, 2, 3, 4}))
  {
    var s := System(At(2, 1, 1, 1), [Low([3, 2, 1]), Mid([])], {0}, 3, {1, 2, 3});
    var u := s.(ready := {0, 4}, current := 4);
    AtIs(2, 1, 1, 1);
    AtInherits(2, 1, 1, 1, 1, 4);
    hide At, Inherit, Inherited, Prio, Base;
    assert {0} + {4} == {0, 4} && {0, 4} - {4} == {0} && u.mutexes[1].woken - {4} == {};
    assert RunsHighest(u) && !WaitsSomewhere(s, 4) && NobodyWoken(s);
    ComesLeads(s, 4, 1);
    hide Leads, Comes, RunsHighest, WaitsSomewhere, NobodyWoken;
    assert Inherit(s.p, HeldBy(1), 4) == At(2, 2, 1, 1) && {1, 2, 3} + {4} == {1, 2, 3, 4};
    assert InsertByValue([], At(2, 2, 1, 1).value, 4) == [4];
  }

  lemma FirstLeads()
    ensures Leads(System(At(0, 1, 1, 1), [Low([]), Mid([])], {0}, 0, {}), Comes(2, 0),
                  System(At(1, 1, 1, 1), [Low([2]), Mid([])], {0}, 2, {2}))
  {
    AtIs(0, 1, 1, 1);
    Lists();
    hide At, Prio, Leads, Comes, InsertByValue, Low, Mid;
    assert {} + {2} == {2};
    WaitsLeads(0, [], 0, {}, 2, 1);
  }

  lemma SecondLeads()
    ensures Leads(System(At(1, 1, 1, 1), [Low([2]), Mid([])], {0}, 2, {2}), Comes(1, 0),
                  System(At(1, 1, 1, 1), [Low([2, 1]), Mid([])], {0}, 1, {1, 2}))
  {
    AtIs(1, 1, 1, 1);
    Lists();
    hide At, Prio, Leads, Comes, InsertByValue, Low, Mid;
    assert {2} + {1} == {1, 2};
    WaitsLeads(1, [2], 2, {2}, 1, 1);
  }

  lemma ThirdLeads()
    ensures Leads(System(At(1, 1, 1, 1), [Low([2, 1]), Mid([])], {0}, 1, {1, 2}), Comes(3, 0),
                  System(At(2, 1, 1, 1), [Low([3, 2, 1]), Mid([])], {0}, 3, {1, 2, 3}))
  {
    AtIs(1, 1, 1, 1);
    Lists();
    hide At, Prio, Leads, Comes, InsertByValue, Low, Mid;
    assert {1, 2} + {3} == {1, 2, 3};
    WaitsLeads(1, [2, 1], 1, {1, 2}, 3, 2);
  }

  lemma WaitsAllLead()
    ensures Leads(System(At(0, 1, 1, 1), [Low([]), Mid([])], {0}, 0, {}), Waits(),
                  System(At(2, 2, 1, 1), [Low([3, 2, 1]), Mid([4])], {0}, 4, {1, 2, 3, 4}))
  {
    var s0, s1 := System(At(0, 1, 1, 1), [Low([]), Mid([])], {0}, 0, {}),
                  System(At(1, 1, 1, 1), [Low([2]), Mid([])], {0}, 2, {2});
    var s2, s3 := System(At(1, 1, 1, 1), [Low([2, 1]), Mid([])], {0}, 1, {1, 2}),
                  System(At(2, 1, 1, 1), [Low([3, 2, 1]), Mid([])], {0}, 3, {1, 2, 3});
    var s4 := System(At(2, 2, 1, 1), [Low([3, 2, 1]), Mid([4])], {0}, 4, {1, 2, 3, 4});
    hide At, Leads, Comes, Low, Mid;
    FirstLeads();
    SecondLeads();
    ThirdLeads();
    FourthLeads();
    LeadsAppend(s2, Comes(3, 0), s3, Comes(4, 1), s4);
    LeadsAppend(s1, Comes(1, 0), s2, Comes(3, 0) + Comes(4, 1), s4);
    LeadsAppend(s0, Comes(2, 0), s1, Comes(1, 0) + (Comes(3, 0) + Comes(4, 1)), s4);
  }

  // Then task 3 times out.
  function Expires(): seq<Step> {
    [ExpireStep(0, 3)] + ([RunStep(3)] + [])
  }

  lemma ExpiresLeads()
    ensures Leads(System(At(2, 2, 1, 1), [Low([3, 2, 1]), Mid([4])], {0}, 4, {1, 2, 3, 4}), Expires(),
                  System(At(2, 2, 1, 1), [Low([2, 1]), Mid([4])], {0, 3}, 3, {1, 2, 3, 4}))
  {
    var p, noted := At(2, 2, 1, 1), {1, 2, 3, 4};
    var s0, s1 := System(p, [Low([3, 2, 1]), Mid([4])], {0}, 4, noted),
                  System(p, [Low([2, 1]), Mid([4])], {0, 3}, 4, noted);
    var s2 := s1.(current := 3);
    hide At;
    assert Without([3, 2, 1], 3) == [2, 1] && {0} + {3} == {0, 3};
    assert Apply(s0, ExpireStep(0, 3)) == s1 && Apply(s1, RunStep(3)) == s2 && Leads(s2, [], s2);
    hide Apply, Leads;
    LeadsOn(s1, RunStep(3), [], s2);
    LeadsOn(s0, ExpireStep(0, 3), [RunStep(3)] + [], s2);
  }

  // Task 3 gives up: task 0 falls to the priority of task 2, and task 1, which has inherited priority 2,
  // waits behind that.
  lemma LastGivesUp(s: System)
    requires s == System(At(2, 2, 1, 1), [Low([2, 1]), Mid([4])], {0, 3}, 3, {1, 2, 3, 4})
    ensures Allowed(s, GiveUpStep(0)) && RunsHighest(s) && !NoInversion(Apply(s, GiveUpStep(0)))
  {
    AtIs(2, 2, 1, 1);
    AtLowers();
    hide At, DisinheritAfterTimeout, Prio;
    var r := GiveUp(s, 0);
    assert HighestWaiting(s.p, Low([2, 1])) == 1;
    assert r.p == At(1, 2, 1, 1) && r.mutexes[0] == Low([2, 1]) && 1 in r.mutexes[0].waiting;
    assert Prio(r.p, 1) > Prio(r.p, 0);
  }

  function Run(): seq<Step> {
    Settles() + (Holds() + (Waits() + Expires()))
  }

  lemma RunLeads()
    ensures Leads(Begun5(), Run(), System(At(2, 2, 1, 1), [Low([2, 1]), Mid([4])], {0, 3}, 3, {1, 2, 3, 4}))
  {
    var s0, s1 := System(At(0, 1, 0, 0), [FREE, FREE], {0, 1, 2, 3, 4}, 3, {}),
                  System(At(0, 1, 0, 0), [FREE, FREE], {0, 1}, 1, {});
    var s2, s3 := System(At(0, 1, 1, 1), [Low([]), Mid([])], {0}, 0, {}),
                  System(At(2, 2, 1, 1), [Low([3, 2, 1]), Mid([4])], {0}, 4, {1, 2, 3, 4});
    var s4 := System(At(2, 2, 1, 1), [Low([2, 1]), Mid([4])], {0, 3}, 3, {1, 2, 3, 4});
    Starts5();
    SettlesLeads();
    HoldsLeads();
    WaitsAllLead();
    ExpiresLeads();
    hide Begun5, Settles, Holds, Waits, Expires, At, Low, Mid, Leads;
    LeadsAppend(s2, Waits(), s3, Expires(), s4);
    LeadsAppend(s1, Holds(), s2, Waits() + Expires(), s4);
    LeadsAppend(s0, Settles(), s1, Holds() + (Waits() + Expires()), s4);
  }

  // A run from the start, in which no ready task is passed over.
  lemma TimeoutsUndercut()
    ensures AllowedSteps(Begun5(), Run()) && PreemptiveSteps(Begun5(), Run())
    ensures var s := Steps(Begun5(), Run());
            Allowed(s, GiveUpStep(0)) && RunsHighest(s) && !NoInversion(Apply(s, GiveUpStep(0)))
  {
    RunLeads();
    hide Begun5, Run, At, Low, Mid, Apply, Allowed, RunsHighest, NoInversion;
    hide Steps, AllowedSteps, PreemptiveSteps;
    LastGivesUp(Steps(Begun5(), Run()));
  }
}
