/** How far a priority is raised, how far it falls and whom a give wakes: no task is ever boosted beyond
    what some other task is entitled to. */
module MutexOutcomes {
  import opened ListSpec
  import opened MutexModel
  import opened MutexChains
  import opened MutexRuns
  import StateLists

  function Max(a: nat, b: nat): nat {
    if a < b then b else a
  }

  lemma AllowedBlock(s: System, m: nat)
    requires Allowed(s, BlockStep(m))
    ensures m < |s.mutexes| && s.mutexes[m].holder.HeldBy? && Apply(s, BlockStep(m)) == Block(s, m)
  {
    hide Block;
  }

  // A task that blocks raises the holder to its own priority and not further, and no other task at all. It
  // waits for that mutex, is not ready, and notes whether the holder owes its priority to an inheritance.
  lemma BlockOutcome(s: System, m: nat)
    requires Books(s) && Allowed(s, BlockStep(m))
    ensures var r, h, c := Apply(s, BlockStep(m)), s.mutexes[m].holder.t, s.current;
            && Prio(r.p, h) == Max(Prio(s.p, h), Prio(s.p, c))
            && (forall t :: t != h ==> Prio(r.p, t) == Prio(s.p, t))
            && r.p.base == s.p.base && r.p.held == s.p.held
            && |r.mutexes| == |s.mutexes| && r.mutexes[m].holder == s.mutexes[m].holder
            && (forall t :: t in r.mutexes[m].waiting <==> t == c || t in s.mutexes[m].waiting)
            && c !in r.ready && (c in r.noted <==> Base(s.p, h) < Prio(s.p, c))
  {
    hide Books, Block, Inherit, Prio, Base, InsertByValue;
    AllowedBlock(s, m);
    BlockSize(s, m);
    InheritIs(s.p, s.mutexes[m].holder.t, s.current);
    NotedIs(s, m);
  }

  lemma InheritIs(p: Priorities, h: Task, c: Task)
    ensures var q := Inherit(p, HeldBy(h), c);
            && Prio(q, h) == Max(Prio(p, h), Prio(p, c)) && q.base == p.base && q.held == p.held
            && forall t :: t != h ==> Prio(q, t) == Prio(p, t)
  {
  }

  lemma NotedIs(s: System, m: nat)
    requires Books(s) && m < |s.mutexes| && s.mutexes[m].holder.HeldBy?
    ensures s.current in Block(s, m).noted <==> Base(s.p, s.mutexes[m].holder.t) < Prio(s.p, s.current)
  {
    HolderCounted(s, m);
    hide Counted, WaitsOnce, AllListed;
  }

  // A task whose wait has ended without the mutex lowers the holder, if that holds nothing else, to the
  // higher one of its base priority and the priority of the first task that still waits.
  lemma GiveUpOutcome(s: System, m: nat)
    requires Books(s) && Allowed(s, GiveUpStep(m))
    ensures var r, x := Apply(s, GiveUpStep(m)), s.mutexes[m];
            && r.mutexes == s.mutexes && r.p.base == s.p.base && r.p.held == s.p.held && s.current !in r.noted
            && (forall t :: x.holder != HeldBy(t) ==> Prio(r.p, t) == Prio(s.p, t))
            && (x.holder.HeldBy? ==>
                  var first := if x.waiting == [] then 0 else Prio(s.p, x.waiting[0]);
                  Prio(r.p, x.holder.t)
                  == if s.current in s.noted && Held(s.p, x.holder.t) == 1 then Max(Base(s.p, x.holder.t), first)
                     else Prio(s.p, x.holder.t))
  {
    GiveUpPrio(s, m);
    GiveUpIs(s, m);
    if s.mutexes[m].holder.HeldBy? {
      LevelIs(s, m);
    }
    hide Books, HighestWaiting, Level, PrioritiesOk;
  }

  // With the list in order, that first priority is the highest of all that wait.
  lemma GiveUpExact(s: System, m: nat)
    requires Inv(s) && m < |s.mutexes| && s.mutexes[m].holder.HeldBy? && s.mutexes[m].waiting != []
    ensures forall t :: t in s.mutexes[m].waiting ==> Prio(s.p, t) <= Prio(s.p, s.mutexes[m].waiting[0])
  {
    FirstIsHighest(s.mutexes[m], s);
  }

  // The giver goes back to its base priority with its last mutex and keeps its priority before that. The
  // mutex is free, and the first task that waits is ready and may try again.
  lemma GiveOutcome(s: System, m: nat)
    requires Books(s) && Allowed(s, GiveStep(m))
    ensures var r, x, h := Apply(s, GiveStep(m)), s.mutexes[m], s.current;
            && Held(s.p, h) > 0 && Held(r.p, h) == Held(s.p, h) - 1
            && Prio(r.p, h) == (if Held(s.p, h) == 1 then Base(s.p, h) else Prio(s.p, h))
            && (forall t :: t != h ==> Prio(r.p, t) == Prio(s.p, t))
            && |r.mutexes| == |s.mutexes| && r.mutexes[m].holder.NoTask?
            && (if x.waiting == [] then r.ready == s.ready
                else r.ready == s.ready + {x.waiting[0]} && r.mutexes[m].waiting == x.waiting[1..]
                     && x.waiting[0] in r.mutexes[m].woken)
  {
    HolderCounted(s, m);
    GiveSize(s, m);
    GivenFields(s.p, s.current);
    hide Counted, WaitsOnce, AllListed, Give;
  }

  // A task that takes a free mutex holds it, and one mutex more than before; no priority changes.
  lemma TakeOutcome(s: System, m: nat)
    requires Books(s) && Allowed(s, TakeStep(m))
    ensures var r := Apply(s, TakeStep(m));
            && |r.mutexes| == |s.mutexes| && r.mutexes[m].holder == HeldBy(s.current)
            && Held(r.p, s.current) == |Holding(s.mutexes, s.current)| + 1 && r.p.prio == s.p.prio
            && r.mutexes[m].waiting == s.mutexes[m].waiting
  {
  }

  // A task whose block time has expired is ready and no longer waits for the mutex; the others wait as before.
  lemma ExpireOutcome(s: System, m: nat, t: Task)
    requires Books(s) && Allowed(s, ExpireStep(m, t))
    ensures var r := Apply(s, ExpireStep(m, t));
            && r.ready == s.ready + {t} && r.p == s.p && |r.mutexes| == |s.mutexes|
            && (forall u :: u in r.mutexes[m].waiting <==> u in s.mutexes[m].waiting && u != t)
            && r.mutexes[m].holder == s.mutexes[m].holder
  {
    assert Listed(s.mutexes[m], s);
    WithoutNoDup(s.mutexes[m].waiting, t);
    hide Books, Without, NoDup;
  }

  // ----- no needless boost ---------------------------------------------------------------------------

  // Every priority is the base priority of some task.
  ghost predicate Grounded(p: Priorities) {
    forall t :: t in p.prio ==> exists u :: u in p.base && p.base[u] == p.prio[t]
  }

  // One priority has become that of another task, or the base priority.
  ghost predicate Moves(p: Priorities, q: Priorities, h: Task) {
    && q.base == p.base && q.prio.Keys == p.prio.Keys && (forall t :: t != h ==> Prio(q, t) == Prio(p, t))
    && ((exists t :: t in p.prio && Prio(q, h) == Prio(p, t)) || (h in p.base && Prio(q, h) == Base(p, h)))
  }

  lemma MovesGrounded(p: Priorities, q: Priorities, h: Task)
    requires Grounded(p) && Moves(p, q, h) && h in p.prio
    ensures Grounded(q)
  {
    forall t | t in q.prio ensures exists u :: u in q.base && q.base[u] == q.prio[t] {
      if t != h {
        assert Prio(q, t) == Prio(p, t) && t in p.prio;
        var u :| u in p.base && p.base[u] == p.prio[t];
        assert u in q.base && q.base[u] == q.prio[t];
      } else if x :| x in p.prio && Prio(q, h) == Prio(p, x) {
        var u :| u in p.base && p.base[u] == p.prio[x];
        assert u in q.base && q.base[u] == q.prio[t];
      } else {
        assert q.base[h] == q.prio[t];
      }
    }
  }

  lemma SameGrounded(p: Priorities, q: Priorities)
    requires Grounded(p) && q.base == p.base && q.prio == p.prio
    ensures Grounded(q)
  {
  }

  lemma MovesTo(p: Priorities, q: Priorities, h: Task, t: Task)
    requires q.base == p.base && q.prio.Keys == p.prio.Keys && h in p.prio && h in p.base && t in p.prio
    requires Prio(q, h) == Prio(p, t) || Prio(q, h) == Prio(p, h) || Prio(q, h) == Base(p, h)
    requires forall u :: u != h ==> Prio(q, u) == Prio(p, u)
    ensures Moves(p, q, h)
  {
  }

  lemma Known(s: System, m: nat)
    requires Books(s) && m < |s.mutexes|
    ensures s.current in s.p.prio && s.current in s.p.base
    ensures s.mutexes[m].holder.HeldBy? ==> s.mutexes[m].holder.t in s.p.prio && s.mutexes[m].holder.t in s.p.base
    ensures s.mutexes[m].waiting != [] ==> s.mutexes[m].waiting[0] in s.p.prio
  {
    assert Listed(s.mutexes[m], s);
    if s.mutexes[m].waiting != [] {
      assert s.mutexes[m].waiting[0] in s.mutexes[m].waiting;
    }
  }

  lemma BlockGrounded(s: System, m: nat)
    requires Books(s) && Allowed(s, BlockStep(m)) && Grounded(s.p)
    ensures Grounded(Apply(s, BlockStep(m)).p)
  {
    hide Books, Grounded, Moves, Allowed, Apply, Block, PrioritiesOk, Inherit, Prio, Base;
    AllowedBlock(s, m);
    Known(s, m);
    BlockOutcome(s, m);
    BlockSize(s, m);
    RaiseOk(s, m);
    MovesTo(s.p, Block(s, m).p, s.mutexes[m].holder.t, s.current);
    MovesGrounded(s.p, Block(s, m).p, s.mutexes[m].holder.t);
  }

  lemma AllowedGiveUp(s: System, m: nat)
    requires Allowed(s, GiveUpStep(m))
    ensures m < |s.mutexes| && Apply(s, GiveUpStep(m)) == GiveUp(s, m)
  {
    hide GiveUp;
  }

  lemma GiveUpGrounded(s: System, m: nat)
    requires Books(s) && Allowed(s, GiveUpStep(m)) && Grounded(s.p)
    ensures Grounded(Apply(s, GiveUpStep(m)).p)
  {
    hide Books, Grounded, Moves, Allowed, Apply, GiveUp, PrioritiesOk, Prio, Base;
    AllowedGiveUp(s, m);
    Known(s, m);
    GiveUpOutcome(s, m);
    LowerOk(s, m);
    var x := s.mutexes[m];
    if x.holder.HeldBy? {
      MovesTo(s.p, GiveUp(s, m).p, x.holder.t, if x.waiting == [] then s.current else x.waiting[0]);
      MovesGrounded(s.p, GiveUp(s, m).p, x.holder.t);
    } else {
      GiveUpSame(s, m);
      SameGrounded(s.p, GiveUp(s, m).p);
    }
  }

  lemma GiveUpSame(s: System, m: nat)
    requires m < |s.mutexes| && !s.mutexes[m].holder.HeldBy?
    ensures GiveUp(s, m).p == s.p
  {
  }

  lemma AllowedGive(s: System, m: nat)
    requires Allowed(s, GiveStep(m))
    ensures m < |s.mutexes| && s.mutexes[m].holder == HeldBy(s.current) && Apply(s, GiveStep(m)) == Give(s, m)
  {
    hide Give;
  }

  lemma GiveGrounded(s: System, m: nat)
    requires Books(s) && Allowed(s, GiveStep(m)) && Grounded(s.p)
    ensures Grounded(Apply(s, GiveStep(m)).p)
  {
    hide Books, Grounded, Moves, Allowed, Apply, Give, Disinherit, PrioritiesOk, Counted, WaitsOnce, Prio, Base;
    AllowedGive(s, m);
    Known(s, m);
    GiveOutcome(s, m);
    GivenBooks(s, m);
    GiveSize(s, m);
    HolderCounted(s, m);
    GivenFields(s.p, s.current);
    MovesTo(s.p, Give(s, m).p, s.current, s.current);
    MovesGrounded(s.p, Give(s, m).p, s.current);
  }

  lemma OtherGrounded(s: System, st: Step)
    requires Grounded(s.p) && !st.BlockStep? && !st.GiveUpStep? && !st.GiveStep?
    ensures Grounded(Apply(s, st).p)
  {
    SameGrounded(s.p, Apply(s, st).p);
    hide Grounded;
  }

  lemma StepGrounded(s: System, st: Step)
    requires Books(s) && Allowed(s, st) && Grounded(s.p)
    ensures Grounded(Apply(s, st).p)
  {
    hide Books, Grounded, Allowed, Apply;
    match st
    case BlockStep(m) => BlockGrounded(s, m);
    case GiveUpStep(m) => GiveUpGrounded(s, m);
    case GiveStep(m) => GiveGrounded(s, m);
    case _ => OtherGrounded(s, st);
  }

  lemma {:induction false} RunGrounded(s: System, sts: seq<Step>)
    requires Books(s) && AllowedSteps(s, sts) && Grounded(s.p)
    ensures Books(Steps(s, sts)) && Grounded(Steps(s, sts).p)
    decreases |sts|
  {
    hide Books, Grounded, Allowed, Apply;
    if sts != [] {
      StepBooks(s, sts[0]);
      StepGrounded(s, sts[0]);
      RunGrounded(Apply(s, sts[0]), sts[1..]);
    }
  }

  // In every reachable state: a task that holds no mutex has its base priority, and a task that holds some
  // has at least its own and no more than the base priority of one of the tasks.
  lemma NeverOverboosted(base: map<Task, nat>, count: nat, current: Task, sts: seq<Step>, t: Task)
    requires current in base && forall t :: t in base ==> base[t] < StateLists.configMAX_PRIORITIES
    requires AllowedSteps(Started(base, count, current), sts)
    requires t in Steps(Started(base, count, current), sts).p.prio
    ensures var s := Steps(Started(base, count, current), sts);
            && t in s.p.base && s.p.base[t] <= s.p.prio[t]
            && (Holding(s.mutexes, t) == {} ==> s.p.prio[t] == s.p.base[t])
            && exists u :: u in s.p.base && s.p.base[u] == s.p.prio[t]
  {
    var s0 := Started(base, count, current);
    hide AllowedSteps, Steps, Started, Books, Grounded, NoneOutranked;
    StartedBooks(base, count, current);
    StartedGrounded(base, count, current);
    RunGrounded(s0, sts);
    Entitled(Steps(s0, sts), t);
  }

  lemma StartedGrounded(base: map<Task, nat>, count: nat, current: Task)
    ensures Grounded(Started(base, count, current).p)
  {
  }

  lemma Entitled(s: System, t: Task)
    requires Books(s) && Grounded(s.p) && t in s.p.prio
    ensures t in s.p.base && s.p.base[t] <= s.p.prio[t]
    ensures Holding(s.mutexes, t) == {} ==> s.p.prio[t] == s.p.base[t]
    ensures exists u :: u in s.p.base && s.p.base[u] == s.p.prio[t]
  {
    hide WaitsOnce, AllListed;
    assert Holding(s.mutexes, t) == {} ==> s.p.held[t] == 0;
  }
}
