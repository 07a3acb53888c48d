/** Every run of takes, blocks, time-outs and gives, whatever the tasks hold: when a holder is outranked. */
module MutexRuns {
  import opened ListSpec
  import opened MutexModel
  import opened MutexChains
  import StateLists

  // ----- what is always so -----------------------------------------------------------------------

  // A waiting list: it need not be in order, because a task that waits can inherit.
  ghost predicate Listed(x: Mutex, s: System) {
    && NoDup(x.waiting) && (forall t :: t in x.waiting ==> t in s.p.prio && t !in s.ready)
    && (x.holder.HeldBy? ==> x.holder.t in s.p.prio)
  }

  ghost predicate AllListed(s: System) {
    forall i :: 0 <= i < |s.mutexes| ==> Listed(s.mutexes[i], s)
  }

  ghost predicate Books(s: System) {
    && PrioritiesOk(s.p) && Counted(s) && WaitsOnce(s.mutexes) && AllListed(s)
    && s.current in s.p.prio && (forall t :: t in s.ready ==> t in s.p.prio)
  }

  lemma HolderCounted(s: System, m: nat)
    requires Books(s) && m < |s.mutexes| && s.mutexes[m].holder.HeldBy?
    ensures var h := s.mutexes[m].holder.t; h in s.p.prio && h in s.p.held && s.p.held[h] > 0 && h in s.p.base
  {
    assert Listed(s.mutexes[m], s);
    assert m in Holding(s.mutexes, s.mutexes[m].holder.t);
  }

  lemma HoldsOnly(s: System, h: Task, m: nat)
    requires Counted(s) && h in s.p.held && s.p.held[h] == 1 && m < |s.mutexes| && s.mutexes[m].holder == HeldBy(h)
    ensures forall i :: 0 <= i < |s.mutexes| && s.mutexes[i].holder == HeldBy(h) ==> i == m
  {
    forall i | 0 <= i < |s.mutexes| && s.mutexes[i].holder == HeldBy(h) ensures i == m {
      HoldsOne(s, h, m, i);
    }
  }

  lemma ReadyRuns(s: System)
    requires AllListed(s) && s.current in s.ready
    ensures Runs(s)
  {
    forall i | 0 <= i < |s.mutexes| ensures s.current !in s.mutexes[i].waiting {
      assert Listed(s.mutexes[i], s);
    }
  }

  // ----- every step keeps it ---------------------------------------------------------------------

  lemma TakeBooks(s: System, m: nat)
    requires m < |s.mutexes| && Books(s) && Allowed(s, TakeStep(m))
    ensures Books(Take(s, m))
  {
    var r := Take(s, m);
    hide Counted, WaitsOnce, PrioritiesOk, NoDup, Take;
    TakeSize(s, m);
    KnownHeld(s.p, s.current);
    TakenPriorities(s.p, s.current);
    TakenCounted(s, m);
    GivenOnce(s.mutexes, m, r.mutexes[m]);
    TakenHolder(s, m);
    forall i | 0 <= i < |r.mutexes| ensures Listed(r.mutexes[i], r) {
      assert Listed(s.mutexes[i], s);
    }
  }

  lemma TakenHolder(s: System, m: nat)
    requires m < |s.mutexes|
    ensures Take(s, m).mutexes[m].holder == HeldBy(s.current)
  {
  }

  lemma RaiseOk(s: System, m: nat)
    requires Books(s) && m < |s.mutexes| && s.mutexes[m].holder.HeldBy?
    ensures var q := Inherit(s.p, s.mutexes[m].holder, s.current);
            PrioritiesOk(q) && q.prio.Keys == s.p.prio.Keys && q.held == s.p.held
  {
    HolderCounted(s, m);
    var h, level := s.mutexes[m].holder.t, Prio(s.p, s.current);
    if Prio(s.p, h) < level {
      ChangeOk(s.p, h, level);
      ChangeKeys(s.p, h, level);
    }
  }

  lemma BlockSize(s: System, m: nat)
    requires m < |s.mutexes|
    ensures var r, x := Block(s, m), s.mutexes[m];
            && |r.mutexes| == |s.mutexes| && r.mutexes == s.mutexes[m := r.mutexes[m]]
            && r.p == Inherit(s.p, x.holder, s.current) && r.mutexes[m].holder == x.holder
            && r.current == s.current && r.ready == s.ready - {s.current}
            && r.mutexes[m].waiting == InsertByValue(x.waiting, r.p.value, s.current)
  {
  }

  lemma BlockedOnce(mutexes: seq<Mutex>, m: nat, y: Mutex, c: Task)
    requires WaitsOnce(mutexes) && m < |mutexes| && forall i :: 0 <= i < |mutexes| ==> c !in mutexes[i].waiting
    requires forall t :: t in y.waiting ==> t == c || t in mutexes[m].waiting
    ensures WaitsOnce(mutexes[m := y])
  {
  }

  lemma BlockBooks(s: System, m: nat)
    requires m < |s.mutexes| && Books(s) && Allowed(s, BlockStep(m))
    ensures Books(Block(s, m))
  {
    var r := Block(s, m);
    ReadyRuns(s);
    assert Listed(s.mutexes[m], s);
    InsertByValueNoDup(s.mutexes[m].waiting, r.p.value, s.current);
    hide Counted, WaitsOnce, PrioritiesOk, NoDup, Block, Inherit;
    BlockSize(s, m);
    RaiseOk(s, m);
    CountedSame(s, r, m);
    BlockedOnce(s.mutexes, m, r.mutexes[m], s.current);
    forall i | 0 <= i < |r.mutexes| ensures Listed(r.mutexes[i], r) {
      assert Listed(s.mutexes[i], s);
    }
  }

  lemma RetryBooks(s: System, m: nat)
    requires m < |s.mutexes| && Books(s) && Allowed(s, RetryStep(m))
    ensures Books(Retry(s, m))
  {
    var r := Retry(s, m);
    hide Counted, WaitsOnce, PrioritiesOk, NoDup, Retry;
    RetrySize(s, m);
    CountedSame(s, r, m);
    GivenOnce(s.mutexes, m, r.mutexes[m]);
    forall i | 0 <= i < |r.mutexes| ensures Listed(r.mutexes[i], r) {
      assert Listed(s.mutexes[i], s);
    }
  }

  // What the first waiting task needs, which need not be what all need.
  function Level(s: System, m: nat): nat
    requires m < |s.mutexes| && s.mutexes[m].holder.HeldBy?
  {
    var highest := HighestWaiting(s.p, s.mutexes[m]);
    if Base(s.p, s.mutexes[m].holder.t) < highest then highest else Base(s.p, s.mutexes[m].holder.t)
  }

  lemma LevelIs(s: System, m: nat)
    requires Books(s) && m < |s.mutexes| && s.mutexes[m].holder.HeldBy?
    ensures var x, b, level := s.mutexes[m], Base(s.p, s.mutexes[m].holder.t), Level(s, m);
            && b <= level < StateLists.configMAX_PRIORITIES
            && (x.waiting == [] ==> level == b)
            && (x.waiting != [] ==> level == if b < Prio(s.p, x.waiting[0]) then Prio(s.p, x.waiting[0]) else b)
  {
    var x := s.mutexes[m];
    HolderCounted(s, m);
    assert Listed(x, s);
    if x.waiting != [] {
      assert x.waiting[0] in x.waiting;
    }
  }

  lemma GiveUpIs(s: System, m: nat)
    requires m < |s.mutexes|
    ensures var x := s.mutexes[m];
            GiveUp(s, m).p == if s.current in s.noted && x.holder.HeldBy? && Held(s.p, x.holder.t) == 1
                                 && Prio(s.p, x.holder.t) != Level(s, m)
                              then WithPrio(s.p, x.holder.t, Level(s, m)) else s.p
  {
    hide WithPrio, HighestWaiting;
  }

  lemma LowerOk(s: System, m: nat)
    requires Books(s) && m < |s.mutexes|
    ensures var q := GiveUp(s, m).p; PrioritiesOk(q) && q.prio.Keys == s.p.prio.Keys && q.held == s.p.held
  {
    GiveUpIs(s, m);
    BooksPriorities(s);
    if s.mutexes[m].holder.HeldBy? {
      var h, level := s.mutexes[m].holder.t, Level(s, m);
      HolderCounted(s, m);
      LevelIs(s, m);
      hide Books, GiveUp, PrioritiesOk, Level;
      ChangeOk(s.p, h, level);
      ChangeKeys(s.p, h, level);
    }
  }

  lemma BooksPriorities(s: System)
    requires Books(s)
    ensures PrioritiesOk(s.p)
  {
  }

  lemma GiveUpSize(s: System, m: nat)
    requires m < |s.mutexes|
    ensures var r := GiveUp(s, m); r.mutexes == s.mutexes && r.ready == s.ready && r.current == s.current
  {
  }

  lemma GiveUpBooks(s: System, m: nat)
    requires m < |s.mutexes| && Books(s) && Allowed(s, GiveUpStep(m))
    ensures Books(GiveUp(s, m))
  {
    var r := GiveUp(s, m);
    hide PrioritiesOk, NoDup, WaitsOnce, GiveUp, Counted;
    LowerOk(s, m);
    GiveUpSize(s, m);
    CountedSame(s, r, m);
    forall i | 0 <= i < |r.mutexes| ensures Listed(r.mutexes[i], r) {
      assert Listed(s.mutexes[i], s);
    }
  }

  // Afterwards its books are those of one holder less and, perhaps, one ready task more.
  lemma GivenListed(s: System, m: nat, i: nat)
    requires Books(s) && m < |s.mutexes| && i < |s.mutexes| && Give(s, m).p.prio.Keys == s.p.prio.Keys
    ensures |Give(s, m).mutexes| == |s.mutexes| && Listed(Give(s, m).mutexes[i], Give(s, m))
  {
    var r, x := Give(s, m), s.mutexes[m];
    GiveSize(s, m);
    assert Listed(x, s) && Listed(s.mutexes[i], s);
    if x.waiting != [] {
      assert x.waiting[0] in x.waiting;
      TailOnce(x.waiting);
    }
    hide PrioritiesOk, Counted, NoDup, Give, AllListed;
  }

  lemma GivenBooks(s: System, m: nat)
    requires Books(s) && m < |s.mutexes| && s.mutexes[m].holder == HeldBy(s.current)
    ensures var r := Give(s, m);
            && PrioritiesOk(r.p) && Counted(r) && WaitsOnce(r.mutexes) && |r.mutexes| == |s.mutexes|
            && r.p.prio.Keys == s.p.prio.Keys && r.current == s.current
  {
    var r, h := Give(s, m), s.current;
    HolderCounted(s, m);
    ValueKnown(s.p, h);
    hide Counted, PrioritiesOk, Give, Disinherit, WaitsOnce, AllListed;
    GivenPriorities(s.p, h);
    GivenFields(s.p, h);
    GiveSize(s, m);
    GivenCounted(s, m, r);
    GivenOnce(s.mutexes, m, r.mutexes[m]);
  }

  lemma GiveBooks(s: System, m: nat)
    requires m < |s.mutexes| && Books(s) && Allowed(s, GiveStep(m))
    ensures Books(Give(s, m))
  {
    hide Counted, PrioritiesOk, Give, WaitsOnce, Listed;
    var r := Give(s, m);
    GivenBooks(s, m);
    FirstReady(s, m);
    forall i | 0 <= i < |r.mutexes| ensures Listed(r.mutexes[i], r) {
      GivenListed(s, m, i);
    }
  }

  lemma ValueKnown(p: Priorities, h: Task)
    requires PrioritiesOk(p) && h in p.prio
    ensures h in p.value
  {
  }

  lemma FirstReady(s: System, m: nat)
    requires Books(s) && m < |s.mutexes|
    ensures forall t :: t in Give(s, m).ready ==> t in s.p.prio
  {
    assert Listed(s.mutexes[m], s);
    if s.mutexes[m].waiting != [] {
      assert s.mutexes[m].waiting[0] in s.mutexes[m].waiting;
    }
  }

  lemma TailOnce(q: seq<Task>)
    requires NoDup(q) && q != []
    ensures NoDup(q[1..]) && q[0] !in q[1..] && forall t :: t in q[1..] ==> t in q
  {
  }

  lemma ExpireBooks(s: System, m: nat, t: Task)
    requires m < |s.mutexes| && Books(s) && Allowed(s, ExpireStep(m, t))
    ensures Books(Expire(s, m, t))
  {
    var r := Expire(s, m, t);
    assert Listed(s.mutexes[m], s);
    WithoutNoDup(s.mutexes[m].waiting, t);
    ExpireSize(s, m, t);
    CountedSame(s, r, m);
    GivenOnce(s.mutexes, m, r.mutexes[m]);
    hide PrioritiesOk, Counted, NoDup, Expire;
    forall i | 0 <= i < |r.mutexes| ensures Listed(r.mutexes[i], r) {
      assert Listed(s.mutexes[i], s);
    }
  }

  lemma ReadyBooks(s: System, st: Step)
    requires Books(s) && Allowed(s, st) && (st.SleepStep? || st.WakeStep? || st.RunStep?)
    ensures Books(Apply(s, st))
  {
    var r := Apply(s, st);
    hide PrioritiesOk, NoDup, WaitsOnce;
    forall i | 0 <= i < |r.mutexes| ensures Listed(r.mutexes[i], r) {
      assert Listed(s.mutexes[i], s);
    }
  }

  lemma StepBooks(s: System, st: Step)
    requires Books(s) && Allowed(s, st)
    ensures Books(Apply(s, st))
  {
    hide Books, Take, Block, Retry, GiveUp, Give, Expire, Calls, WaitsSomewhere;
    if st.SleepStep? || st.WakeStep? || st.RunStep? {
      ReadyBooks(s, st);
    } else {
      AllowedSize(s, st);
      match st
      case TakeStep(m) => TakeBooks(s, m);
      case BlockStep(m) => BlockBooks(s, m);
      case RetryStep(m) => RetryBooks(s, m);
      case GiveUpStep(m) => GiveUpBooks(s, m);
      case GiveStep(m) => GiveBooks(s, m);
      case ExpireStep(m, t) => ExpireBooks(s, m, t);
      case _ =>
    }
  }

  lemma AllowedSize(s: System, st: Step)
    requires Allowed(s, st) && !st.SleepStep? && !st.WakeStep? && !st.RunStep?
    ensures st.m < |s.mutexes|
  {
  }

  // ----- when a step lets a holder be outranked --------------------------------------------------

  // A time-out lowers the holder to what the first waiting task needs, but another needs more. (The
  // list is no longer in order once a task on it has inherited.)
  predicate Undercuts(s: System, m: nat)
    requires m < |s.mutexes|
  {
    && s.current in s.noted && s.mutexes[m].holder.HeldBy? && Held(s.p, s.mutexes[m].holder.t) == 1
    && exists t :: t in s.mutexes[m].waiting && t != s.mutexes[m].holder.t
                   && Prio(s.p, t) > Prio(s.p, s.mutexes[m].waiting[0])
                   && Prio(s.p, t) > Base(s.p, s.mutexes[m].holder.t)
  }

  predicate Inverts(s: System, st: Step) {
    match st
    case TakeStep(m) => m < |s.mutexes| && !NobodyAbove(s, m)
    case BlockStep(m) => m < |s.mutexes| && s.mutexes[m].holder.HeldBy? && Chained(s, m)
    case GiveUpStep(m) => m < |s.mutexes| && Undercuts(s, m)
    case _ => false
  }

  // All the rest of the claim follows from the books.
  lemma BooksInversion(s: System)
    requires Books(s)
    ensures NoInversion(s) <==> NoneOutranked(s)
  {
    forall t | t in s.p.prio && forall i :: 0 <= i < |s.mutexes| ==> s.mutexes[i].holder != HeldBy(t)
      ensures Prio(s.p, t) == Base(s.p, t)
    {
      assert Holding(s.mutexes, t) == {};
    }
    hide NoneOutranked;
  }

  lemma TakeOutranksIff(s: System, m: nat)
    requires m < |s.mutexes| && Books(s) && NoneOutranked(s) && Allowed(s, TakeStep(m))
    ensures NoneOutranked(Take(s, m)) <==> NobodyAbove(s, m)
  {
    TakeSize(s, m);
    TakenHolder(s, m);
    hide Books, Take;
    var r := Take(s, m);
    assert r.mutexes[m].holder == HeldBy(s.current);
    assert forall t :: Prio(r.p, t) == Prio(s.p, t);
    hide Prio;
    if !NobodyAbove(s, m) {
      var t :| t in s.mutexes[m].waiting && Prio(s.p, t) > Prio(s.p, s.current);
      assert t in r.mutexes[m].waiting;
    }
  }

  // A time-out that lowers a holder changes no other priority.
  lemma GiveUpPrio(s: System, m: nat)
    requires Books(s) && m < |s.mutexes|
    ensures var r, x := GiveUp(s, m), s.mutexes[m];
            && r.mutexes == s.mutexes
            && (forall t :: x.holder != HeldBy(t) ==> Prio(r.p, t) == Prio(s.p, t))
            && (x.holder.HeldBy? ==>
                  Prio(r.p, x.holder.t) == if s.current in s.noted && Held(s.p, x.holder.t) == 1 then Level(s, m)
                                           else Prio(s.p, x.holder.t))
  {
    hide Books, HighestWaiting;
  }

  lemma LevelNotAbove(s: System, m: nat)
    requires Books(s) && NoneOutranked(s) && m < |s.mutexes| && s.mutexes[m].holder.HeldBy?
    ensures Level(s, m) <= Prio(s.p, s.mutexes[m].holder.t)
  {
    LevelIs(s, m);
    HolderCounted(s, m);
    hide Level;
    if s.mutexes[m].waiting != [] {
      assert s.mutexes[m].waiting[0] in s.mutexes[m].waiting;
    }
  }

  lemma LevelCoversIff(s: System, m: nat)
    requires Books(s) && m < |s.mutexes| && s.mutexes[m].holder.HeldBy?
    ensures var x, h := s.mutexes[m], s.mutexes[m].holder.t;
            (exists t :: t in x.waiting && t != h && Prio(s.p, t) > Level(s, m))
            <==> exists t :: t in x.waiting && t != h
                             && Prio(s.p, t) > Prio(s.p, x.waiting[0]) && Prio(s.p, t) > Base(s.p, h)
  {
    LevelIs(s, m);
    hide Books, Level, Prio, Base;
  }

  // Only the tasks that wait for this mutex can outrank its holder when it is lowered.
  lemma LoweredIff(s: System, r: System, m: nat, level: nat)
    requires NoneOutranked(s) && m < |s.mutexes| && s.mutexes[m].holder.HeldBy? && r.mutexes == s.mutexes
    requires forall i :: 0 <= i < |s.mutexes| && s.mutexes[i].holder == s.mutexes[m].holder ==> i == m
    requires var h := s.mutexes[m].holder.t;
             Prio(r.p, h) == level <= Prio(s.p, h) && forall t :: t != h ==> Prio(r.p, t) == Prio(s.p, t)
    ensures NoneOutranked(r) <==>
              !exists t :: t in s.mutexes[m].waiting && t != s.mutexes[m].holder.t && Prio(s.p, t) > level
  {
    hide Prio;
    if t :| t in s.mutexes[m].waiting && t != s.mutexes[m].holder.t && Prio(s.p, t) > level {
      assert t in r.mutexes[m].waiting;
    } else {
      forall i, t | 0 <= i < |r.mutexes| && r.mutexes[i].holder.HeldBy? && t in r.mutexes[i].waiting
        ensures Prio(r.p, t) <= Prio(r.p, r.mutexes[i].holder.t)
      {
        assert Prio(s.p, t) <= Prio(s.p, s.mutexes[i].holder.t);
      }
    }
  }

  lemma GiveUpOutranksIff(s: System, m: nat)
    requires m < |s.mutexes| && Books(s) && NoneOutranked(s) && Allowed(s, GiveUpStep(m))
    ensures NoneOutranked(GiveUp(s, m)) <==> !Undercuts(s, m)
  {
    GiveUpPrio(s, m);
    var r, x := GiveUp(s, m), s.mutexes[m];
    if x.holder.HeldBy? && s.current in s.noted && Held(s.p, x.holder.t) == 1 {
      var h := x.holder.t;
      HolderCounted(s, m);
      LevelNotAbove(s, m);
      LevelCoversIff(s, m);
      HoldsOnly(s, h, m);
      hide Books, GiveUp, Level, Prio, Base, NoneOutranked;
      LoweredIff(s, r, m, Level(s, m));
    } else {
      SamePrio(s, r);
    }
  }

  lemma SamePrio(s: System, r: System)
    requires NoneOutranked(s) && r.mutexes == s.mutexes && forall t :: Prio(r.p, t) == Prio(s.p, t)
    ensures NoneOutranked(r)
  {
    hide Prio;
  }

  // The giver, which waits for nothing, keeps its priority if it still holds something.
  lemma GivenNone(s: System, r: System, m: nat, h: Task)
    requires NoneOutranked(s) && m < |s.mutexes| == |r.mutexes| && r.mutexes[m].holder.NoTask?
    requires forall i :: 0 <= i < |s.mutexes| && i != m ==> r.mutexes[i] == s.mutexes[i] && h !in s.mutexes[i].waiting
    requires forall t :: t != h ==> Prio(r.p, t) == Prio(s.p, t)
    requires Prio(r.p, h) == Prio(s.p, h)
             || forall i :: 0 <= i < |s.mutexes| && i != m ==> s.mutexes[i].holder != HeldBy(h)
    ensures NoneOutranked(r)
  {
    hide Prio;
    forall i, t | 0 <= i < |r.mutexes| && r.mutexes[i].holder.HeldBy? && t in r.mutexes[i].waiting
      ensures Prio(r.p, t) <= Prio(r.p, r.mutexes[i].holder.t)
    {
      assert i != m && t in s.mutexes[i].waiting;
    }
  }

  lemma GiveOutranksNone(s: System, m: nat)
    requires m < |s.mutexes| && Books(s) && NoneOutranked(s) && Allowed(s, GiveStep(m))
    ensures NoneOutranked(Give(s, m))
  {
    var h := s.current;
    HolderCounted(s, m);
    ReadyRuns(s);
    if s.p.held[h] == 1 {
      HoldsOnly(s, h, m);
    }
    hide Give, Disinherit, Books, Prio, NoneOutranked;
    GivenFields(s.p, h);
    GiveSize(s, m);
    GivenNone(s, Give(s, m), m, h);
  }

  lemma ExpireOutranksNone(s: System, m: nat, t: Task)
    requires Books(s) && NoneOutranked(s) && m < |s.mutexes|
    ensures NoneOutranked(Expire(s, m, t))
  {
    ExpireSize(s, m, t);
    assert Listed(s.mutexes[m], s);
    WithoutNoDup(s.mutexes[m].waiting, t);
    hide Books, Expire, NoDup, Prio;
  }

  lemma OtherOutranksNone(s: System, st: Step)
    requires NoneOutranked(s) && (st.SleepStep? || st.WakeStep? || st.RunStep? || st.RetryStep?)
    ensures NoneOutranked(Apply(s, st))
  {
    hide Prio;
  }

  // The exact condition, for a step of any kind.
  lemma OutranksIff(s: System, st: Step)
    requires Books(s) && NoneOutranked(s) && Allowed(s, st)
    ensures NoneOutranked(Apply(s, st)) <==> !Inverts(s, st)
  {
    hide Books, NoneOutranked, Take, Block, Retry, GiveUp, Give, Expire, WaitsSomewhere, Chained, Undercuts;
    hide NobodyAbove, Runs;
    match st
    case TakeStep(m) => TakeOutranksIff(s, m);
    case BlockStep(m) =>
      BooksReady(s);
      BlockOutranksIff(s, m);
    case GiveUpStep(m) => GiveUpOutranksIff(s, m);
    case GiveStep(m) => GiveOutranksNone(s, m);
    case ExpireStep(m, t) => ExpireOutranksNone(s, m, t);
    case _ => OtherOutranksNone(s, st);
  }

  lemma BooksReady(s: System)
    requires Books(s) && s.current in s.ready
    ensures Runs(s)
  {
    ReadyRuns(s);
  }

  // ----- runs ------------------------------------------------------------------------------------

  lemma StartedBooks(base: map<Task, nat>, count: nat, current: Task)
    requires current in base && forall t :: t in base ==> base[t] < StateLists.configMAX_PRIORITIES
    ensures Books(Started(base, count, current)) && NoneOutranked(Started(base, count, current))
  {
    StartedInv(base, count, current);
  }

  predicate NoneInverts(s: System, sts: seq<Step>)
    decreases |sts|
  {
    sts == [] || (!Inverts(s, sts[0]) && NoneInverts(Apply(s, sts[0]), sts[1..]))
  }

  lemma {:induction false} RunInvertsExactly(s: System, sts: seq<Step>)
    requires Books(s) && NoneOutranked(s) && AllowedSteps(s, sts)
    ensures NeverInverts(s, sts) <==> NoneInverts(s, sts)
    decreases |sts|
  {
    hide Books, NoneOutranked, NoInversion, Allowed, Apply, Inverts;
    BooksInversion(s);
    if sts != [] {
      OutranksIff(s, sts[0]);
      StepBooks(s, sts[0]);
      BooksInversion(Apply(s, sts[0]));
      if Inverts(s, sts[0]) {
        assert !NeverInverts(Apply(s, sts[0]), sts[1..]);
      } else {
        RunInvertsExactly(Apply(s, sts[0]), sts[1..]);
      }
    }
  }

  // Over every run from the start, whatever the tasks hold when they block: no holder is ever outranked
  // exactly if no mutex is taken below a task that waits for it, no task blocks on a mutex whose holder
  // waits for a lower one, and no time-out lowers a holder below a task that waits behind the first.
  lemma NeverOutranked(base: map<Task, nat>, count: nat, current: Task, sts: seq<Step>)
    requires current in base && forall t :: t in base ==> base[t] < StateLists.configMAX_PRIORITIES
    requires AllowedSteps(Started(base, count, current), sts)
    ensures NeverInverts(Started(base, count, current), sts) <==> NoneInverts(Started(base, count, current), sts)
  {
    hide Books, NoneOutranked, AllowedSteps, NeverInverts, NoneInverts;
    StartedBooks(base, count, current);
    RunInvertsExactly(Started(base, count, current), sts);
  }
}
