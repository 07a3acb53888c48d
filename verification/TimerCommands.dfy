/** What the commands of a timer achieve: a stop ends its callbacks, a new period replaces the old one, a
    timer is active exactly while it is in a list; and processing catches up in finitely many steps. */
module TimerCommands {
  import opened Ticks
  import opened ListSpec
  import opened TimerModel
  import opened TimerRun
  import opened TimerLife

  // ----- timers that a step leaves alone -----------------------------------------------------------

  predicate Active(s: Timers, t: Timer) {
    t in s.active && s.active[t]
  }

  // Timer t is in a list, is active and has been called as before.
  predicate Left(s: Timers, r: Timers, t: Timer) {
    && (Listed(s, t) <==> Listed(r, t)) && (Active(s, t) <==> Active(r, t))
    && ValueOf(r.calls, t) == ValueOf(s.calls, t)
  }

  lemma LeftTwice(s: Timers, r: Timers, q: Timers, t: Timer)
    requires Left(s, r, t) && Left(r, q, t)
    ensures Left(s, q, t)
  {
  }

  lemma InsertLeft(s: Timers, u: Timer, next: nat, d: Outcome, t: Timer)
    requires u != t
    ensures Left(s, Insert(s, u, next, d), t)
  {
  }

  lemma CallLeft(s: Timers, u: Timer, t: Timer)
    requires u != t
    ensures Left(s, Call(s, u), t)
  {
  }

  lemma ReloadLeft(s: Timers, u: Timer, expired: nat, now: nat, t: Timer)
    requires Known(s, u) && expired < W && now < W && u != t
    ensures Left(s, Reload(s, u, expired, now), t)
  {
    ReloadSame(s, u, expired, now);
    hide Reload;
    assert Untouched(s, Reload(s, u, expired, now), t);
  }

  lemma ExpiredLeft(s: Timers, u: Timer, expired: nat, now: nat, t: Timer)
    requires expired < W && now < W && Known(s, u) && u != t
    ensures Left(s, Expired(s, u, expired, now), t)
  {
    var r := if s.reload[u] then Reload(s, u, expired, now) else s.(active := s.active[u := false]);
    if s.reload[u] {
      ReloadLeft(s, u, expired, now, t);
    }
    hide Reload;
    CallLeft(r, u, t);
    assert Left(s, r, t);
    LeftTwice(s, r, Call(r, u), t);
  }

  lemma HeadLeft(s: Timers, now: nat, t: Timer)
    requires HeadKnown(s) && now < W && t != s.current[0]
    ensures Left(s, ProcessHead(s, now), t)
  {
    var u, r := s.current[0], s.(current := s.current[1..]);
    HeadApart(s, t);
    assert Left(s, r, t);
    hide Left, Expired;
    ExpiredLeft(r, u, ValueOf(s.value, u), now, t);
    LeftTwice(s, r, Expired(r, u, ValueOf(s.value, u), now), t);
  }

  lemma WithoutOther(q: seq<Timer>, u: Timer, t: Timer)
    requires u != t
    ensures t in Without(q, u) <==> t in q
  {
    if u in q {
      RemovedHas(q, Find(q, u), t);
    }
  }

  lemma LeaveLeft(s: Timers, u: Timer, t: Timer)
    requires u != t
    ensures Left(s, Leave(s, u), t)
  {
    WithoutOther(s.current, u, t);
    WithoutOther(s.overflow, u, t);
  }

  lemma ActivateLeft(s: Timers, u: Timer, first: nat, t: Timer)
    requires u != t
    ensures Left(s, Activate(s, u, first), t)
  {
  }

  // ----- a timer at rest ---------------------------------------------------------------------------

  // t is in no list and not active, and has been called c times.
  predicate Rests(s: Timers, t: Timer, c: nat) {
    !Listed(s, t) && !Active(s, t) && ValueOf(s.calls, t) == c
  }

  lemma LeftRests(s: Timers, r: Timers, t: Timer, c: nat)
    requires Left(s, r, t) && Rests(s, t, c)
    ensures Rests(r, t, c)
  {
  }

  lemma HeadRests(s: Timers, now: nat, t: Timer, c: nat)
    requires HeadKnown(s) && now < W && Rests(s, t, c)
    ensures Rests(ProcessHead(s, now), t, c)
  {
    assert s.current[0] in s.current;
    HeadLeft(s, now, t);
    hide ProcessHead;
  }

  lemma {:induction false} DrainRests(s: Timers, t: Timer, c: nat)
    requires Rests(s, t, c)
    ensures Rests(DrainCurrent(s), t, c)
    decreases |s.current|
  {
    hide Rests, ProcessHead;
    if HeadKnown(s) {
      HeadRests(s, MAX_DELAY, t, c);
      if |ProcessHead(s, MAX_DELAY).current| < |s.current| {
        DrainRests(ProcessHead(s, MAX_DELAY), t, c);
      }
    }
  }

  lemma SampleRests(s: Timers, now: nat, t: Timer, c: nat)
    requires Rests(s, t, c)
    ensures Rests(Sample(s, now), t, c)
  {
    DrainRests(s, t, c);
    hide DrainCurrent;
  }

  lemma ProcessRests(s: Timers, now: nat, t: Timer, c: nat)
    requires Rests(s, t, c) && now < W
    ensures Rests(ProcessOrBlock(s, now), t, c)
  {
    hide Rests, Sample, ProcessHead;
    SampleRests(s, now, t, c);
    var r := Sample(s, now);
    if HeadKnown(r) {
      HeadRests(r, now, t, c);
    }
  }

  // ----- other timers' commands --------------------------------------------------------------------

  // What a command for timer u does once u has left its list and the time has been sampled.
  lemma StartLeft(s: Timers, u: Timer, command: nat, now: nat, t: Timer)
    requires u != t && now < W
    ensures Left(Sample(Leave(s, u), now), Start(s, u, command, now), t)
  {
    hide Sample, Leave, Activate, Insert, Expired, Decide, Left;
    var c, p, a := Wrap(command), ValueOf(s.period, u), Sample(Leave(s, u), now);
    var next, d := TickAdd(c, p), Decide(TickAdd(c, p), now, c, p);
    var b := Activate(a, u, command + p);
    var r := Insert(b, u, next, d);
    ActivateLeft(a, u, command + p, t);
    InsertLeft(b, u, next, d, t);
    LeftTwice(a, b, r, t);
    if d.Fire? && Known(r, u) && next < W {
      ExpiredLeft(r, u, next, now, t);
      LeftTwice(a, r, Expired(r, u, next, now), t);
    }
  }

  lemma PeriodLeft(s: Timers, u: Timer, period: nat, now: nat, t: Timer)
    requires u != t
    ensures Left(Sample(Leave(s, u), Wrap(now)), ChangePeriod(s, u, period, now), t)
  {
    hide Sample, Leave, Activate, Decide, Insert, Left;
    var n, a := Wrap(now), Sample(Leave(s, u), Wrap(now));
    var b := Activate(a, u, now + period);
    var c := b.(period := b.period[u := period]);
    var d := Decide(TickAdd(n, period), n, n, period);
    ActivateLeft(a, u, now + period, t);
    SetPeriodLeft(b, u, period, t);
    LeftTwice(a, b, c, t);
    InsertLeft(c, u, TickAdd(n, period), d, t);
    LeftTwice(a, c, Insert(c, u, TickAdd(n, period), d), t);
  }

  lemma SetPeriodLeft(s: Timers, u: Timer, period: nat, t: Timer)
    ensures Left(s, s.(period := s.period[u := period]), t)
  {
  }

  lemma StopLeft(s: Timers, u: Timer, now: nat, t: Timer)
    requires u != t
    ensures Left(Sample(Leave(s, u), now), Stop(s, u, now), t)
  {
    hide Sample, Leave;
  }

  lemma ModeLeft(s: Timers, u: Timer, mode: bool, t: Timer)
    ensures Left(s, SetReloadMode(s, u, mode), t)
  {
  }

  lemma PreparedRests(s: Timers, u: Timer, now: nat, t: Timer, c: nat)
    requires Rests(s, t, c) && u != t
    ensures Rests(Sample(Leave(s, u), now), t, c)
  {
    LeaveLeft(s, u, t);
    hide Left, Sample, Leave;
    LeftRests(s, Leave(s, u), t, c);
    SampleRests(Leave(s, u), now, t, c);
  }

  lemma StepRests(s: Timers, st: Step, t: Timer, c: nat)
    requires Can(s, st) && Rests(s, t, c) && !Concerns(st, t)
    ensures Rests(Next(s, st), t, c)
  {
    hide Rests, Left, ProcessOrBlock, Start, Stop, ChangePeriod, SetReloadMode, Wrap, Known, Sampled;
    match st
    case ProcessStep(n) =>
      WrapBelow(n);
      ProcessRests(s, Wrap(n), t, c);
    case StartStep(u, command, n) =>
      WrapBelow(n);
      PreparedRests(s, u, Wrap(n), t, c);
      StartLeft(s, u, command, Wrap(n), t);
      LeftRests(Sample(Leave(s, u), Wrap(n)), Next(s, st), t, c);
    case StopStep(u, n) =>
      PreparedRests(s, u, Wrap(n), t, c);
      StopLeft(s, u, Wrap(n), t);
      LeftRests(Sample(Leave(s, u), Wrap(n)), Next(s, st), t, c);
    case PeriodStep(u, period, n) =>
      PreparedRests(s, u, Wrap(n), t, c);
      PeriodLeft(s, u, period, n, t);
      LeftRests(Sample(Leave(s, u), Wrap(n)), Next(s, st), t, c);
    case ModeStep(u, mode) =>
      ModeLeft(s, u, mode, t);
      LeftRests(s, Next(s, st), t, c);
  }

  lemma {:induction false} RunRests(s: Timers, sts: seq<Step>, t: Timer, c: nat)
    requires CanSteps(s, sts) && LeftAlone(sts, t) && Rests(s, t, c)
    ensures Rests(Steps(s, sts), t, c)
    decreases |sts|
  {
    hide Next, Can, Rests, Concerns;
    if sts != [] {
      StepRests(s, sts[0], t, c);
      RunRests(Next(s, sts[0]), sts[1..], t, c);
    }
  }

  // ----- stopping ----------------------------------------------------------------------------------

  // A stop command takes the timer out of its list, makes it inactive and calls it no more.
  lemma StopOutcome(s: Timers, t: Timer, n: nat)
    requires Inv(s, Sampled(s)) && Can(s, StopStep(t, n))
    ensures var r := Next(s, StopStep(t, n));
            && !Listed(r, t) && t in r.active && !r.active[t] && ValueOf(r.calls, t) == ValueOf(s.calls, t)
  {
    var l := Leave(s, t);
    LeaveKeeps(s, t, Sampled(s));
    assert l.calls == s.calls;
    UnlistedSample(l, Wrap(n), t);
    hide Inv, Sample, Leave, Wrap;
  }

  lemma UnlistedSample(s: Timers, now: nat, t: Timer)
    requires !Listed(s, t)
    ensures !Listed(Sample(s, now), t) && ValueOf(Sample(s, now).calls, t) == ValueOf(s.calls, t)
  {
    DrainSame(s);
    assert Untouched(s, DrainCurrent(s), t);
    hide DrainCurrent;
  }

  // A stopped timer has no further callback, and stays inactive and out of the lists, in every later run in
  // which no command concerns it, however the other timers run and the tick count wraps.
  lemma StoppedForGood(s: Timers, t: Timer, n: nat, sts: seq<Step>)
    requires Inv(s, Sampled(s)) && Can(s, StopStep(t, n)) && LeftAlone(sts, t)
    requires CanSteps(Next(s, StopStep(t, n)), sts)
    ensures var e := Steps(Next(s, StopStep(t, n)), sts);
            !Listed(e, t) && !Active(e, t) && ValueOf(e.calls, t) == ValueOf(s.calls, t)
  {
    StopOutcome(s, t, n);
    var c := ValueOf(s.calls, t);
    assert Rests(Next(s, StopStep(t, n)), t, c);
    hide Inv, Next, Can, CanSteps, Steps, LeftAlone;
    RunRests(Next(s, StopStep(t, n)), sts, t, c);
  }

  // ----- a new period, and a new mode --------------------------------------------------------------

  // The timer runs, with the new period and its old mode.
  lemma PeriodOutcome(s: Timers, t: Timer, period: nat, n: nat)
    requires Inv(s, Sampled(s)) && Can(s, PeriodStep(t, period, n))
    ensures var r := Next(s, PeriodStep(t, period, n));
            && t in s.reload && Listed(r, t) && Active(r, t) && Inv(r, Sampled(r)) && Sampled(r) == n
            && Lives(r, t, n + period, period, s.reload[t], n)
  {
    ChangePeriodKeeps(s, t, period, n);
    hide Inv, Sample, Leave, Wrap, Decide, InsertByValue, TickAdd, Listed, Sampled;
    Prepared(s, t, n);
  }

  // After a change of period that no other command for the timer follows, the callbacks count whole new
  // periods from the tick at which the command was processed; a one-shot timer has one, after one period.
  lemma NewPeriodExact(s: Timers, t: Timer, period: nat, n: nat, sts: seq<Step>)
    requires Inv(s, Sampled(s)) && Can(s, PeriodStep(t, period, n)) && LeftAlone(sts, t)
    requires CanSteps(Next(s, PeriodStep(t, period, n)), sts)
    requires var e := Steps(Next(s, PeriodStep(t, period, n)), sts);
             e.current == [] || ValueOf(e.value, e.current[0]) > e.last
    ensures var e := Steps(Next(s, PeriodStep(t, period, n)), sts);
            && period > 0 && t in s.reload && t in e.calls && n <= Sampled(e)
            && e.calls[t] == if s.reload[t] then (Sampled(e) - n) / period
                             else if n + period <= Sampled(e) then 1 else 0
  {
    var st := PeriodStep(t, period, n);
    hide Inv, Next, Lives, CanSteps, Steps, LeftAlone, Sampled, Known, Active, Listed;
    PeriodOutcome(s, t, period, n);
    RunKeeps(Next(s, st), sts);
    RunLives(Next(s, st), sts, t, n + period, period, s.reload[t]);
    LivesCount(Steps(Next(s, st), sts), t, n, period, s.reload[t]);
  }

  // A new mode is the mode of the next start, and of the next expiry of a timer that runs.
  lemma ModeOutcome(s: Timers, t: Timer, mode: bool)
    requires Inv(s, Sampled(s)) && Known(s, t)
    ensures var r := Next(s, ModeStep(t, mode));
            && Known(r, t) && r.reload[t] == mode && Sampled(r) == Sampled(s)
            && Left(s, r, t) && (Listed(s, t) ==> Expiry(r, t) == Expiry(s, t) && r.period[t] == s.period[t])
  {
  }

  // ----- active timers -----------------------------------------------------------------------------

  // An active timer is in a list.
  predicate Truthful(s: Timers, t: Timer) {
    Active(s, t) ==> Listed(s, t)
  }

  lemma LeftTruthful(s: Timers, r: Timers, t: Timer)
    requires Left(s, r, t) && Truthful(s, t)
    ensures Truthful(r, t)
  {
  }

  lemma ExpiredTruthful(s: Timers, t: Timer, expired: nat, now: nat)
    requires expired < W && now < W && Known(s, t)
    ensures Truthful(Expired(s, t, expired, now), t)
  {
    if s.reload[t] {
      ReloadLists(s, t, expired, now);
    }
    hide Reload;
  }

  lemma HeadTruthful(s: Timers, now: nat, t: Timer)
    requires HeadKnown(s) && now < W && Truthful(s, t)
    ensures Truthful(ProcessHead(s, now), t)
  {
    hide Truthful, Left, Expired;
    if t == s.current[0] {
      ExpiredTruthful(s.(current := s.current[1..]), t, ValueOf(s.value, t), now);
    } else {
      HeadLeft(s, now, t);
      LeftTruthful(s, ProcessHead(s, now), t);
    }
  }

  lemma {:induction false} DrainTruthful(s: Timers, t: Timer)
    requires Truthful(s, t)
    ensures Truthful(DrainCurrent(s), t)
    decreases |s.current|
  {
    hide Truthful, ProcessHead;
    if HeadKnown(s) {
      HeadTruthful(s, MAX_DELAY, t);
      if |ProcessHead(s, MAX_DELAY).current| < |s.current| {
        DrainTruthful(ProcessHead(s, MAX_DELAY), t);
      }
    }
  }

  lemma SampleTruthful(s: Timers, now: nat, t: Timer)
    requires Truthful(s, t)
    ensures Truthful(Sample(s, now), t)
  {
    DrainTruthful(s, t);
    hide DrainCurrent;
  }

  lemma ProcessTruthful(s: Timers, now: nat, t: Timer)
    requires Truthful(s, t) && now < W
    ensures Truthful(ProcessOrBlock(s, now), t)
  {
    hide Truthful, Sample, ProcessHead;
    SampleTruthful(s, now, t);
    var r := Sample(s, now);
    if HeadKnown(r) {
      HeadTruthful(r, now, t);
    }
  }

  lemma PreparedTruthful(s: Timers, u: Timer, now: nat, t: Timer)
    requires Truthful(s, t) && u != t
    ensures Truthful(Sample(Leave(s, u), now), t)
  {
    LeaveLeft(s, u, t);
    hide Left, Sample, Leave, Truthful;
    LeftTruthful(s, Leave(s, u), t);
    SampleTruthful(Leave(s, u), now, t);
  }

  // The commands for t itself.
  lemma StartTruthful(s: Timers, t: Timer, command: nat, n: nat)
    requires Inv(s, Sampled(s)) && Can(s, StartStep(t, command, n))
    ensures Truthful(Next(s, StartStep(t, command, n)), t)
  {
    hide Inv, Sample, Leave, Wrap, Decide, Expired, TickAdd, Listed, Sampled, Insert, Truthful;
    Prepared(s, t, n);
    var c, p, now := Wrap(command), s.period[t], Wrap(n);
    var a := Sample(Leave(s, t), now);
    Activated(a, t, command + p);
    var b := Activate(a, t, command + p);
    WrapBelow(n);
    WrapBelow(command);
    TickAddBelow(c, p);
    var d := Decide(TickAdd(c, p), now, c, p);
    InsertLists(b, t, TickAdd(c, p), d);
    var r := Insert(b, t, TickAdd(c, p), d);
    InsertKnown(b, t, TickAdd(c, p), d);
    if d.Fire? {
      ExpiredTruthful(r, t, TickAdd(c, p), now);
    } else {
      ListedTruthful(r, t);
    }
  }

  lemma TickAddBelow(a: nat, b: nat)
    requires a < W && b < W
    ensures TickAdd(a, b) < W
  {
  }

  lemma ListedTruthful(s: Timers, t: Timer)
    requires Listed(s, t)
    ensures Truthful(s, t)
  {
  }

  lemma InsertKnown(s: Timers, t: Timer, next: nat, d: Outcome)
    ensures Known(Insert(s, t, next, d), t) == Known(s, t)
  {
  }

  lemma StepTruthful(s: Timers, st: Step, t: Timer)
    requires Inv(s, Sampled(s)) && Can(s, st) && Truthful(s, t)
    ensures Truthful(Next(s, st), t)
  {
    hide Inv, Left, Truthful, ProcessOrBlock, Start, Stop, ChangePeriod, SetReloadMode, Wrap, Known, Sampled;
    match st
    case ProcessStep(n) =>
      WrapBelow(n);
      ProcessTruthful(s, Wrap(n), t);
    case StartStep(u, command, n) =>
      WrapBelow(n);
      if u == t {
        StartTruthful(s, t, command, n);
      } else {
        PreparedTruthful(s, u, Wrap(n), t);
        StartLeft(s, u, command, Wrap(n), t);
        LeftTruthful(Sample(Leave(s, u), Wrap(n)), Next(s, st), t);
      }
    case StopStep(u, n) =>
      if u == t {
        StopOutcome(s, t, n);
        InactiveTruthful(Next(s, st), t);
      } else {
        PreparedTruthful(s, u, Wrap(n), t);
        StopLeft(s, u, Wrap(n), t);
        LeftTruthful(Sample(Leave(s, u), Wrap(n)), Next(s, st), t);
      }
    case PeriodStep(u, period, n) =>
      if u == t {
        PeriodOutcome(s, t, period, n);
        ListedTruthful(Next(s, st), t);
      } else {
        PreparedTruthful(s, u, Wrap(n), t);
        PeriodLeft(s, u, period, n, t);
        LeftTruthful(Sample(Leave(s, u), Wrap(n)), Next(s, st), t);
      }
    case ModeStep(u, mode) =>
      ModeLeft(s, u, mode, t);
      LeftTruthful(s, Next(s, st), t);
  }

  lemma InactiveTruthful(s: Timers, t: Timer)
    requires t in s.active && !s.active[t]
    ensures Truthful(s, t)
  {
  }

  lemma {:induction false} RunTruthful(s: Timers, sts: seq<Step>, t: Timer)
    requires Inv(s, Sampled(s)) && CanSteps(s, sts) && Truthful(s, t)
    ensures Truthful(Steps(s, sts), t)
    decreases |sts|
  {
    hide Inv, Next, Can, Truthful, Sampled;
    if sts != [] {
      StepKeeps(s, sts[0]);
      StepTruthful(s, sts[0], t);
      RunTruthful(Next(s, sts[0]), sts[1..], t);
    }
  }

  // In every reachable state the flag that xTimerIsTimerActive reads is set exactly for the timers in a
  // list: in particular it is cleared when a one-shot timer expires.
  lemma ActiveIffListed(period: map<Timer, nat>, reload: map<Timer, bool>, sts: seq<Step>, t: Timer)
    requires CanSteps(Started(period, reload), sts)
    ensures var s := Steps(Started(period, reload), sts); Active(s, t) <==> Listed(s, t)
  {
    var s0 := Started(period, reload);
    assert Inv(s0, Sampled(s0)) && Truthful(s0, t);
    hide CanSteps, Steps, Nth, Started, ListOk, Apart;
    RunKeeps(s0, sts);
    RunTruthful(s0, sts, t);
  }

  // ----- catching up -------------------------------------------------------------------------------

  // The timers in the current list whose time has come.
  function DueNow(s: Timers, now: nat): set<Timer> {
    set t | t in s.current && ValueOf(s.value, t) <= now
  }

  // k passes of the loop at one and the same time.
  function Passes(s: Timers, now: nat, k: nat): Timers
    requires now < W
    decreases k
  {
    if k == 0 then s else Passes(ProcessOrBlock(s, now), now, k - 1)
  }

  ghost predicate Ready(s: Timers, n: nat) {
    Inv(s, n) && Sampled(s) == n && s.last < W && s.last == Wrap(n)
  }

  predicate HeadWaits(s: Timers) {
    s.current == [] || ValueOf(s.value, s.current[0]) > s.last
  }

  lemma {:induction false} ReloadValues(s: Timers, t: Timer, expired: nat, now: nat, u: Timer)
    requires Known(s, t) && expired < W && now < W && u != t
    ensures ValueOf(Reload(s, t, expired, now).value, u) == ValueOf(s.value, u)
    decreases TickSub(now, expired)
  {
    var next := TickAdd(expired, s.period[t]);
    var d := Decide(next, now, expired, s.period[t]);
    FiresIffElapsed(expired, s.period[t], now);
    hide Decide;
    if d.Fire? {
      ReloadValues(Call(Insert(s, t, next, d), t), t, next, now, u);
    }
  }

  lemma ExpiredValues(s: Timers, t: Timer, expired: nat, now: nat, u: Timer)
    requires Known(s, t) && expired < W && now < W && u != t
    ensures ValueOf(Expired(s, t, expired, now).value, u) == ValueOf(s.value, u)
  {
    if s.reload[t] {
      ReloadValues(s, t, expired, now, u);
    }
    hide Reload;
  }

  // Processing the head leaves every other timer of the list where it was, and the head, if it comes back,
  // is not due.
  lemma FewerDue(s: Timers, now: nat, n: nat)
    requires Inv(s, n) && n == s.epoch * W + now && now < W && s.current != []
    requires ValueOf(s.value, s.current[0]) <= now
    ensures HeadKnown(s) && DueNow(ProcessHead(s, now), now) <= DueNow(s, now) - {s.current[0]}
    ensures s.current[0] in DueNow(s, now)
  {
    HeadLeaves(s, n);
    ProcessHeadKeeps(s, now, n);
    var t, r, q := s.current[0], s.(current := s.current[1..]), ProcessHead(s, now);
    EpochOf(s.epoch, s.value[t]);
    ExpiredKeeps(r, t, s.epoch * W + s.value[t], now, n);
    forall u | u in DueNow(q, now) ensures u in DueNow(s, now) - {t} {
      if u != t {
        ExpiredValues(r, t, s.value[t], now, u);
      }
    }
    assert t in s.current;
  }

  // A pass takes the head if it is due, and does not switch the lists again.
  lemma PassTakesHead(s: Timers, n: nat)
    requires Ready(s, n)
    ensures Wrap(n) < W && Ready(ProcessOrBlock(s, Wrap(n)), n)
    ensures if HeadWaits(s) then ProcessOrBlock(s, Wrap(n)) == s
            else HeadKnown(s) && ProcessOrBlock(s, Wrap(n)) == ProcessHead(s, Wrap(n))
  {
    WrapBelow(n);
    ProcessOrBlockKeeps(s, n);
    if !HeadWaits(s) {
      HeadLeaves(s, n);
    }
    hide Inv, ProcessHead, Known, Wrap;
    assert s.(last := s.last) == s;
  }

  // As many passes as timers are due leave none of them due.
  lemma {:induction false} PassesCatchUp(s: Timers, n: nat, k: nat)
    requires Ready(s, n) && Wrap(n) < W && |DueNow(s, Wrap(n))| <= k
    ensures Ready(Passes(s, Wrap(n), k), n) && HeadWaits(Passes(s, Wrap(n), k))
    decreases k
  {
    var r := ProcessOrBlock(s, Wrap(n));
    PassTakesHead(s, n);
    if HeadWaits(s) {
      PassesStay(s, n, k);
    } else {
      HeadIsDue(s, n);
      FewerDue(s, Wrap(n), n);
      Smaller(DueNow(r, Wrap(n)), DueNow(s, Wrap(n)), s.current[0]);
      hide Ready, HeadWaits, ProcessOrBlock, DueNow, Wrap, ProcessHead, Known;
      PassesCatchUp(r, n, k - 1);
    }
  }

  lemma HeadIsDue(s: Timers, n: nat)
    requires Ready(s, n) && !HeadWaits(s)
    ensures Inv(s, n) && n == s.epoch * W + Wrap(n) && s.current != [] && ValueOf(s.value, s.current[0]) <= Wrap(n)
  {
  }

  lemma Smaller(a: set<Timer>, b: set<Timer>, t: Timer)
    requires a <= b - {t} && t in b
    ensures |a| < |b|
  {
    SubsetSize(a, b - {t});
  }

  lemma {:induction false} SubsetSize(a: set<Timer>, b: set<Timer>)
    requires a <= b
    ensures |a| <= |b|
    decreases |a|
  {
    if a != {} {
      var x :| x in a;
      SubsetSize(a - {x}, b - {x});
    }
  }

  lemma {:induction false} PassesStay(s: Timers, n: nat, k: nat)
    requires Ready(s, n) && Wrap(n) < W && HeadWaits(s)
    ensures Passes(s, Wrap(n), k) == s
    decreases k
  {
    PassTakesHead(s, n);
    hide Ready, HeadWaits, ProcessOrBlock, Wrap;
    if k > 0 {
      PassesStay(s, n, k - 1);
    }
  }

  // From any state of the timer task: once it has sampled the time n, at most as many passes of its loop as
  // there are due timers bring it to the point at which it blocks. They are steps of a run.
  lemma CatchesUp(s: Timers, n: nat)
    requires Inv(s, Sampled(s)) && Can(s, ProcessStep(n))
    ensures var r := Next(s, ProcessStep(n)); var k := |DueNow(r, Wrap(n))|;
            && Wrap(n) < W && Inv(Passes(r, Wrap(n), k), n) && Sampled(Passes(r, Wrap(n), k)) == n
            && HeadWaits(Passes(r, Wrap(n), k))
  {
    WrapBelow(n);
    ProcessOrBlockKeeps(s, n);
    hide Inv, ProcessOrBlock, Wrap, Passes, HeadWaits, DueNow;
    var r := Next(s, ProcessStep(n));
    PassesCatchUp(r, n, |DueNow(r, Wrap(n))|);
  }

  lemma {:induction false} PassesLive(s: Timers, n: nat, k: nat, t: Timer, x: nat, p: nat, auto: bool)
    requires Ready(s, n) && Wrap(n) < W && Lives(s, t, x, p, auto, n)
    ensures Lives(Passes(s, Wrap(n), k), t, x, p, auto, n)
    decreases k
  {
    hide Inv, ProcessOrBlock, Lives, Wrap;
    if k > 0 {
      PassTakesHead(s, n);
      ProcessLives(s, t, x, p, auto, n);
      PassesLive(ProcessOrBlock(s, Wrap(n)), n, k - 1, t, x, p, auto);
    }
  }

  // So a timer that was started and left alone since has, when the timer task blocks again after waking at
  // tick n, been called exactly once for each whole period; it does block again, after finitely many passes.
  lemma CalledInTime(s: Timers, t: Timer, command: nat, m: nat, sts: seq<Step>, n: nat)
    requires Inv(s, Sampled(s)) && Can(s, StartStep(t, command, m)) && LeftAlone(sts, t)
    requires CanSteps(Next(s, StartStep(t, command, m)), sts)
    requires Can(Steps(Next(s, StartStep(t, command, m)), sts), ProcessStep(n))
    ensures var r := Next(Steps(Next(s, StartStep(t, command, m)), sts), ProcessStep(n));
            var k := |DueNow(r, Wrap(n))|;
            && Wrap(n) < W
            && var e := Passes(r, Wrap(n), k);
               && HeadWaits(e) && t in s.period && s.period[t] > 0 && t in s.reload && t in e.calls && command <= n
               && e.calls[t] == if s.reload[t] then (n - command) / s.period[t]
                                else if command + s.period[t] <= n then 1 else 0
  {
    var st := StartStep(t, command, m);
    hide Inv, Next, Can, Lives, CanSteps, Steps, LeftAlone, Sampled, Known, Passes, DueNow, HeadWaits, Wrap;
    Begins(s, t, command, m);
    var a, x := Next(s, st), command + s.period[t];
    RunKeeps(a, sts);
    RunLives(a, sts, t, x, s.period[t], s.reload[t]);
    var b := Steps(a, sts);
    var r := Next(b, ProcessStep(n));
    NoConcern(n, t);
    StepLives(b, ProcessStep(n), t, x, s.period[t], s.reload[t]);
    StepTime(b, ProcessStep(n));
    CatchesUp(b, n);
    SampledReady(b, n);
    PassesLive(r, n, |DueNow(r, Wrap(n))|, t, x, s.period[t], s.reload[t]);
    WaitsIs(Passes(r, Wrap(n), |DueNow(r, Wrap(n))|));
    LivesCount(Passes(r, Wrap(n), |DueNow(r, Wrap(n))|), t, command, s.period[t], s.reload[t]);
  }

  lemma NoConcern(n: nat, t: Timer)
    ensures !Concerns(ProcessStep(n), t)
  {
  }

  lemma SampledReady(s: Timers, n: nat)
    requires Inv(s, Sampled(s)) && Can(s, ProcessStep(n))
    ensures Ready(Next(s, ProcessStep(n)), n)
  {
    ProcessOrBlockKeeps(s, n);
    InvLast(Next(s, ProcessStep(n)), n);
    hide Inv, ProcessOrBlock, Wrap;
  }

  lemma WaitsIs(s: Timers)
    requires HeadWaits(s)
    ensures s.current == [] || ValueOf(s.value, s.current[0]) > s.last
  {
  }
}
