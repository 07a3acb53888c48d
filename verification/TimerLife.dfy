/** A timer that is started and then left alone: how often its callback has run at any later time. */
module TimerLife {
  import opened Ticks
  import opened ListSpec
  import opened TimerModel
  import opened TimerRun

  // Timer t, first to expire at x, is running; or it is a one-shot timer that has had its one callback.
  // n is the unbounded time of the last sample.
  predicate Lives(s: Timers, t: Timer, x: nat, p: nat, auto: bool, n: nat) {
    && t in s.period && s.period[t] == p && t in s.reload && s.reload[t] == auto
    && t in s.first && s.first[t] == x && t in s.calls
    && if Listed(s, t) then !auto ==> s.calls[t] == 0 else !auto && s.calls[t] == 1 && x <= n
  }

  // Nothing that concerns t has changed.
  predicate Alike(s: Timers, r: Timers, t: Timer) {
    && (t in s.period ==> t in r.period && r.period[t] == s.period[t])
    && (t in s.reload ==> t in r.reload && r.reload[t] == s.reload[t])
    && (t in s.first ==> t in r.first && r.first[t] == s.first[t])
    && (t in s.calls ==> t in r.calls && r.calls[t] == s.calls[t])
    && (Listed(s, t) <==> Listed(r, t))
  }

  lemma AlikeLives(s: Timers, r: Timers, t: Timer, x: nat, p: nat, auto: bool, n: nat, m: nat)
    requires Lives(s, t, x, p, auto, n) && Alike(s, r, t) && n <= m
    ensures Lives(r, t, x, p, auto, m)
  {
    hide Listed;
  }

  lemma AlikeTwice(s: Timers, r: Timers, q: Timers, t: Timer)
    requires Alike(s, r, t) && Alike(r, q, t)
    ensures Alike(s, q, t)
  {
    hide Listed;
  }

  // ----- what concerns other timers --------------------------------------------------------------

  lemma InsertAlike(s: Timers, u: Timer, next: nat, d: Outcome, t: Timer)
    requires u != t
    ensures Alike(s, Insert(s, u, next, d), t)
  {
  }

  lemma CallAlike(s: Timers, u: Timer, t: Timer)
    requires u != t
    ensures Alike(s, Call(s, u), t)
  {
  }

  lemma {:induction false} ReloadAlike(s: Timers, u: Timer, expired: nat, now: nat, t: Timer)
    requires Known(s, u) && expired < W && now < W && u != t
    ensures Alike(s, Reload(s, u, expired, now), t)
    decreases TickSub(now, expired)
  {
    var next := TickAdd(expired, s.period[u]);
    var d := Decide(next, now, expired, s.period[u]);
    FiresIffElapsed(expired, s.period[u], now);
    var s1 := Insert(s, u, next, d);
    InsertAlike(s, u, next, d, t);
    CallAlike(s1, u, t);
    hide Alike, Decide;
    if d.Fire? {
      ReloadAlike(Call(s1, u), u, next, now, t);
      AlikeTwice(s, s1, Call(s1, u), t);
      AlikeTwice(s, Call(s1, u), Reload(Call(s1, u), u, next, now), t);
    }
  }

  lemma ExpiredAlike(s: Timers, u: Timer, expired: nat, now: nat, t: Timer)
    requires expired < W && now < W && Known(s, u) && u != t
    ensures Alike(s, Expired(s, u, expired, now), t)
  {
    var r := if s.reload[u] then Reload(s, u, expired, now) else s.(active := s.active[u := false]);
    if s.reload[u] {
      ReloadAlike(s, u, expired, now, t);
    }
    CallAlike(r, u, t);
    AlikeTwice(s, r, Call(r, u), t);
  }

  lemma LeaveAlike(s: Timers, u: Timer, n: nat, t: Timer)
    requires Inv(s, n) && u != t
    ensures Alike(s, Leave(s, u), t)
  {
    WithoutNoDup(s.current, u);
    WithoutNoDup(s.overflow, u);
  }

  lemma ActivateAlike(s: Timers, u: Timer, first: nat, t: Timer)
    requires u != t
    ensures Alike(s, Activate(s, u, first), t)
  {
  }

  // ----- processing and sampling -----------------------------------------------------------------

  // The head is t itself: reloaded, or done with its one callback.
  lemma HeadItself(s: Timers, now: nat, n: nat)
    requires Inv(s, n) && HeadKnown(s) && now < W
    ensures var t, r := s.current[0], ProcessHead(s, now);
            && t in s.calls && t in s.reload
            && if s.reload[t] then Listed(r, t) && r.period == s.period && r.reload == s.reload && r.first == s.first
               else !Listed(r, t) && r.calls == s.calls[t := s.calls[t] + 1]
                    && r.period == s.period && r.reload == s.reload && r.first == s.first
  {
    HeadLeaves(s, n);
    var t, r := s.current[0], s.(current := s.current[1..]);
    assert Listed(s, t);
    ScheduleParts(s, t, n);
    hide Inv, Nth;
    if s.reload[t] {
      ReloadLists(r, t, ValueOf(s.value, t), now);
      ReloadSame(r, t, ValueOf(s.value, t), now);
    }
  }

  lemma HeadOther(s: Timers, now: nat, t: Timer)
    requires HeadKnown(s) && now < W && t != s.current[0]
    ensures Alike(s, ProcessHead(s, now), t)
  {
    var u, r := s.current[0], s.(current := s.current[1..]);
    HeadApart(s, t);
    assert Alike(s, r, t);
    assert Known(r, u);
    hide Alike, Known;
    ExpiredAlike(r, u, ValueOf(s.value, u), now, t);
    AlikeTwice(s, r, Expired(r, u, ValueOf(s.value, u), now), t);
  }

  lemma FirstExpiry(s: Timers, t: Timer, n: nat)
    requires Inv(s, n) && t in s.current && t in s.calls && s.calls[t] == 0
    ensures t in s.first && s.first[t] == s.epoch * W + ValueOf(s.value, t)
  {
    assert Listed(s, t) && OnSchedule(s, t, n);
  }

  lemma ProcessHeadLives(s: Timers, now: nat, t: Timer, x: nat, p: nat, auto: bool, n: nat)
    requires Inv(s, n) && HeadKnown(s) && now < W && ValueOf(s.value, s.current[0]) <= now
    requires Lives(s, t, x, p, auto, n) && n <= s.epoch * W + now
    ensures Lives(ProcessHead(s, now), t, x, p, auto, s.epoch * W + now)
  {
    if t == s.current[0] {
      HeadItself(s, now, n);
      assert Listed(s, t);
      ScheduleParts(s, t, n);
      if !auto {
        FirstExpiry(s, t, n);
      } else {
        ReloadCalls(s, now, n);
      }
      hide Inv, ProcessHead, Listed, Nth;
    } else {
      HeadOther(s, now, t);
      hide Inv, ProcessHead, Listed, Alike, HeadKnown;
      AlikeLives(s, ProcessHead(s, now), t, x, p, auto, n, s.epoch * W + now);
    }
  }

  lemma ReloadCalls(s: Timers, now: nat, n: nat)
    requires Inv(s, n) && HeadKnown(s) && now < W
    ensures s.current[0] in ProcessHead(s, now).calls
  {
    hide Inv, Reload, Nth;
  }

  // The timers of the drained list that do not come back have had their one callback.
  lemma DrainLives(s: Timers, t: Timer, x: nat, p: nat, auto: bool, n: nat)
    requires Inv(s, n) && n <= s.epoch * W + (W - 1) && Lives(s, t, x, p, auto, n)
    ensures Lives(DrainCurrent(s), t, x, p, auto, s.epoch * W + (W - 1))
  {
    var d := DrainCurrent(s);
    DrainSame(s);
    DrainCalls(s, t);
    if t in s.current {
      DrainOne(s, t, n);
      assert Listed(s, t);
      ScheduleParts(s, t, n);
      CurrentValue(s, t, n);
      if !auto {
        FirstExpiry(s, t, n);
      }
      hide Inv, DrainCurrent, Listed, Nth;
    } else {
      assert Untouched(s, d, t);
      hide Inv, DrainCurrent, Listed, Nth;
    }
  }

  lemma {:induction false} DrainCalls(s: Timers, t: Timer)
    requires t in s.calls
    ensures t in DrainCurrent(s).calls
    decreases |s.current|
  {
    if HeadKnown(s) {
      var s' := ProcessHead(s, MAX_DELAY);
      ExpiredCalls(s.(current := s.current[1..]), s.current[0], ValueOf(s.value, s.current[0]), MAX_DELAY, t);
      hide ProcessHead, Known;
      if |s'.current| < |s.current| {
        DrainCalls(s', t);
      }
    }
  }

  lemma ExpiredCalls(s: Timers, u: Timer, expired: nat, now: nat, t: Timer)
    requires expired < W && now < W && Known(s, u) && t in s.calls
    ensures t in Expired(s, u, expired, now).calls
  {
    if t != u {
      ExpiredAlike(s, u, expired, now, t);
    }
    hide Reload;
  }

  lemma SwitchLives(s: Timers, t: Timer, x: nat, p: nat, auto: bool, n: nat)
    requires Inv(s, n) && n <= s.epoch * W + (W - 1) && Lives(s, t, x, p, auto, n)
    ensures Lives(Switch(s), t, x, p, auto, s.epoch * W + (W - 1))
  {
    DrainLives(s, t, x, p, auto, n);
    DrainSame(s);
    hide Inv, DrainCurrent, Untouched;
  }

  lemma SampleLives(s: Timers, t: Timer, x: nat, p: nat, auto: bool, n: nat)
    requires Inv(s, Sampled(s)) && Sampled(s) <= n < Sampled(s) + W && Lives(s, t, x, p, auto, Sampled(s))
    ensures Lives(Sample(s, Wrap(n)), t, x, p, auto, n)
  {
    InvLast(s, Sampled(s));
    SampleEpoch(s, n);
    if Wrap(n) < s.last {
      SwitchLives(s, t, x, p, auto, Sampled(s));
      hide Inv, Switch;
      assert Alike(Switch(s), Switch(s).(last := Wrap(n)), t);
      hide Alike, Lives;
      AlikeLives(Switch(s), Switch(s).(last := Wrap(n)), t, x, p, auto, s.epoch * W + (W - 1), n);
    } else {
      assert Alike(s, s.(last := Wrap(n)), t);
      hide Alike, Lives, Inv;
      AlikeLives(s, s.(last := Wrap(n)), t, x, p, auto, Sampled(s), n);
    }
  }

  lemma InvLast(s: Timers, n: nat)
    requires Inv(s, n)
    ensures s.last < W
  {
  }

  // ----- steps -----------------------------------------------------------------------------------

  lemma ProcessLives(s: Timers, t: Timer, x: nat, p: nat, auto: bool, n: nat)
    requires Inv(s, Sampled(s)) && Sampled(s) <= n < Sampled(s) + W && Lives(s, t, x, p, auto, Sampled(s))
    ensures Wrap(n) < W && Lives(ProcessOrBlock(s, Wrap(n)), t, x, p, auto, n)
  {
    WrapBelow(n);
    SampleLives(s, t, x, p, auto, n);
    SampleKeeps(s, n);
    var r := Sample(s, Wrap(n));
    hide Inv, Sample, Lives, Wrap, Known;
    if HeadKnown(r) && ValueOf(r.value, r.current[0]) <= Wrap(n) {
      ProcessHeadLives(r, Wrap(n), t, x, p, auto, n);
    }
  }

  // What precedes every command for another timer.
  lemma PreparedLives(s: Timers, u: Timer, t: Timer, x: nat, p: nat, auto: bool, n: nat)
    requires Inv(s, Sampled(s)) && Sampled(s) <= n < Sampled(s) + W && Lives(s, t, x, p, auto, Sampled(s)) && u != t
    ensures Wrap(n) < W && Lives(Sample(Leave(s, u), Wrap(n)), t, x, p, auto, n)
  {
    WrapBelow(n);
    LeaveAlike(s, u, Sampled(s), t);
    LeaveKeeps(s, u, Sampled(s));
    hide Inv, Leave, Lives, Wrap, Alike, Sample, Listed;
    AlikeLives(s, Leave(s, u), t, x, p, auto, Sampled(s), Sampled(s));
    SampleLives(Leave(s, u), t, x, p, auto, n);
  }

  lemma StartLives(s: Timers, u: Timer, command: nat, t: Timer, x: nat, p: nat, auto: bool, n: nat)
    requires Inv(s, Sampled(s)) && Sampled(s) <= n < Sampled(s) + W && Lives(s, t, x, p, auto, Sampled(s)) && u != t
    ensures Wrap(n) < W && Lives(Start(s, u, command, Wrap(n)), t, x, p, auto, n)
  {
    hide Inv, Sample, Leave, Activate, Insert, Expired, Decide, Wrap, TickAdd, Known, Alike, Lives;
    PreparedLives(s, u, t, x, p, auto, n);
    var c, q, now := Wrap(command), ValueOf(s.period, u), Wrap(n);
    var next, d := TickAdd(c, q), Decide(TickAdd(c, q), now, c, q);
    var a := Sample(Leave(s, u), now);
    var b := Activate(a, u, command + q);
    var r := Insert(b, u, next, d);
    ActivateAlike(a, u, command + q, t);
    InsertAlike(b, u, next, d, t);
    AlikeTwice(a, b, r, t);
    if d.Fire? && Known(r, u) && next < W {
      ExpiredAlike(r, u, next, now, t);
      AlikeTwice(a, r, Expired(r, u, next, now), t);
    }
    AlikeLives(a, Start(s, u, command, now), t, x, p, auto, n, n);
  }

  lemma StopLives(s: Timers, u: Timer, t: Timer, x: nat, p: nat, auto: bool, n: nat)
    requires Inv(s, Sampled(s)) && Sampled(s) <= n < Sampled(s) + W && Lives(s, t, x, p, auto, Sampled(s)) && u != t
    ensures Wrap(n) < W && Lives(Stop(s, u, Wrap(n)), t, x, p, auto, n)
  {
    PreparedLives(s, u, t, x, p, auto, n);
    hide Inv, Sample, Leave, Wrap;
    var a := Sample(Leave(s, u), Wrap(n));
    assert Alike(a, Stop(s, u, Wrap(n)), t);
    hide Alike, Lives;
    AlikeLives(a, Stop(s, u, Wrap(n)), t, x, p, auto, n, n);
  }

  lemma PeriodLives(s: Timers, u: Timer, period: nat, t: Timer, x: nat, p: nat, auto: bool, n: nat)
    requires Inv(s, Sampled(s)) && Sampled(s) <= n < Sampled(s) + W && Lives(s, t, x, p, auto, Sampled(s)) && u != t
    ensures Lives(ChangePeriod(s, u, period, n), t, x, p, auto, n)
  {
    PreparedLives(s, u, t, x, p, auto, n);
    hide Inv, Sample, Leave, Wrap, Decide, TickAdd;
    var a, c := Sample(Leave(s, u), Wrap(n)), Wrap(n);
    var b := Activate(a, u, n + period);
    ActivateAlike(a, u, n + period, t);
    var e := b.(period := b.period[u := period]);
    assert Alike(b, e, t);
    var d := Decide(TickAdd(c, period), c, c, period);
    InsertAlike(e, u, TickAdd(c, period), d, t);
    hide Alike, Lives, Activate, Insert;
    AlikeTwice(a, b, e, t);
    AlikeTwice(a, e, Insert(e, u, TickAdd(c, period), d), t);
    AlikeLives(a, Insert(e, u, TickAdd(c, period), d), t, x, p, auto, n, n);
  }

  lemma ModeLives(s: Timers, u: Timer, mode: bool, t: Timer, x: nat, p: nat, auto: bool)
    requires Lives(s, t, x, p, auto, Sampled(s)) && u != t
    ensures Lives(SetReloadMode(s, u, mode), t, x, p, auto, Sampled(s))
  {
  }

  predicate Concerns(st: Step, t: Timer) {
    match st
    case StartStep(u, _, _) => u == t
    case StopStep(u, _) => u == t
    case PeriodStep(u, _, _) => u == t
    case ModeStep(u, _) => u == t
    case ProcessStep(_) => false
  }

  lemma StepTime(s: Timers, st: Step)
    requires Inv(s, Sampled(s)) && Can(s, st)
    ensures Sampled(Next(s, st)) == match st
              case ProcessStep(n) => n
              case StartStep(_, _, n) => n
              case StopStep(_, n) => n
              case PeriodStep(_, _, n) => n
              case ModeStep(_, _) => Sampled(s)
  {
    hide Inv, ProcessOrBlock, Start, Stop, ChangePeriod, Wrap, Known;
    match st
    case ProcessStep(n) => ProcessOrBlockKeeps(s, n);
    case StartStep(t, command, n) => StartKeeps(s, t, command, n);
    case StopStep(t, n) => StopCommandKeeps(s, t, n);
    case PeriodStep(t, period, n) => ChangePeriodKeeps(s, t, period, n);
    case ModeStep(t, reload) => SampledMode(s, t, reload);
  }

  lemma StepLives(s: Timers, st: Step, t: Timer, x: nat, p: nat, auto: bool)
    requires Inv(s, Sampled(s)) && Can(s, st) && Lives(s, t, x, p, auto, Sampled(s)) && !Concerns(st, t)
    ensures Lives(Next(s, st), t, x, p, auto, Sampled(Next(s, st))) && Sampled(s) <= Sampled(Next(s, st))
  {
    StepTime(s, st);
    hide Inv, ProcessOrBlock, Start, Stop, ChangePeriod, SetReloadMode, Wrap, Lives, Known, Sampled;
    match st
    case ProcessStep(n) => ProcessLives(s, t, x, p, auto, n);
    case StartStep(u, command, n) => StartLives(s, u, command, t, x, p, auto, n);
    case StopStep(u, n) => StopLives(s, u, t, x, p, auto, n);
    case PeriodStep(u, period, n) => PeriodLives(s, u, period, t, x, p, auto, n);
    case ModeStep(u, mode) => ModeLives(s, u, mode, t, x, p, auto);
  }

  predicate LeftAlone(sts: seq<Step>, t: Timer) {
    forall st :: st in sts ==> !Concerns(st, t)
  }

  lemma {:induction false} RunLives(s: Timers, sts: seq<Step>, t: Timer, x: nat, p: nat, auto: bool)
    requires Inv(s, Sampled(s)) && CanSteps(s, sts) && LeftAlone(sts, t) && Lives(s, t, x, p, auto, Sampled(s))
    ensures Lives(Steps(s, sts), t, x, p, auto, Sampled(Steps(s, sts))) && Sampled(s) <= Sampled(Steps(s, sts))
    decreases |sts|
  {
    hide Inv, Next, Can, Lives, Sampled, Concerns;
    if sts != [] {
      StepKeeps(s, sts[0]);
      StepLives(s, sts[0], t, x, p, auto);
      RunLives(Next(s, sts[0]), sts[1..], t, x, p, auto);
    }
  }

  // ----- from the start command on ---------------------------------------------------------------

  lemma StartedOnce(s: Timers, t: Timer, command: nat, n: nat)
    requires Inv(s, Sampled(s)) && Sampled(s) <= n < Sampled(s) + W && command <= n < command + W
    requires Known(s, t) && !s.reload[t]
    ensures Wrap(n) < W
    ensures Lives(Start(s, t, command, Wrap(n)), t, command + s.period[t], s.period[t], false, n)
  {
    hide Inv, Sample, Leave, Wrap, Decide, InsertByValue, Reload, TickAdd;
    Prepared(s, t, n);
    var p := s.period[t];
    var a := Sample(Leave(s, t), Wrap(n));
    SampleSame(Leave(s, t), Wrap(n));
    Activated(a, t, command + p);
    var b := Activate(a, t, command + p);
    InsertExact(b, t, command, Wrap(n));
    WrapBelow(command + p);
    InsertLists(b, t, Wrap(command + p), Decide(Wrap(command + p), Wrap(n), Wrap(command), p));
  }

  lemma StartedAuto(s: Timers, t: Timer, command: nat, n: nat)
    requires Inv(s, Sampled(s)) && Sampled(s) <= n < Sampled(s) + W && command <= n < command + W
    requires Known(s, t) && s.reload[t]
    ensures Wrap(n) < W
    ensures Lives(Start(s, t, command, Wrap(n)), t, command + s.period[t], s.period[t], true, n)
  {
    StartLists(s, t, command, n);
    StartAutoReload(s, t, command, n);
    StartMode(s, t, command, n);
    hide Inv, Start, Wrap, Nth, Listed;
  }

  lemma ExpiredMode(s: Timers, t: Timer, expired: nat, now: nat)
    requires expired < W && now < W && Known(s, t)
    ensures Expired(s, t, expired, now).reload == s.reload
  {
    if s.reload[t] {
      ReloadSame(s, t, expired, now);
    }
    hide Reload;
  }

  lemma InsertMode(s: Timers, t: Timer, next: nat, d: Outcome)
    ensures Insert(s, t, next, d).reload == s.reload
  {
  }

  lemma StartMode(s: Timers, t: Timer, command: nat, n: nat)
    requires Inv(s, Sampled(s)) && Sampled(s) <= n < Sampled(s) + W && Known(s, t)
    ensures Wrap(n) < W && Start(s, t, command, Wrap(n)).reload == s.reload
  {
    hide Inv, Sample, Leave, Wrap, Decide, Insert, Expired, TickAdd, Known, Activate, Listed, Sampled;
    Prepared(s, t, n);
    var c, p := Wrap(command), ValueOf(s.period, t);
    var b := Activate(Sample(Leave(s, t), Wrap(n)), t, command + p);
    Activated(Sample(Leave(s, t), Wrap(n)), t, command + p);
    var d := Decide(TickAdd(c, p), Wrap(n), c, p);
    var r := Insert(b, t, TickAdd(c, p), d);
    InsertMode(b, t, TickAdd(c, p), d);
    if d.Fire? && Known(r, t) && TickAdd(c, p) < W {
      ExpiredMode(r, t, TickAdd(c, p), Wrap(n));
    }
  }

  lemma LivesCount(s: Timers, t: Timer, command: nat, p: nat, auto: bool)
    requires Inv(s, Sampled(s)) && Lives(s, t, command + p, p, auto, Sampled(s)) && 0 < p && command <= Sampled(s)
    requires s.current == [] || ValueOf(s.value, s.current[0]) > s.last
    ensures t in s.calls
    ensures s.calls[t] == if auto then (Sampled(s) - command) / p else if command + p <= Sampled(s) then 1 else 0
  {
    if Listed(s, t) {
      CaughtUp(s, t);
      if auto {
        CallsAreFloor(command, p, s.calls[t], Sampled(s));
      } else {
        NthNext(command + p, p, 0);
      }
    }
    hide Inv, Nth, Sampled;
  }

  // A timer that is started at the unbounded time command and that no other command concerns: whenever
  // the head is not due, its callback has run once for each whole period since, or, if it is a
  // one-shot timer, once if its period has passed and not at all if it has not.
  lemma CallbacksExact(s: Timers, t: Timer, command: nat, n: nat, sts: seq<Step>)
    requires Inv(s, Sampled(s)) && Can(s, StartStep(t, command, n)) && LeftAlone(sts, t)
    requires CanSteps(Next(s, StartStep(t, command, n)), sts)
    requires var e := Steps(Next(s, StartStep(t, command, n)), sts);
             e.current == [] || ValueOf(e.value, e.current[0]) > e.last
    ensures var e := Steps(Next(s, StartStep(t, command, n)), sts);
            && t in s.period && s.period[t] > 0 && t in s.reload && t in e.calls && command <= Sampled(e)
            && e.calls[t] == if s.reload[t] then (Sampled(e) - command) / s.period[t]
                             else if command + s.period[t] <= Sampled(e) then 1 else 0
  {
    var st := StartStep(t, command, n);
    hide Inv, Next, Can, Lives, CanSteps, Steps, LeftAlone, Sampled, Known;
    Begins(s, t, command, n);
    RunKeeps(Next(s, st), sts);
    RunLives(Next(s, st), sts, t, command + s.period[t], s.period[t], s.reload[t]);
    LivesCount(Steps(Next(s, st), sts), t, command, s.period[t], s.reload[t]);
  }

  lemma Begins(s: Timers, t: Timer, command: nat, n: nat)
    requires Inv(s, Sampled(s)) && Can(s, StartStep(t, command, n))
    ensures t in s.period && s.period[t] > 0 && t in s.reload
    ensures var r := Next(s, StartStep(t, command, n));
            && Inv(r, Sampled(r)) && command <= Sampled(r)
            && Lives(r, t, command + s.period[t], s.period[t], s.reload[t], Sampled(r))
  {
    StepKeeps(s, StartStep(t, command, n));
    StepTime(s, StartStep(t, command, n));
    hide Inv, Start, Wrap, Lives;
    if s.reload[t] {
      StartedAuto(s, t, command, n);
    } else {
      StartedOnce(s, t, command, n);
    }
  }
}
