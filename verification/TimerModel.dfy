/** Software timers: lists by tick epoch, catching up on a backlog, and what it amounts to in unbounded time. */
module TimerModel {
  import opened Ticks
  import opened ListSpec

  type Timer = nat

  // ----- one decision ----------------------------------------------------------------------------

  datatype Outcome = Fire | IntoCurrent | IntoOverflow

  // The branches of prvInsertTimerInActiveList.
  function Decide(next: nat, now: nat, command: nat, period: nat): Outcome {
    if next <= now then
      if TickSub(now, command) >= period then Fire else IntoOverflow
    else
      if now < command && next >= command then Fire else IntoCurrent
  }

  // For all tick values the branches say that the wrapped time since the command has reached the
  // period.
  lemma FiresIffElapsed(command: nat, period: nat, now: nat)
    requires command < W && now < W && 0 < period < W
    ensures Decide(TickAdd(command, period), now, command, period).Fire? <==> TickSub(now, command) >= period
  {
  }

  lemma DecideSplit(ec: nat, vc: nat, en: nat, vn: nat, period: nat)
    requires vc < W && vn < W && ec * W + vc <= en * W + vn < ec * W + vc + W && 0 < period < W
    ensures var next, d := TickAdd(vc, period), Decide(TickAdd(vc, period), vn, vc, period);
            && next < W
            && (d.Fire? <==> ec * W + vc + period <= en * W + vn)
            && (d.IntoCurrent? ==> ec * W + vc + period == en * W + next)
            && (d.IntoOverflow? ==> ec * W + vc + period == (en + 1) * W + next)
  {
    assert en == ec || en == ec + 1;
    NextEpoch(ec);
    NextEpoch(en);
  }

  // In unbounded time: fire if the expiry is past, else choose the list by the epoch of the expiry.
  lemma DecideExact(command: nat, now: nat, period: nat)
    requires command <= now < command + W && 0 < period < W
    ensures var next := TickAdd(Wrap(command), period);
            var d := Decide(next, Wrap(now), Wrap(command), period);
            && next == Wrap(command + period)
            && (d.Fire? <==> command + period <= now)
            && (d.IntoCurrent? ==> command + period == (now / W) * W + next)
            && (d.IntoOverflow? ==> command + period == (now / W + 1) * W + next)
  {
    SplitOf(command);
    SplitOf(now);
    TickAddWraps(command, period);
    WrapBelow(period);
    WrapBelow(command);
    WrapBelow(now);
    hide Wrap, Decide;
    DecideSplit(command / W, Wrap(command), now / W, Wrap(now), period);
  }

  // ----- the state -------------------------------------------------------------------------------

  // The timers in their lists, and of the timer control blocks the value of xTimerListItem,
  // xTimerPeriodInTicks and the two flags of ucStatus; last is xLastTime. The program does not have:
  // epoch, which counts the wraps that the timer task has seen, and for each timer the unbounded time
  // at which it was to expire first after its last start and the callbacks made since then.
  datatype Timers = Timers(current: seq<Timer>, overflow: seq<Timer>, value: map<Timer, nat>,
                           period: map<Timer, nat>, reload: map<Timer, bool>, active: map<Timer, bool>, last: nat,
                           epoch: nat, first: map<Timer, nat>, calls: map<Timer, nat>)

  function Call(s: Timers, t: Timer): Timers {
    s.(calls := s.calls[t := ValueOf(s.calls, t) + 1])
  }

  // prvInsertTimerInActiveList, apart from its result.
  function Insert(s: Timers, t: Timer, next: nat, d: Outcome): Timers {
    var v := s.value[t := next];
    match d
    case Fire => s.(value := v)
    case IntoCurrent => s.(value := v, current := InsertByValue(s.current, v, t))
    case IntoOverflow => s.(value := v, overflow := InsertByValue(s.overflow, v, t))
  }

  // prvReloadTimer
  function Reload(s: Timers, t: Timer, expired: nat, now: nat): Timers
    requires expired < W && now < W && t in s.period && 0 < s.period[t] < W
    decreases TickSub(now, expired)
  {
    var next := TickAdd(expired, s.period[t]);
    var d := Decide(next, now, expired, s.period[t]);
    var s' := Insert(s, t, next, d);
    if d.Fire? then
      (FiresIffElapsed(expired, s.period[t], now);
       Reload(Call(s', t), t, next, now))
    else s'
  }

  // The timer is known and its period is positive.
  predicate Known(s: Timers, t: Timer) {
    t in s.period && 0 < s.period[t] < W && t in s.reload && t in s.active
  }

  // What is done about a timer that has expired, once it is on no list.
  function Expired(s: Timers, t: Timer, expired: nat, now: nat): Timers
    requires expired < W && now < W && Known(s, t)
  {
    Call(if s.reload[t] then Reload(s, t, expired, now) else s.(active := s.active[t := false]), t)
  }

  // prvProcessExpiredTimer, for the timer at the head of the current list.
  function ProcessHead(s: Timers, now: nat): Timers
    requires s.current != [] && now < W && Known(s, s.current[0]) && ValueOf(s.value, s.current[0]) < W
  {
    Expired(s.(current := s.current[1..]), s.current[0], ValueOf(s.value, s.current[0]), now)
  }

  // The head can be processed.
  predicate HeadKnown(s: Timers) {
    s.current != [] && Known(s, s.current[0]) && ValueOf(s.value, s.current[0]) < W
  }

  // The loop of prvSwitchTimerLists. (Nothing is put back, so the length decreases.)
  function DrainCurrent(s: Timers): Timers
    decreases |s.current|
  {
    if !HeadKnown(s) then s
    else
      var s' := ProcessHead(s, MAX_DELAY);
      if |s'.current| < |s.current| then DrainCurrent(s') else s'
  }

  // prvSwitchTimerLists
  function Switch(s: Timers): Timers {
    var d := DrainCurrent(s);
    d.(current := d.overflow, overflow := d.current, epoch := d.epoch + 1)
  }

  // prvSampleTimeNow
  function Sample(s: Timers, now: nat): Timers {
    (if now < s.last then Switch(s) else s).(last := now)
  }

  // uxListRemove, if the timer is in a list.
  function Leave(s: Timers, t: Timer): Timers {
    s.(current := Without(s.current, t), overflow := Without(s.overflow, t))
  }

  // The timer, which is on no list, is to expire first at the unbounded time first.
  function Activate(s: Timers, t: Timer, first: nat): Timers {
    s.(active := s.active[t := true], first := s.first[t := first], calls := s.calls[t := 0])
  }

  // tmrCOMMAND_START and tmrCOMMAND_RESET; the command was given at the unbounded time command.
  function Start(s: Timers, t: Timer, command: nat, now: nat): Timers
    requires now < W
  {
    var c, p := Wrap(command), ValueOf(s.period, t);
    var next, d := TickAdd(c, p), Decide(TickAdd(c, p), now, c, p);
    var r := Insert(Activate(Sample(Leave(s, t), now), t, command + p), t, next, d);
    if d.Fire? && Known(r, t) && next < W then Expired(r, t, next, now) else r
  }

  // tmrCOMMAND_STOP
  function Stop(s: Timers, t: Timer, now: nat): Timers {
    var r := Sample(Leave(s, t), now);
    r.(active := r.active[t := false])
  }

  // tmrCOMMAND_CHANGE_PERIOD, processed at the unbounded time now.
  function ChangePeriod(s: Timers, t: Timer, period: nat, now: nat): Timers {
    var n := Wrap(now);
    var r := Activate(Sample(Leave(s, t), n), t, now + period);
    Insert(r.(period := r.period[t := period]), t, TickAdd(n, period), Decide(TickAdd(n, period), n, n, period))
  }

  // vTimerSetReloadMode
  function SetReloadMode(s: Timers, t: Timer, reload: bool): Timers {
    s.(reload := s.reload[t := reload])
  }

  // prvProcessTimerOrBlockTask: process the head if it has expired and the lists were not switched.
  function ProcessOrBlock(s: Timers, now: nat): Timers
    requires now < W
  {
    var r := Sample(s, now);
    if now >= s.last && HeadKnown(r) && ValueOf(r.value, r.current[0]) <= now then ProcessHead(r, now) else r
  }
}
