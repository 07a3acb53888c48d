/** The timer task of timers.c with its two lists, proved to do what TimerModel says. */
module TimerTask {
  import opened Ticks
  import opened ListSpec
  import opened TimerModel
  import opened TimerRun

  class TimerTask {
    var pxCurrentTimerList: seq<Timer>
    var pxOverflowTimerList: seq<Timer>
    // The fields of the timer control blocks.
    var xItemValue: map<Timer, nat>
    var xTimerPeriodInTicks: map<Timer, nat>
    var isAutoReload: map<Timer, bool>
    var isActive: map<Timer, bool>
    var xLastTime: nat
    ghost var epoch: nat
    ghost var first: map<Timer, nat>
    ghost var calls: map<Timer, nat>

    ghost function State(): Timers
      reads this
    {
      Timers(pxCurrentTimerList, pxOverflowTimerList, xItemValue, xTimerPeriodInTicks, isAutoReload, isActive,
             xLastTime, epoch, first, calls)
    }

    constructor (period: map<Timer, nat>, reload: map<Timer, bool>)
      ensures State() == Started(period, reload)
    {
      pxCurrentTimerList, pxOverflowTimerList, xItemValue := [], [], map[];
      xTimerPeriodInTicks, isAutoReload, isActive := period, reload, map t | t in reload :: false;
      xLastTime, epoch, first, calls := 0, 0, map[], map[];
    }

    // The callback is only counted.
    method pxCallbackFunction(t: Timer)
      modifies `calls
      ensures State() == Call(old(State()), t)
    {
      calls := calls[t := ValueOf(calls, t) + 1];
    }

    method prvInsertTimerInActiveList(t: Timer, xNextExpiryTime: nat, xTimeNow: nat, xCommandTime: nat)
      returns (xProcessTimerNow: bool)
      requires t in xTimerPeriodInTicks
      modifies `xItemValue, `pxCurrentTimerList, `pxOverflowTimerList
      ensures var d := Decide(xNextExpiryTime, xTimeNow, xCommandTime, xTimerPeriodInTicks[t]);
              State() == Insert(old(State()), t, xNextExpiryTime, d) && xProcessTimerNow == d.Fire?
    {
      xProcessTimerNow := false;
      xItemValue := xItemValue[t := xNextExpiryTime];
      if xNextExpiryTime <= xTimeNow {
        if TickSub(xTimeNow, xCommandTime) >= xTimerPeriodInTicks[t] {
          xProcessTimerNow := true;
        } else {
          pxOverflowTimerList := InsertByValue(pxOverflowTimerList, xItemValue, t);
        }
      } else {
        if xTimeNow < xCommandTime && xNextExpiryTime >= xCommandTime {
          xProcessTimerNow := true;
        } else {
          pxCurrentTimerList := InsertByValue(pxCurrentTimerList, xItemValue, t);
        }
      }
    }

    // The loop ends: each round uses up a period of the time that has passed.
    method prvReloadTimer(t: Timer, expired: nat, xTimeNow: nat)
      requires Known(State(), t) && expired < W && xTimeNow < W
      modifies `xItemValue, `pxCurrentTimerList, `pxOverflowTimerList, `calls
      ensures State() == Reload(old(State()), t, expired, xTimeNow)
    {
      hide Insert, Decide;
      var xExpiredTime: nat := expired;
      FiresIffElapsed(xExpiredTime, xTimerPeriodInTicks[t], xTimeNow);
      ghost var before := State();
      var again := prvInsertTimerInActiveList(t, TickAdd(xExpiredTime, xTimerPeriodInTicks[t]), xTimeNow, xExpiredTime);
      while again
        invariant xExpiredTime < W && Known(before, t) && before.period == xTimerPeriodInTicks
        invariant Reload(before, t, xExpiredTime, xTimeNow) == Reload(old(State()), t, expired, xTimeNow)
        invariant var next := TickAdd(xExpiredTime, before.period[t]);
                  var d := Decide(next, xTimeNow, xExpiredTime, before.period[t]);
                  State() == Insert(before, t, next, d) && again == d.Fire?
        decreases TickSub(xTimeNow, xExpiredTime)
      {
        FiresIffElapsed(xExpiredTime, xTimerPeriodInTicks[t], xTimeNow);
        InsertFired(before, t, TickAdd(xExpiredTime, before.period[t]));
        xExpiredTime := TickAdd(xExpiredTime, xTimerPeriodInTicks[t]);
        pxCallbackFunction(t);
        before := State();
        again := prvInsertTimerInActiveList(t, TickAdd(xExpiredTime, xTimerPeriodInTicks[t]), xTimeNow, xExpiredTime);
      }
    }

    // The timer is reloaded or becomes inactive, and is called.
    method Expire(t: Timer, xExpiredTime: nat, xTimeNow: nat)
      requires Known(State(), t) && xExpiredTime < W && xTimeNow < W
      modifies `xItemValue, `pxCurrentTimerList, `pxOverflowTimerList, `calls, `isActive
      ensures State() == Expired(old(State()), t, xExpiredTime, xTimeNow)
    {
      hide Reload;
      if isAutoReload[t] {
        prvReloadTimer(t, xExpiredTime, xTimeNow);
      } else {
        isActive := isActive[t := false];
      }
      pxCallbackFunction(t);
    }

    method prvProcessExpiredTimer(xNextExpireTime: nat, xTimeNow: nat)
      requires HeadKnown(State()) && xNextExpireTime == ValueOf(xItemValue, pxCurrentTimerList[0]) && xTimeNow < W
      modifies `xItemValue, `pxCurrentTimerList, `pxOverflowTimerList, `calls, `isActive
      ensures State() == ProcessHead(old(State()), xTimeNow)
    {
      hide Expired;
      var pxTimer := pxCurrentTimerList[0];
      pxCurrentTimerList := pxCurrentTimerList[1..];
      Expire(pxTimer, xNextExpireTime, xTimeNow);
    }

    method prvSwitchTimerLists(ghost n: nat)
      requires Inv(State(), n) && n <= epoch * W + (W - 1)
      modifies `xItemValue, `pxCurrentTimerList, `pxOverflowTimerList, `calls, `isActive, `epoch
      ensures State() == Switch(old(State()))
    {
      hide Inv, ProcessHead;
      ghost var end := epoch * W + (W - 1);
      InvLater(State(), n, end);
      while pxCurrentTimerList != []
        invariant Inv(State(), end) && DrainCurrent(State()) == DrainCurrent(old(State())) && epoch == old(epoch)
        decreases |pxCurrentTimerList|
      {
        HeadLeaves(State(), end);
        ProcessHeadKeeps(State(), MAX_DELAY, end);
        var xNextExpireTime := xItemValue[pxCurrentTimerList[0]];
        prvProcessExpiredTimer(xNextExpireTime, MAX_DELAY);
      }
      var pxTemp := pxCurrentTimerList;
      pxCurrentTimerList := pxOverflowTimerList;
      pxOverflowTimerList := pxTemp;
      epoch := epoch + 1;
    }

    // n is the unbounded time now.
    method prvSampleTimeNow(xTimeNow: nat, ghost n: nat) returns (xTimerListsWereSwitched: bool)
      requires Inv(State(), Sampled(State())) && Sampled(State()) <= n < Sampled(State()) + W && xTimeNow == Wrap(n)
      modifies this
      ensures State() == Sample(old(State()), xTimeNow)
      ensures xTimerListsWereSwitched == (xTimeNow < old(xLastTime))
    {
      InvLists(State(), Sampled(State()));
      hide Inv, Switch, Wrap;
      xTimerListsWereSwitched := false;
      if xTimeNow < xLastTime {
        prvSwitchTimerLists(Sampled(State()));
        xTimerListsWereSwitched := true;
      }
      xLastTime := xTimeNow;
    }

    // One round of the task: process the head if it has expired, unless the lists were switched.
    method prvProcessTimerOrBlockTask(xTimeNow: nat, ghost n: nat)
      requires Inv(State(), Sampled(State())) && Sampled(State()) <= n < Sampled(State()) + W && xTimeNow == Wrap(n)
      modifies this
      ensures xTimeNow < W && State() == ProcessOrBlock(old(State()), xTimeNow)
    {
      hide Inv, ProcessHead, Sample, Wrap;
      WrapBelow(n);
      SampleKeeps(State(), n);
      var xListWasEmpty := pxCurrentTimerList == [];
      var xNextExpireTime := if xListWasEmpty then 0 else ValueOf(xItemValue, pxCurrentTimerList[0]);
      NotSwitched(State(), xTimeNow);
      var xTimerListsWereSwitched := prvSampleTimeNow(xTimeNow, n);
      if !xTimerListsWereSwitched {
        if !xListWasEmpty && xNextExpireTime <= xTimeNow {
          HeadLeaves(State(), n);
          prvProcessExpiredTimer(xNextExpireTime, xTimeNow);
        }
      }
    }

    // What prvProcessReceivedCommands does before it looks at the command.
    method Prepare(t: Timer, xTimeNow: nat, ghost n: nat)
      requires Inv(State(), Sampled(State())) && Sampled(State()) <= n < Sampled(State()) + W && xTimeNow == Wrap(n)
      modifies this
      ensures State() == Sample(Leave(old(State()), t), xTimeNow)
    {
      hide Inv, Sample, Wrap, Without;
      LeaveKeeps(State(), t, Sampled(State()));
      pxCurrentTimerList := Without(pxCurrentTimerList, t);
      pxOverflowTimerList := Without(pxOverflowTimerList, t);
      var xTimerListsWereSwitched := prvSampleTimeNow(xTimeNow, n);
    }

    // command is the unbounded time at which the command was given.
    method StartCommand(t: Timer, xMessageValue: nat, xTimeNow: nat, ghost command: nat, ghost n: nat)
      requires Inv(State(), Sampled(State())) && Sampled(State()) <= n < Sampled(State()) + W && xTimeNow == Wrap(n)
      requires Known(State(), t) && command <= n < command + W && xMessageValue == Wrap(command)
      modifies this
      ensures xTimeNow < W && State() == Start(old(State()), t, command, xTimeNow)
    {
      hide Inv, Sample, Leave, Insert, Decide, Expired, Wrap;
      WrapBelow(n);
      WrapBelow(command);
      Prepared(State(), t, n);
      Prepare(t, xTimeNow, n);
      isActive := isActive[t := true];
      first := first[t := command + xTimerPeriodInTicks[t]];
      calls := calls[t := 0];
      var xNextExpiryTime := TickAdd(xMessageValue, xTimerPeriodInTicks[t]);
      var xProcessTimerNow := prvInsertTimerInActiveList(t, xNextExpiryTime, xTimeNow, xMessageValue);
      if xProcessTimerNow {
        FiresIffElapsed(xMessageValue, xTimerPeriodInTicks[t], xTimeNow);
        Expire(t, TickAdd(xMessageValue, xTimerPeriodInTicks[t]), xTimeNow);
      }
    }

    method StopCommand(t: Timer, xTimeNow: nat, ghost n: nat)
      requires Inv(State(), Sampled(State())) && Sampled(State()) <= n < Sampled(State()) + W && xTimeNow == Wrap(n)
      modifies this
      ensures State() == Stop(old(State()), t, xTimeNow)
    {
      hide Inv, Sample, Leave, Wrap;
      Prepare(t, xTimeNow, n);
      isActive := isActive[t := false];
    }

    method ChangePeriodCommand(t: Timer, xMessageValue: nat, xTimeNow: nat, ghost n: nat)
      requires Inv(State(), Sampled(State())) && Sampled(State()) <= n < Sampled(State()) + W && xTimeNow == Wrap(n)
      requires Known(State(), t) && 0 < xMessageValue < W
      modifies this
      ensures State() == ChangePeriod(old(State()), t, xMessageValue, n)
    {
      hide Inv, Sample, Leave, Insert, Decide, Wrap;
      Prepare(t, xTimeNow, n);
      isActive := isActive[t := true];
      first := first[t := n + xMessageValue];
      calls := calls[t := 0];
      xTimerPeriodInTicks := xTimerPeriodInTicks[t := xMessageValue];
      var fire := prvInsertTimerInActiveList(t, TickAdd(xTimeNow, xTimerPeriodInTicks[t]), xTimeNow, xTimeNow);
    }
  }

  lemma NotSwitched(s: Timers, now: nat)
    ensures now >= s.last ==> Sample(s, now) == s.(last := now)
  {
  }
}
