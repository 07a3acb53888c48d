/** Block times that are re-checked, and periodic delays: wrapping tick arithmetic against unbounded time. */
module TimeOuts {
  import opened Ticks
  import opened DelayModel
  import opened KernelModel
  import opened KernelSteps
  import opened KernelResume
  import Scheduler

  // What vTaskSetTimeOutState records.
  datatype Snapshot = Snapshot(overflows: nat, entering: nat)

  // The snapshot taken when tick number n has been processed.
  function SnapshotAt(n: nat): Snapshot {
    Snapshot(Wrap(n / W), Wrap(n))
  }

  datatype Checked = Checked(expired: bool, since: Snapshot, wait: nat)

  // xTaskCheckForTimeOut
  function Check(since: Snapshot, wait: nat, tick: nat, overflows: nat): Checked {
    if wait == MAX_DELAY then Checked(false, since, wait)
    else if overflows != since.overflows && tick >= since.entering then Checked(true, since, 0)
    else if TickSub(tick, since.entering) < wait
    then Checked(false, Snapshot(overflows, tick), wait - TickSub(tick, since.entering))
    else Checked(true, since, 0)
  }

  function CheckAt(since: Snapshot, wait: nat, n: nat): Checked {
    Check(since, wait, Wrap(n), Wrap(n / W))
  }

  class TimeOut_t {
    var xOverflowCount: nat
    var xTimeOnEntering: nat

    function Contents(): Snapshot
      reads this
    {
      Snapshot(xOverflowCount, xTimeOnEntering)
    }

    // vTaskSetTimeOutState
    constructor (s: Scheduler.Scheduler)
      ensures Contents() == Snapshot(s.xNumOfOverflows, s.xTickCount)
    {
      xOverflowCount := s.xNumOfOverflows;
      xTimeOnEntering := s.xTickCount;
    }

    method vTaskInternalSetTimeOutState(s: Scheduler.Scheduler)
      modifies this
      ensures Contents() == Snapshot(s.xNumOfOverflows, s.xTickCount)
    {
      xOverflowCount := s.xNumOfOverflows;
      xTimeOnEntering := s.xTickCount;
    }

    method xTaskCheckForTimeOut(s: Scheduler.Scheduler, pxTicksToWait: nat) returns (xReturn: bool, left: nat)
      modifies this
      ensures Checked(xReturn, Contents(), left)
           == Check(old(Contents()), pxTicksToWait, s.xTickCount, s.xNumOfOverflows)
    {
      left := pxTicksToWait;
      var xConstTickCount := s.xTickCount;
      var xElapsedTime := TickSub(xConstTickCount, xTimeOnEntering);
      if left == MAX_DELAY {
        xReturn := false;
      } else if s.xNumOfOverflows != xOverflowCount && xConstTickCount >= xTimeOnEntering {
        xReturn := true;
        left := 0;
      } else if xElapsedTime < left {
        left := left - xElapsedTime;
        vTaskInternalSetTimeOutState(s);
        xReturn := false;
      } else {
        left := 0;
        xReturn := true;
      }
    }
  }

  // In every state of the kernel the snapshot that would be taken is that of the unbounded clock.
  lemma KernelSnapshot(s: Kernel)
    requires Structure(s)
    ensures Snapshot(s.overflows, s.tick) == SnapshotAt(View(s).clock)
  {
    assert s.tick < W && Epochs(s.overflows, s.epoch);
    hide Structure;
    SplitUnique(s.epoch, s.tick);
  }

  // ----- one check -----------------------------------------------------------------------------

  lemma CheckSplit(e0: nat, v0: nat, e1: nat, v1: nat, wait: nat)
    requires v0 < W && v1 < W && e0 * W + v0 <= e1 * W + v1 && wait < MAX_DELAY
    ensures var d := (e1 * W + v1) - (e0 * W + v0);
            Check(Snapshot(Wrap(e0), v0), wait, v1, Wrap(e1)).expired == (d >= wait)
            <==> d < W || (v1 >= v0 && Wrap(e1) != Wrap(e0)) || TickSub(v1, v0) >= wait
  {
    hide Wrap;
    if e1 > e0 + 1 {
      assert (e1 * W + v1) - (e0 * W + v0) >= W;
    } else if e1 == e0 + 1 {
      NextEpoch(e0);
    } else {
      assert e1 == e0;
    }
  }

  // For any elapsed time: a check is right exactly if fewer than 2^32 ticks have passed since the
  // snapshot, or the wrapped elapsed time alone exceeds the wait, or the tick count has passed its
  // old value and the count of its wraps, itself wrapping, shows it.
  lemma CheckIsRightIff(n0: nat, n1: nat, wait: nat)
    requires n0 <= n1 && wait < MAX_DELAY
    ensures CheckAt(SnapshotAt(n0), wait, n1).expired == (n1 - n0 >= wait)
            <==> n1 - n0 < W || (Wrap(n1) >= Wrap(n0) && Wrap(n1 / W) != Wrap(n0 / W)) || Wrap(n1 - n0) >= wait
  {
    SplitOf(n0);
    SplitOf(n1);
    TickSubWraps(n1, n0);
    hide Wrap, Check, TickSub;
    WrapBelow(n0);
    WrapBelow(n1);
    CheckSplit(n0 / W, Wrap(n0), n1 / W, Wrap(n1), wait);
  }

  // An elapsed time of 2^32 + 1 ticks passes unnoticed for a wait of 5.
  lemma CheckCanMiss()
    ensures !CheckAt(SnapshotAt(W - 1), 5, 2 * W).expired
  {
    assert SnapshotAt(W - 1) == Snapshot(0, W - 1);
    assert SnapshotAt(2 * W) == Snapshot(2, 0);
  }

  // ----- the budget over many checks -----------------------------------------------------------

  lemma CheckStep(n0: nat, n1: nat, wait: nat)
    requires n0 <= n1 < n0 + W && wait < MAX_DELAY
    ensures CheckAt(SnapshotAt(n0), wait, n1)
         == if n1 - n0 >= wait then Checked(true, SnapshotAt(n0), 0)
            else Checked(false, SnapshotAt(n1), wait - (n1 - n0))
  {
    SplitOf(n0);
    SplitOf(n1);
    TickSubWraps(n1, n0);
  }

  // The checks at the given times, up to the first that reports expiry.
  function Rechecks(since: Snapshot, wait: nat, times: seq<nat>): Checked
    decreases |times|
  {
    if times == [] then Checked(false, since, wait)
    else
      var c := CheckAt(since, wait, times[0]);
      if c.expired then c else Rechecks(c.since, c.wait, times[1..])
  }

  // Each check comes fewer than 2^32 ticks after the one before.
  predicate Often(n0: nat, times: seq<nat>)
    decreases |times|
  {
    times == [] || (n0 <= times[0] < n0 + W && Often(times[0], times[1..]))
  }

  lemma {:induction false} LastIsLatest(n0: nat, times: seq<nat>)
    requires Often(n0, times) && times != []
    ensures n0 <= times[0] <= times[|times| - 1]
    decreases |times|
  {
    if |times| > 1 {
      LastIsLatest(times[0], times[1..]);
    }
  }

  // However often the block time is re-checked, expiry is reported exactly when it has passed since
  // the first snapshot, and until then what is left and what has passed add up to it.
  lemma {:induction false} BudgetIsKept(n0: nat, wait: nat, times: seq<nat>)
    requires Often(n0, times) && wait < MAX_DELAY && times != []
    ensures var c, last := Rechecks(SnapshotAt(n0), wait, times), times[|times| - 1];
            && c.expired == (last - n0 >= wait)
            && (!c.expired ==> c.wait + (last - n0) == wait && c.since == SnapshotAt(last))
    decreases |times|
  {
    hide CheckAt, SnapshotAt;
    CheckStep(n0, times[0], wait);
    LastIsLatest(n0, times);
    if |times| > 1 && times[0] - n0 < wait {
      BudgetIsKept(times[0], wait - (times[0] - n0), times[1..]);
    }
  }

  lemma {:induction false} ForeverNeverExpires(since: Snapshot, times: seq<nat>)
    ensures Rechecks(since, MAX_DELAY, times) == Checked(false, since, MAX_DELAY)
    decreases |times|
  {
    if times != [] {
      ForeverNeverExpires(since, times[1..]);
    }
  }

  // ----- xTaskDelayUntil -----------------------------------------------------------------------

  datatype DelayCall = DelayCall(delays: bool, wake: nat, ticks: nat)

  // wake is what is stored in pxPreviousWakeTime, ticks the block time when the task is to block.
  function DelayUntil(tick: nat, previous: nat, increment: nat): DelayCall {
    var wake := TickAdd(previous, increment);
    var delays := if tick < previous then wake < previous && wake > tick else wake < previous || wake > tick;
    DelayCall(delays, wake, if delays then TickSub(wake, tick) else 0)
  }

  lemma DelayUntilSplit(e0: nat, v0: nat, e1: nat, v1: nat, increment: nat)
    requires v0 < W && v1 < W && e0 * W + v0 <= e1 * W + v1 < e0 * W + v0 + W && 0 < increment < W
    ensures var u, ahead := DelayUntil(v1, v0, increment), (e0 * W + v0) + increment - (e1 * W + v1);
            u.delays == (ahead > 0) && u.ticks == if ahead > 0 then ahead else 0
  {
    assert e1 == e0 || e1 == e0 + 1;
    NextEpoch(e0);
  }

  // Through any number of wraps: the new wake time is increment after the old one, and the task
  // blocks, until just then, exactly if that time is still to come.
  lemma DelayUntilIsExact(now: nat, previous: nat, increment: nat)
    requires previous <= now < previous + W && 0 < increment < W
    ensures DelayUntil(Wrap(now), Wrap(previous), increment)
         == DelayCall(now < previous + increment, Wrap(previous + increment),
                      if now < previous + increment then previous + increment - now else 0)
  {
    SplitOf(now);
    SplitOf(previous);
    TickAddWraps(previous, increment);
    WrapBelow(increment);
    WrapBelow(now);
    WrapBelow(previous);
    hide Wrap;
    DelayUntilSplit(previous / W, Wrap(previous), now / W, Wrap(now), increment);
  }

  method xTaskDelayUntil(s: Scheduler.Scheduler, pxPreviousWakeTime: nat, xTimeIncrement: nat)
    returns (xShouldDelay: bool, xTimeToWake: nat)
    requires Valid(s.State()) && Running(s.State()) && s.uxSchedulerSuspended == 0
    requires pxPreviousWakeTime < W && 0 < xTimeIncrement < W
    modifies s
    ensures var u := DelayUntil(old(s.xTickCount), pxPreviousWakeTime, xTimeIncrement);
            var a := KernelResume.SuspendAll(old(s.State()));
            var b := if u.delays then AddCurrentTaskToDelayedList(a, u.ticks, false, NoEvent) else a;
            xShouldDelay == u.delays && xTimeToWake == u.wake && s.State() == KernelResume.ResumeAll(b)
  {
    hide Valid, AddCurrentTaskToDelayedList, KernelResume.ResumeAll;
    ValidStructure(s.State());
    SuspendAllRefines(s.State());
    s.vTaskSuspendAll();
    var xConstTickCount := s.xTickCount;
    xTimeToWake := TickAdd(pxPreviousWakeTime, xTimeIncrement);
    xShouldDelay := false;
    if xConstTickCount < pxPreviousWakeTime {
      if xTimeToWake < pxPreviousWakeTime && xTimeToWake > xConstTickCount {
        xShouldDelay := true;
      }
    } else {
      if xTimeToWake < pxPreviousWakeTime || xTimeToWake > xConstTickCount {
        xShouldDelay := true;
      }
    }
    if xShouldDelay {
      SuspendedBlocks(s.State(), TickSub(xTimeToWake, xConstTickCount));
      s.prvAddCurrentTaskToDelayedList(TickSub(xTimeToWake, xConstTickCount), false, NoEvent);
    }
    var xAlreadyYielded := s.xTaskResumeAll();
  }

  lemma SuspendedBlocks(s: Kernel, d: nat)
    requires Valid(s) && Running(s) && 0 < d < W
    ensures Valid(AddCurrentTaskToDelayedList(s, d, false, NoEvent)) && s.current in s.value
    ensures AddCurrentTaskToDelayedList(s, d, false, NoEvent).nest == s.nest
  {
    BlockValid(s, d, false, NoEvent);
  }

  lemma NothingToMakeUpFor(a: Delays, t: Task, d: nat)
    requires a.nest == 0 && a.pended == 0 && forall u :: u in a.event ==> a.event[u] != PendingReady
    ensures var b := Block(DelayModel.SuspendAll(a), t, d, false, NoEvent);
            DelayModel.ResumeAll(b) == Block(a, t, d, false, NoEvent)
  {
    var b := Block(DelayModel.SuspendAll(a), t, d, false, NoEvent).(nest := 0);
    assert ReleasePending(b).phase == b.phase && ReleasePending(b).event == b.event;
  }

  lemma BlocksThroughResume(s: Kernel, d: nat)
    requires Valid(s) && Running(s) && s.nest == 0 && 0 < d < W
    ensures View(KernelResume.ResumeAll(AddCurrentTaskToDelayedList(KernelResume.SuspendAll(s), d, false, NoEvent)))
         == Block(View(s), s.current, d, false, NoEvent)
  {
    hide Consistent, Structure, Phases, AddCurrentTaskToDelayedList, KernelResume.ResumeAll, Block;
    hide DelayModel.ResumeAll;
    ValidStructure(s);
    NonePending(s);
    ViewEvent(s);
    SuspendAllRefines(s);
    SuspendedBlocks(KernelResume.SuspendAll(s), d);
    BlockView(KernelResume.SuspendAll(s), d, false, NoEvent);
    ResumeAllRefines(AddCurrentTaskToDelayedList(KernelResume.SuspendAll(s), d, false, NoEvent));
    NothingToMakeUpFor(View(s), s.current, d);
  }

  // Called when the unbounded clock stands at now, the task blocks until exactly previous + increment.
  lemma DelayUntilBlocks(s: Kernel, previous: nat, increment: nat)
    requires Valid(s) && Running(s) && s.nest == 0 && 0 < increment < W
    requires previous <= View(s).clock < previous + W && View(s).clock < previous + increment
    ensures var u := DelayUntil(s.tick, Wrap(previous), increment);
            var b := AddCurrentTaskToDelayedList(KernelResume.SuspendAll(s), u.ticks, false, NoEvent);
            && u.delays && u.wake == Wrap(previous + increment)
            && View(KernelResume.ResumeAll(b))
               == Block(View(s), s.current, previous + increment - View(s).clock, false, NoEvent)
  {
    hide Valid, AddCurrentTaskToDelayedList, KernelResume.ResumeAll, DelayUntil, Block;
    ValidStructure(s);
    KernelSnapshot(s);
    DelayUntilIsExact(View(s).clock, previous, increment);
    BlocksThroughResume(s, previous + increment - View(s).clock);
  }

  // calls[k] is when the k-th call is made.
  function WakeTimes(calls: seq<nat>, previous: nat, increment: nat): seq<DelayCall>
    decreases |calls|
  {
    if calls == [] then []
    else
      var u := DelayUntil(Wrap(calls[0]), previous, increment);
      [u] + WakeTimes(calls[1..], u.wake, increment)
  }

  // Each call is made once the task runs again, fewer than 2^32 ticks after the wake time before it.
  predicate Periodic(calls: seq<nat>, start: nat, increment: nat) {
    forall k :: 0 <= k < |calls| ==> Nth(start, increment, k) <= calls[k] < Nth(start, increment, k) + W
  }

  lemma PeriodicRest(calls: seq<nat>, start: nat, increment: nat)
    requires calls != [] && Periodic(calls, start, increment)
    ensures Periodic(calls[1..], start + increment, increment)
    ensures start <= calls[0] < start + W
  {
    hide Nth;
    NthNext(start, increment, 0);
    forall k | 0 <= k < |calls[1..]|
      ensures Nth(start + increment, increment, k) <= calls[1..][k] < Nth(start + increment, increment, k) + W
    {
      NthNext(start, increment, k);
      assert calls[1..][k] == calls[k + 1];
    }
  }

  // A period does not drift: the k-th call, from 0, waits until start + (k + 1) * increment.
  lemma {:induction false} PeriodDoesNotDrift(calls: seq<nat>, start: nat, increment: nat)
    requires 0 < increment < W && Periodic(calls, start, increment)
    ensures |WakeTimes(calls, Wrap(start), increment)| == |calls|
    ensures forall k :: 0 <= k < |calls| ==>
              var wake := Nth(start, increment, k + 1);
              WakeTimes(calls, Wrap(start), increment)[k]
              == DelayCall(calls[k] < wake, Wrap(wake), if calls[k] < wake then wake - calls[k] else 0)
    decreases |calls|
  {
    hide DelayUntil, Wrap, Periodic, Nth;
    if calls != [] {
      var rest := WakeTimes(calls[1..], Wrap(start + increment), increment);
      PeriodicRest(calls, start, increment);
      NthNext(start, increment, 0);
      DelayUntilIsExact(calls[0], start, increment);
      PeriodDoesNotDrift(calls[1..], start + increment, increment);
      forall k | 0 <= k < |calls|
        ensures var wake := Nth(start, increment, k + 1);
                WakeTimes(calls, Wrap(start), increment)[k]
                == DelayCall(calls[k] < wake, Wrap(wake), if calls[k] < wake then wake - calls[k] else 0)
      {
        if k > 0 {
          NthNext(start, increment, k);
          assert WakeTimes(calls, Wrap(start), increment)[k] == rest[k - 1] && calls[1..][k - 1] == calls[k];
        }
      }
    }
  }
}
