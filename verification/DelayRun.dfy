/** What time-outs and wake-ups amount to over whole runs. */
module DelayRun {
  import opened Ticks
  import opened DelayModel

  // ----- a time-out comes exactly on time ------------------------------------------------------

  // The events that block, suspend or wake the task.
  predicate Touches(e: Event, t: Task) {
    match e
    case BlockEvent(u, _, _, _) => u == t
    case WakeEvent(u) => u == t
    case WakeNowEvent(u) => u == t
    case SuspendEvent(u) => u == t
    case _ => false
  }

  // t is blocked before tick number wake has been processed, and runnable afterwards.
  predicate Sleeps(a: Delays, t: Task, wake: nat) {
    && t in a.phase && t in a.event && a.event[t] != PendingReady
    && a.phase[t] == if a.clock < wake then Until(wake) else Runnable
  }

  lemma {:induction false} SleepsThroughReplay(a: Delays, n: nat, t: Task, wake: nat)
    requires Sleeps(a, t, wake)
    ensures Sleeps(Replay(a, n), t, wake)
    decreases n
  {
    if n > 0 {
      SleepsThroughReplay(ProcessTick(a), n - 1, t, wake);
    }
  }

  lemma SleepsThroughEvent(a: Delays, e: Event, t: Task, wake: nat)
    requires Sleeps(a, t, wake) && !Touches(e, t)
    ensures Sleeps(Happens(a, e), t, wake)
  {
    if e.ResumeAllEvent? && a.nest == 1 {
      SleepsThroughReplay(ReleasePending(a.(nest := 0)), a.pended, t, wake);
    }
  }

  lemma {:induction false} SleepsThroughRun(a: Delays, es: seq<Event>, t: Task, wake: nat)
    requires Sleeps(a, t, wake) && forall e :: e in es ==> !Touches(e, t)
    ensures Sleeps(Run(a, es), t, wake)
    decreases |es|
  {
    hide Sleeps, Happens, Touches;
    if es != [] {
      assert es[0] in es;
      SleepsThroughEvent(a, es[0], t, wake);
      SleepsThroughRun(Happens(a, es[0]), es[1..], t, wake);
    }
  }

  // A task that blocks for d ticks when the clock stands at T is blocked until tick T + d has been
  // processed and runnable from then on, unless something else blocks, wakes or suspends it.
  lemma DelayIsExact(a: Delays, es: seq<Event>, t: Task, d: nat, forever: bool, place: EventPlace)
    requires 0 < d && (d == MAX_DELAY ==> !forever) && place != PendingReady
    requires forall e :: e in es ==> !Touches(e, t)
    ensures Sleeps(Run(Block(a, t, d, forever, place), es), t, a.clock + d)
  {
    SleepsThroughRun(Block(a, t, d, forever, place), es, t, a.clock + d);
  }

  // ----- no wake-up is lost --------------------------------------------------------------------

  // t runs, or will as soon as the scheduler resumes.
  predicate Woken(a: Delays, t: Task) {
    && t in a.phase && t in a.event
    && (a.phase[t] == Runnable || (a.event[t] == PendingReady && a.nest > 0))
  }

  predicate Blocks(e: Event, t: Task) {
    match e
    case BlockEvent(u, _, _, _) => u == t
    case SuspendEvent(u) => u == t
    case _ => false
  }

  lemma {:induction false} RunnableThroughReplay(a: Delays, n: nat, t: Task)
    requires t in a.phase && t in a.event && a.phase[t] == Runnable
    ensures var r := Replay(a, n); t in r.phase && t in r.event && r.phase[t] == Runnable && r.nest == a.nest
    decreases n
  {
    if n > 0 {
      RunnableThroughReplay(ProcessTick(a), n - 1, t);
    }
  }

  lemma RunnableThroughEvent(a: Delays, e: Event, t: Task)
    requires t in a.phase && t in a.event && a.phase[t] == Runnable && !Blocks(e, t)
    ensures t in Happens(a, e).phase && t in Happens(a, e).event && Happens(a, e).phase[t] == Runnable
  {
    if e.ResumeAllEvent? && a.nest == 1 {
      RunnableThroughReplay(ReleasePending(a.(nest := 0)), a.pended, t);
    }
  }

  lemma WokenThroughEvent(a: Delays, e: Event, t: Task)
    requires Woken(a, t) && !Blocks(e, t)
    ensures Woken(Happens(a, e), t)
  {
    if e.ResumeAllEvent? && a.nest == 1 {
      RunnableThroughReplay(ReleasePending(a.(nest := 0)), a.pended, t);
    }
  }

  lemma {:induction false} WokenThroughRun(a: Delays, es: seq<Event>, t: Task)
    requires Woken(a, t) && forall e :: e in es ==> !Blocks(e, t)
    ensures Woken(Run(a, es), t)
    decreases |es|
  {
    hide Woken, Happens, Blocks;
    if es != [] {
      assert es[0] in es;
      WokenThroughEvent(a, es[0], t);
      WokenThroughRun(Happens(a, es[0]), es[1..], t);
    }
  }

  // A task woken by an event is runnable whenever the scheduler is not suspended, until it blocks again.
  lemma WakeIsNotLost(a: Delays, es: seq<Event>, t: Task)
    requires t in a.phase && forall e :: e in es ==> !Blocks(e, t)
    ensures Woken(Run(Wake(a, t), es), t)
    ensures Run(Wake(a, t), es).nest == 0 ==> Run(Wake(a, t), es).phase[t] == Runnable
  {
    WokenThroughRun(Wake(a, t), es, t);
  }

  // ----- no tick is lost -----------------------------------------------------------------------

  function Ticked(es: seq<Event>): nat {
    if es == [] then 0 else (if es[0].TickEvent? then 1 else 0) + Ticked(es[1..])
  }

  // How often the count of pended ticks has wrapped.
  function Wraps(a: Delays, es: seq<Event>): nat
    decreases |es|
  {
    if es == [] then 0
    else (if es[0].TickEvent? && a.nest > 0 && a.pended == W - 1 then 1 else 0) + Wraps(Happens(a, es[0]), es[1..])
  }

  lemma {:induction false} ReplayClock(a: Delays, n: nat)
    ensures Replay(a, n).clock == a.clock + n && Replay(a, n).pended == a.pended && Replay(a, n).nest == a.nest
    decreases n
  {
    if n > 0 {
      ReplayClock(ProcessTick(a), n - 1);
    }
  }

  lemma EventClock(a: Delays, e: Event)
    requires a.pended < W
    ensures var b := Happens(a, e);
            && b.pended < W
            && b.clock + b.pended + (if e.TickEvent? && a.nest > 0 && a.pended == W - 1 then W else 0)
               == a.clock + a.pended + if e.TickEvent? then 1 else 0
  {
    if e.ResumeAllEvent? && a.nest == 1 {
      ReplayClock(ReleasePending(a.(nest := 0)), a.pended);
    }
  }

  // Every tick is processed or pended, but for W ticks each time the count of pended ticks wraps.
  lemma {:induction false} TicksConserved(a: Delays, es: seq<Event>)
    requires a.pended < W
    ensures var b := Run(a, es);
            b.pended < W && b.clock + b.pended + Wraps(a, es) * W == a.clock + a.pended + Ticked(es)
    decreases |es|
  {
    hide Happens;
    if es != [] {
      EventClock(a, es[0]);
      TicksConserved(Happens(a, es[0]), es[1..]);
    }
  }

  // None is lost when the scheduler is never suspended for 2^32 ticks, and conversely.
  lemma NoneLostIff(a: Delays, es: seq<Event>)
    requires a.pended < W
    ensures Run(a, es).clock + Run(a, es).pended == a.clock + a.pended + Ticked(es) <==> Wraps(a, es) == 0
  {
    TicksConserved(a, es);
  }

  // In particular when fewer than 2^32 ticks arrive.
  lemma {:induction false} FewTicksNoneLost(a: Delays, es: seq<Event>)
    requires a.pended + Ticked(es) < W
    ensures Wraps(a, es) == 0
    decreases |es|
  {
    hide Happens;
    if es != [] {
      EventPended(a, es[0]);
      FewTicksNoneLost(Happens(a, es[0]), es[1..]);
    }
  }

  lemma EventPended(a: Delays, e: Event)
    requires a.pended + (if e.TickEvent? then 1 else 0) < W
    ensures Happens(a, e).pended <= a.pended + if e.TickEvent? then 1 else 0
  {
    if e.ResumeAllEvent? && a.nest == 1 {
      ReplayClock(ReleasePending(a.(nest := 0)), a.pended);
    }
  }
}
