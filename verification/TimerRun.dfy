/** What every step of the timer task keeps: callbacks are neither missed, repeated nor early. */
module TimerRun {
  import opened Ticks
  import opened ListSpec
  import opened TimerModel

  // ----- the invariant ---------------------------------------------------------------------------

  ghost predicate ListOk(q: seq<Timer>, v: map<Timer, nat>) {
    NoDup(q) && Sorted(q, v) && forall t :: t in q ==> v[t] < W
  }

  predicate Listed(s: Timers, t: Timer) {
    t in s.current || t in s.overflow
  }

  // When the timer expires, in unbounded time: the overflow list is that of the next epoch.
  function Expiry(s: Timers, t: Timer): nat {
    if t in s.current then s.epoch * W + ValueOf(s.value, t) else (s.epoch + 1) * W + ValueOf(s.value, t)
  }

  // As many callbacks have been made as there were expiries, and none was made before its time.
  predicate OnSchedule(s: Timers, t: Timer, n: nat) {
    && Known(s, t) && s.active[t] && t in s.first && t in s.calls
    && Expiry(s, t) == Nth(s.first[t], s.period[t], s.calls[t])
    && (s.calls[t] > 0 ==> Expiry(s, t) <= n + s.period[t])
  }

  ghost predicate Apart(a: seq<Timer>, b: seq<Timer>) {
    forall t :: t in a ==> t !in b
  }

  // n is the unbounded time up to which timers have been looked at.
  ghost predicate Inv(s: Timers, n: nat) {
    && ListOk(s.current, s.value) && ListOk(s.overflow, s.value) && Apart(s.current, s.overflow)
    && (forall t :: Listed(s, t) ==> OnSchedule(s, t, n))
    && s.last < W
  }

  // The unbounded time of the last sample.
  function Sampled(s: Timers): nat {
    s.epoch * W + s.last
  }

  // ----- putting one timer into its list ---------------------------------------------------------

  // r is s with timer t put into the list of its expiry x, after k more callbacks.
  ghost predicate PutAt(s: Timers, t: Timer, x: nat, k: nat, r: Timers) {
    && r == s.(value := r.value, current := r.current, overflow := r.overflow, calls := r.calls)
    && r.value == s.value[t := Wrap(x)]
    && s.epoch * W <= x < (s.epoch + 2) * W
    && (if x < (s.epoch + 1) * W then r.current == InsertByValue(s.current, r.value, t) && r.overflow == s.overflow
        else r.current == s.current && r.overflow == InsertByValue(s.overflow, r.value, t))
    && r.calls == if k == 0 then s.calls else s.calls[t := ValueOf(s.calls, t) + k]
  }

  lemma EpochOf(e: nat, v: nat)
    requires v < W
    ensures (e * W + v) / W == e && Wrap(e * W + v) == v && (e + 1) * W == e * W + W && (e + 2) * W == e * W + W + W
  {
    SplitUnique(e, v);
    NextEpoch(e);
    NextEpoch(e + 1);
  }

  lemma InsertExact(s: Timers, t: Timer, command: nat, now: nat)
    requires Known(s, t) && now < W && command <= s.epoch * W + now < command + W
    ensures var p, c := s.period[t], Wrap(command);
            var d := Decide(TickAdd(c, p), now, c, p);
            && TickAdd(c, p) == Wrap(command + p)
            && (d.Fire? <==> command + p <= s.epoch * W + now)
            && (!d.Fire? ==> PutAt(s, t, command + p, 0, Insert(s, t, TickAdd(c, p), d)))
  {
    EpochOf(s.epoch, now);
    DecideExact(command, s.epoch * W + now, s.period[t]);
    WrapBelow(command + s.period[t]);
    hide Wrap, Decide, InsertByValue;
  }

  // The number of periods that have passed between an expiry and the time it is noticed.
  function Backlog(expired: nat, n: nat, period: nat): nat
    requires period > 0
    decreases n - expired
  {
    if expired + period > n then 0 else 1 + Backlog(expired + period, n, period)
  }

  lemma {:induction false} BacklogNext(expired: nat, n: nat, period: nat)
    requires period > 0 && expired <= n
    ensures var x := Nth(expired, period, Backlog(expired, n, period) + 1); n < x <= n + period
    decreases n - expired
  {
    hide Nth;
    NthNext(expired, period, 0);
    if expired + period <= n {
      BacklogNext(expired + period, n, period);
      NthNext(expired, period, Backlog(expired, n, period));
    }
  }

  lemma FiredStep(s: Timers, t: Timer, next: nat, x: nat, k: nat, r: Timers)
    requires PutAt(Call(Insert(s, t, next, Fire), t), t, x, k, r)
    ensures PutAt(s, t, x, k + 1, r)
  {
    hide Wrap, InsertByValue;
    assert s.value[t := next][t := Wrap(x)] == s.value[t := Wrap(x)];
    var c := ValueOf(s.calls, t) + 1;
    assert s.calls[t := c][t := c + k] == s.calls[t := c + k];
  }

  lemma InsertFired(s: Timers, t: Timer, next: nat)
    ensures Insert(s, t, next, Fire) == s.(value := s.value[t := next])
  {
  }

  // The loop that catches up ends at the first expiry after now, with one callback for each before.
  lemma {:induction false} ReloadExact(s: Timers, t: Timer, expired: nat, now: nat)
    requires Known(s, t) && now < W && expired <= s.epoch * W + now < expired + W
    ensures Wrap(expired) < W
    ensures var k := Backlog(expired, s.epoch * W + now, s.period[t]);
            PutAt(s, t, Nth(expired, s.period[t], k + 1), k, Reload(s, t, Wrap(expired), now))
    decreases s.epoch * W + now - expired
  {
    hide Wrap, Decide, Insert, PutAt, Nth;
    var p, n := s.period[t], s.epoch * W + now;
    WrapBelow(expired);
    InsertExact(s, t, expired, now);
    NthNext(expired, p, 0);
    if expired + p <= n {
      var k := Backlog(expired + p, n, p);
      WrapBelow(expired + p);
      var s1 := Call(Insert(s, t, Wrap(expired + p), Fire), t);
      InsertFired(s, t, Wrap(expired + p));
      ReloadExact(s1, t, expired + p, now);
      NthNext(expired, p, k + 1);
      FiredStep(s, t, Wrap(expired + p), Nth(expired, p, k + 2), k, Reload(s1, t, Wrap(expired + p), now));
    }
  }

  // ----- what putting a timer keeps --------------------------------------------------------------

  lemma SortedElsewhere(q: seq<Timer>, v: map<Timer, nat>, t: Timer, x: nat)
    requires ListOk(q, v) && t !in q
    ensures ListOk(q, v[t := x])
  {
  }

  lemma InsertOk(q: seq<Timer>, v: map<Timer, nat>, t: Timer)
    requires ListOk(q, v) && t !in q && t in v && v[t] < W
    ensures ListOk(InsertByValue(q, v, t), v)
  {
    InsertByValueSorted(q, v, t);
    InsertByValueNoDup(q, v, t);
  }

  lemma PutLists(s: Timers, t: Timer, x: nat, k: nat, r: Timers)
    requires ListOk(s.current, s.value) && ListOk(s.overflow, s.value) && Apart(s.current, s.overflow)
    requires !Listed(s, t) && PutAt(s, t, x, k, r)
    ensures ListOk(r.current, r.value) && ListOk(r.overflow, r.value) && Apart(r.current, r.overflow)
    ensures forall u :: u != t ==> (u in r.current <==> u in s.current) && (u in r.overflow <==> u in s.overflow)
    ensures Listed(r, t) && Expiry(r, t) == x
  {
    hide ListOk, Wrap;
    WrapBelow(x);
    SortedElsewhere(s.current, s.value, t, Wrap(x));
    SortedElsewhere(s.overflow, s.value, t, Wrap(x));
    InsertOk(s.current, r.value, t);
    InsertOk(s.overflow, r.value, t);
    WrapInEpoch(s.epoch, x);
  }

  lemma WrapInEpoch(e: nat, x: nat)
    requires e * W <= x < (e + 2) * W
    ensures x == (if x < (e + 1) * W then e * W else (e + 1) * W) + Wrap(x)
  {
    hide Wrap;
    NextEpoch(e);
    NextEpoch(e + 1);
    if x < (e + 1) * W {
      SplitUnique(e, x - e * W);
    } else {
      SplitUnique(e + 1, x - (e + 1) * W);
    }
  }

  lemma PutKeepsOther(s: Timers, t: Timer, x: nat, k: nat, r: Timers, u: Timer, n: nat)
    requires PutAt(s, t, x, k, r) && u != t && OnSchedule(s, u, n) && (u in r.current <==> u in s.current)
    ensures OnSchedule(r, u, n) && OnSchedule(Call(r, t), u, n)
  {
    hide InsertByValue, Wrap, Nth;
  }

  // Timer t joins its list, after k callbacks and perhaps one more.
  lemma PutKeeps(s: Timers, t: Timer, x: nat, k: nat, r: Timers, n: nat)
    requires Inv(s, n) && !Listed(s, t) && PutAt(s, t, x, k, r)
    ensures OnSchedule(r, t, n) ==> Inv(r, n)
    ensures OnSchedule(Call(r, t), t, n) ==> Inv(Call(r, t), n)
  {
    hide ListOk, Apart, PutAt, OnSchedule;
    PutLists(s, t, x, k, r);
    PutSame(s, t, x, k, r);
    forall u | Listed(r, u) && u != t ensures OnSchedule(r, u, n) && OnSchedule(Call(r, t), u, n) {
      assert Listed(s, u);
      PutKeepsOther(s, t, x, k, r, u, n);
    }
  }

  lemma PutSame(s: Timers, t: Timer, x: nat, k: nat, r: Timers)
    requires PutAt(s, t, x, k, r)
    ensures r.last == s.last && r.epoch == s.epoch && r.period == s.period && r.reload == s.reload
    ensures r.active == s.active && r.first == s.first
    ensures ValueOf(r.calls, t) == ValueOf(s.calls, t) + k && (t in s.calls ==> t in r.calls)
  {
  }

  lemma NthAdd(start: nat, increment: nat, i: nat, j: nat)
    ensures Nth(Nth(start, increment, i), increment, j) == Nth(start, increment, i + j)
  {
    assert (i + j) * increment == i * increment + j * increment;
  }

  // ----- processing an expired timer -------------------------------------------------------------

  // A timer on no list has expired at the time its next callback was due.
  ghost predicate Due(s: Timers, t: Timer, expired: nat) {
    && Known(s, t) && s.active[t] && t in s.first && t in s.calls
    && expired == Nth(s.first[t], s.period[t], s.calls[t])
  }

  lemma ReloadKeeps(s: Timers, t: Timer, expired: nat, now: nat, n: nat)
    requires Inv(s, n) && !Listed(s, t) && Due(s, t, expired) && now < W
    requires n == s.epoch * W + now && expired <= n < expired + W
    ensures Wrap(expired) < W
    ensures var r := Call(Reload(s, t, Wrap(expired), now), t);
            && Inv(r, n) && Listed(r, t) && Expiry(r, t) > n && r.epoch == s.epoch && r.last == s.last
            && (forall u :: u != t ==> (u in r.current <==> u in s.current))
            && (Expiry(r, t) >= (s.epoch + 1) * W ==> r.current == s.current)
  {
    hide Inv, PutAt, Reload, ListOk, Nth, Wrap, Apart;
    WrapBelow(expired);
    var p, k := s.period[t], Backlog(expired, n, s.period[t]);
    var x, r := Nth(expired, p, k + 1), Reload(s, t, Wrap(expired), now);
    ReloadExact(s, t, expired, now);
    BacklogNext(expired, n, p);
    NthAdd(s.first[t], p, s.calls[t], k + 1);
    InvLists(s, n);
    PutLists(s, t, x, k, r);
    PutSame(s, t, x, k, r);
    PutKeeps(s, t, x, k, r, n);
    PutCurrent(s, t, x, k, r);
  }

  lemma InvLists(s: Timers, n: nat)
    requires Inv(s, n)
    ensures ListOk(s.current, s.value) && ListOk(s.overflow, s.value) && Apart(s.current, s.overflow) && s.last < W
    ensures forall t :: Listed(s, t) ==> OnSchedule(s, t, n)
  {
  }

  lemma PutCurrent(s: Timers, t: Timer, x: nat, k: nat, r: Timers)
    requires PutAt(s, t, x, k, r)
    ensures x >= (s.epoch + 1) * W ==> r.current == s.current
  {
  }

  lemma StopKeeps(s: Timers, t: Timer, n: nat)
    requires Inv(s, n) && !Listed(s, t)
    ensures Inv(Call(s.(active := s.active[t := false]), t), n) && Inv(s.(active := s.active[t := false]), n)
  {
    hide ListOk, Apart, Nth;
    var r := s.(active := s.active[t := false]);
    forall u | Listed(r, u) ensures OnSchedule(r, u, n) && OnSchedule(Call(r, t), u, n) {
      assert Listed(s, u) && OnSchedule(s, u, n);
    }
  }

  // Whether it is reloaded or not, the timer has been called for everything up to now.
  lemma ExpiredKeeps(s: Timers, t: Timer, expired: nat, now: nat, n: nat)
    requires Inv(s, n) && !Listed(s, t) && Due(s, t, expired) && now < W
    requires n == s.epoch * W + now && expired <= n < expired + W
    ensures Wrap(expired) < W
    ensures var r := Expired(s, t, Wrap(expired), now);
            && Inv(r, n) && r.epoch == s.epoch && r.last == s.last
            && (Listed(r, t) ==> Expiry(r, t) > n)
            && (forall u :: u != t ==> (u in r.current <==> u in s.current))
            && (now == W - 1 ==> r.current == s.current)
  {
    hide Inv, Reload, Wrap, Listed;
    WrapBelow(expired);
    NextEpoch(s.epoch);
    if s.reload[t] {
      ReloadKeeps(s, t, expired, now, n);
    } else {
      StopKeeps(s, t, n);
      Unlisted(s, t);
    }
  }

  lemma Unlisted(s: Timers, t: Timer)
    requires !Listed(s, t)
    ensures !Listed(Call(s.(active := s.active[t := false]), t), t)
  {
  }

  lemma HeadLeaves(s: Timers, n: nat)
    requires Inv(s, n) && s.current != []
    ensures var t, r := s.current[0], s.(current := s.current[1..]);
            && Inv(r, n) && !Listed(r, t) && t in s.value && s.value[t] < W
            && Due(r, t, s.epoch * W + s.value[t]) && HeadKnown(s)
            && forall u :: u in r.current ==> u in s.current
  {
    var t, r := s.current[0], s.(current := s.current[1..]);
    assert t in s.current && Listed(s, t) && OnSchedule(s, t, n);
    hide Nth;
    forall u | Listed(r, u) ensures OnSchedule(r, u, n) {
      assert Listed(s, u) && OnSchedule(s, u, n);
    }
  }

  lemma InvLater(s: Timers, n: nat, m: nat)
    requires Inv(s, n) && n <= m
    ensures Inv(s, m)
  {
    hide ListOk, Apart;
  }

  lemma ProcessHeadKeeps(s: Timers, now: nat, n: nat)
    requires Inv(s, n) && s.current != [] && now < W && n <= s.epoch * W + now
    requires ValueOf(s.value, s.current[0]) <= now
    ensures HeadKnown(s)
    ensures var r := ProcessHead(s, now);
            && Inv(r, s.epoch * W + now) && r.epoch == s.epoch && r.last == s.last
            && (Listed(r, s.current[0]) ==> Expiry(r, s.current[0]) > s.epoch * W + now)
            && (now == W - 1 ==> r.current == s.current[1..])
  {
    hide Inv, Expired, Due, Nth, OnSchedule, Listed, Known;
    HeadLeaves(s, n);
    var t, r := s.current[0], s.(current := s.current[1..]);
    EpochOf(s.epoch, s.value[t]);
    InvLater(r, n, s.epoch * W + now);
    ExpiredKeeps(r, t, s.epoch * W + s.value[t], now, s.epoch * W + now);
  }

  // ----- the wrap of the tick count --------------------------------------------------------------

  // On rollover every timer left in the current list is processed, and none is put back into it.
  lemma {:induction false} DrainKeeps(s: Timers, n: nat)
    requires Inv(s, n) && n <= s.epoch * W + (W - 1)
    ensures var d := DrainCurrent(s);
            d.current == [] && Inv(d, s.epoch * W + (W - 1)) && d.epoch == s.epoch && d.last == s.last
    decreases |s.current|
  {
    hide Inv, ProcessHead, Known;
    InvLater(s, n, s.epoch * W + (W - 1));
    if s.current != [] {
      HeadLeaves(s, n);
      ProcessHeadKeeps(s, MAX_DELAY, n);
      DrainKeeps(ProcessHead(s, MAX_DELAY), s.epoch * W + (W - 1));
    }
  }

  // The swap renames the overflow list to the current one of the next epoch: no expiry changes.
  lemma SwapKeeps(d: Timers, n: nat)
    requires Inv(d, n) && d.current == []
    ensures Inv(d.(current := d.overflow, overflow := [], epoch := d.epoch + 1), n)
    ensures var r := d.(current := d.overflow, overflow := [], epoch := d.epoch + 1);
            forall t :: t in d.overflow ==> Expiry(r, t) == Expiry(d, t)
  {
    hide Nth;
    var r := d.(current := d.overflow, overflow := [], epoch := d.epoch + 1);
    assert ListOk([], d.value);
    hide ListOk;
    forall t | Listed(r, t) ensures OnSchedule(r, t, n) {
      assert Listed(d, t);
    }
  }

  lemma SwitchKeeps(s: Timers, n: nat)
    requires Inv(s, n) && n <= s.epoch * W + (W - 1)
    ensures Inv(Switch(s), s.epoch * W + (W - 1))
    ensures Switch(s).epoch == s.epoch + 1 && Switch(s).last == s.last && Switch(s).overflow == []
  {
    hide Inv, DrainCurrent;
    DrainKeeps(s, n);
    SwapKeeps(DrainCurrent(s), s.epoch * W + (W - 1));
  }

  lemma LastKeeps(s: Timers, last: nat, n: nat)
    requires Inv(s, n) && last < W
    ensures Inv(s.(last := last), n)
  {
    hide ListOk, Apart, Nth;
    var r := s.(last := last);
    forall t | Listed(r, t) ensures OnSchedule(r, t, n) {
      assert Listed(s, t);
    }
  }

  lemma EpochNear(e: nat, v: nat, f: nat, w: nat)
    requires v < W && w < W && e * W + v <= f * W + w < e * W + v + W
    ensures f == if w < v then e + 1 else e
  {
  }

  // If fewer than 2^32 ticks have passed since the last sample, a smaller tick value means one wrap.
  lemma SampleEpoch(s: Timers, n: nat)
    requires s.last < W && Sampled(s) <= n < Sampled(s) + W
    ensures n == (if Wrap(n) < s.last then s.epoch + 1 else s.epoch) * W + Wrap(n) && Wrap(n) < W
  {
    SplitOf(n);
    WrapBelow(n);
    hide Wrap;
    NextEpoch(s.epoch);
    EpochNear(s.epoch, s.last, n / W, Wrap(n));
  }

  lemma SampleKeeps(s: Timers, n: nat)
    requires Inv(s, Sampled(s)) && Sampled(s) <= n < Sampled(s) + W
    ensures Wrap(n) < W
    ensures var r := Sample(s, Wrap(n)); Inv(r, n) && Sampled(r) == n && r.last == Wrap(n)
  {
    InvLists(s, Sampled(s));
    SampleEpoch(s, n);
    hide Inv, Switch, Wrap;
    NextEpoch(s.epoch);
    if Wrap(n) < s.last {
      SwitchKeeps(s, Sampled(s));
      InvLater(Switch(s), s.epoch * W + (W - 1), n);
      LastKeeps(Switch(s), Wrap(n), n);
    } else {
      InvLater(s, Sampled(s), n);
      LastKeeps(s, Wrap(n), n);
    }
  }

  // What sampling leaves alone.
  ghost predicate Same(s: Timers, r: Timers) {
    && r.period == s.period && r.reload == s.reload && r.first == s.first
    && (forall t :: t in s.active ==> t in r.active)
  }

  // Nothing has happened to timer u.
  predicate Untouched(s: Timers, r: Timers, u: Timer) {
    (Listed(s, u) <==> Listed(r, u)) && ValueOf(r.calls, u) == ValueOf(s.calls, u)
  }

  lemma {:induction false} ReloadSame(s: Timers, t: Timer, expired: nat, now: nat)
    requires Known(s, t) && expired < W && now < W
    ensures var r := Reload(s, t, expired, now);
            Same(s, r) && r.active == s.active && forall u :: u != t ==> Untouched(s, r, u)
    decreases TickSub(now, expired)
  {
    var next := TickAdd(expired, s.period[t]);
    var d := Decide(next, now, expired, s.period[t]);
    FiresIffElapsed(expired, s.period[t], now);
    var s1 := Call(Insert(s, t, next, d), t);
    if d.Fire? {
      ReloadSame(s1, t, next, now);
    }
    hide Decide, Untouched;
    forall u | u != t ensures Untouched(s, Reload(s, t, expired, now), u) {
      InsertUntouched(s, t, next, d, u);
      if d.Fire? {
        UntouchedTwice(s, s1, Reload(s1, t, next, now), u);
      }
    }
  }

  lemma InsertUntouched(s: Timers, t: Timer, next: nat, d: Outcome, u: Timer)
    requires u != t
    ensures Untouched(s, Insert(s, t, next, d), u) && Untouched(s, Call(Insert(s, t, next, d), t), u)
  {
  }

  lemma HeadApart(s: Timers, u: Timer)
    requires s.current != [] && u != s.current[0]
    ensures Untouched(s, s.(current := s.current[1..]), u)
  {
    if u in s.current {
      InTail(s.current, u);
    }
    TailIn(s.current, u);
  }

  lemma TailIn(q: seq<Timer>, t: Timer)
    requires q != []
    ensures t in q[1..] ==> t in q
  {
  }

  lemma ProcessHeadSame(s: Timers, now: nat)
    requires HeadKnown(s) && now < W
    ensures var r := ProcessHead(s, now); Same(s, r) && forall u :: u != s.current[0] ==> Untouched(s, r, u)
  {
    var r := s.(current := s.current[1..]);
    if s.reload[s.current[0]] {
      ReloadSame(r, s.current[0], ValueOf(s.value, s.current[0]), now);
    }
    hide Reload;
    forall u | u != s.current[0] ensures Untouched(s, ProcessHead(s, now), u) {
      HeadApart(s, u);
      assert s.reload[s.current[0]] ==> Untouched(r, Reload(r, s.current[0], ValueOf(s.value, s.current[0]), now), u);
    }
  }

  lemma {:induction false} DrainSame(s: Timers)
    ensures var d := DrainCurrent(s); Same(s, d) && forall t :: t !in s.current ==> Untouched(s, d, t)
    decreases |s.current|
  {
    if HeadKnown(s) {
      var s' := ProcessHead(s, MAX_DELAY);
      ProcessHeadSame(s, MAX_DELAY);
      DrainMembers(s);
      assert s.current[0] in s.current;
      hide ProcessHead, Known, Untouched;
      if |s'.current| < |s.current| {
        DrainSame(s');
        forall t | t !in s.current ensures Untouched(s, DrainCurrent(s), t) {
          UntouchedTwice(s, s', DrainCurrent(s'), t);
        }
      }
    }
  }

  lemma UntouchedTwice(s: Timers, r: Timers, q: Timers, t: Timer)
    requires Untouched(s, r, t) && Untouched(r, q, t)
    ensures Untouched(s, q, t)
  {
  }

  // What is not in the current list does not get into it while it is drained.
  lemma DrainMembers(s: Timers)
    requires HeadKnown(s)
    ensures forall t :: t in ProcessHead(s, MAX_DELAY).current ==> t in s.current
  {
    var r := s.(current := s.current[1..]);
    assert forall t :: t in r.current ==> t in s.current;
    if s.reload[s.current[0]] {
      NoReentry(r, s.current[0], ValueOf(s.value, s.current[0]));
    }
  }

  lemma {:induction false} NoReentry(s: Timers, t: Timer, expired: nat)
    requires Known(s, t) && expired < W
    ensures Reload(s, t, expired, MAX_DELAY).current == s.current
    decreases TickSub(MAX_DELAY, expired)
  {
    var next := TickAdd(expired, s.period[t]);
    var d := Decide(next, MAX_DELAY, expired, s.period[t]);
    FiresIffElapsed(expired, s.period[t], MAX_DELAY);
    if d.Fire? {
      NoReentry(Call(Insert(s, t, next, d), t), t, next);
    }
  }

  lemma SampleSame(s: Timers, now: nat)
    ensures Same(s, Sample(s, now)) && forall t :: !Listed(s, t) ==> !Listed(Sample(s, now), t)
  {
    hide DrainCurrent;
    DrainSame(s);
    forall t | !Listed(s, t) ensures !Listed(Sample(s, now), t) {
      assert Untouched(s, DrainCurrent(s), t);
    }
  }

  // One timer of the drained list: an auto-reload timer stays listed, another does not.
  lemma {:induction false} DrainOne(s: Timers, t: Timer, n: nat)
    requires Inv(s, n) && n <= s.epoch * W + (W - 1) && t in s.current
    ensures var d := DrainCurrent(s);
            && t in s.reload && t in s.calls
            && (if s.reload[t] then Listed(d, t) else !Listed(d, t) && ValueOf(d.calls, t) == s.calls[t] + 1)
    decreases |s.current|
  {
    assert Listed(s, t);
    ScheduleParts(s, t, n);
    hide Inv, ProcessHead, Listed, Nth;
    InvLater(s, n, s.epoch * W + (W - 1));
    HeadLeaves(s, n);
    var h, s' := s.current[0], ProcessHead(s, MAX_DELAY);
    ProcessHeadKeeps(s, MAX_DELAY, n);
    ProcessHeadSame(s, MAX_DELAY);
    if t == h {
      DrainSame(s');
      HeadFate(s, n);
    } else {
      assert t in s.current[1..] by { InTail(s.current, t); }
      assert Untouched(s, s', t);
      DrainOne(s', t, s.epoch * W + (W - 1));
    }
  }

  lemma InTail(q: seq<Timer>, t: Timer)
    requires t in q && t != q[0]
    ensures t in q[1..]
  {
    var k :| 0 <= k < |q| && q[k] == t;
    assert q[1..][k - 1] == t;
  }

  lemma HeadFate(s: Timers, n: nat)
    requires Inv(s, n) && s.current != [] && HeadKnown(s)
    ensures var t, r := s.current[0], ProcessHead(s, MAX_DELAY);
            && t in s.calls && t !in r.current
            && (if s.reload[t] then Listed(r, t) else !Listed(r, t) && ValueOf(r.calls, t) == s.calls[t] + 1)
  {
    var t, r := s.current[0], s.(current := s.current[1..]);
    HeadLeaves(s, n);
    assert Due(r, t, s.epoch * W + s.value[t]);
    hide Inv, Nth;
    if s.reload[t] {
      ReloadLists(r, t, ValueOf(s.value, t), MAX_DELAY);
      NoReentry(r, t, ValueOf(s.value, t));
    }
  }

  lemma ScheduleParts(s: Timers, t: Timer, n: nat)
    requires Inv(s, n) && Listed(s, t)
    ensures t in s.calls && t in s.first && t in s.period && s.period[t] > 0 && t in s.reload && t in s.value
    ensures Expiry(s, t) == Nth(s.first[t], s.period[t], s.calls[t])
    ensures s.calls[t] > 0 ==> Expiry(s, t) <= n + s.period[t]
  {
    assert OnSchedule(s, t, n);
  }

  // The callbacks between two expiries of one schedule.
  lemma CallsBetween(first: nat, p: nat, c: nat, d: nat, end: nat)
    requires p > 0 && Nth(first, p, c) <= end < Nth(first, p, d) && (d > 0 ==> Nth(first, p, d) <= end + p)
    ensures d == c + 1 + (end - Nth(first, p, c)) / p
  {
    NthOrder(first, p, c, d);
    var k: nat := d - c - 1;
    NthAdd(first, p, c, k + 1);
    NthNext(Nth(first, p, c), p, k);
    QuotientUnique(end - Nth(first, p, c), p, k);
  }

  lemma NthOrder(first: nat, p: nat, c: nat, d: nat)
    requires Nth(first, p, c) < Nth(first, p, d)
    ensures c < d
  {
    if d <= c {
      TimesMonotone(d, c, p);
    }
  }

  // On rollover each timer of the old current list has one callback for each of its expiries up to
  // the largest tick value. An auto-reload timer is then in the new current list, at its next expiry;
  // the new overflow list is empty.
  lemma RolloverFires(s: Timers, t: Timer, n: nat)
    requires Inv(s, n) && n <= s.epoch * W + (W - 1) && t in s.current
    ensures var r, p := Switch(s), ValueOf(s.period, t);
            && r.overflow == [] && t in s.calls && t in s.reload && p > 0 && ValueOf(s.value, t) < W
            && if s.reload[t] then
                 var k := 1 + (W - 1 - ValueOf(s.value, t)) / p;
                 t in r.current && ValueOf(r.calls, t) == s.calls[t] + k && Expiry(r, t) == Nth(Expiry(s, t), p, k)
               else t !in r.current && ValueOf(r.calls, t) == s.calls[t] + 1
  {
    hide Inv, DrainCurrent, Nth, Switch, Untouched;
    ScheduleParts(s, t, n);
    CurrentValue(s, t, n);
    SwitchKeeps(s, n);
    DrainOne(s, t, n);
    SwitchLists(s, t, n);
    if s.reload[t] {
      RolloverCounts(s, t, n, Switch(s));
    }
  }

  lemma CurrentValue(s: Timers, t: Timer, n: nat)
    requires Inv(s, n) && t in s.current
    ensures t in s.value && s.value[t] < W
  {
  }

  lemma RolloverCounts(s: Timers, t: Timer, n: nat, r: Timers)
    requires Inv(s, n) && t in s.current && t in r.current && Inv(r, s.epoch * W + (W - 1)) && r.epoch == s.epoch + 1
    requires r.first == s.first && r.period == s.period
    ensures t in s.calls && t in r.calls && t in s.period && s.period[t] > 0 && t in s.value && s.value[t] < W
    ensures var k := 1 + (W - 1 - s.value[t]) / s.period[t];
            r.calls[t] == s.calls[t] + k && Expiry(r, t) == Nth(Expiry(s, t), s.period[t], k)
  {
    hide Inv, Nth;
    var end := s.epoch * W + (W - 1);
    ScheduleParts(s, t, n);
    ScheduleParts(r, t, end);
    CurrentValue(s, t, n);
    NextEpoch(s.epoch);
    CallsBetween(s.first[t], s.period[t], s.calls[t], r.calls[t], end);
    NthAdd(s.first[t], s.period[t], s.calls[t], 1 + (W - 1 - s.value[t]) / s.period[t]);
  }

  lemma SwitchLists(s: Timers, t: Timer, n: nat)
    requires Inv(s, n) && n <= s.epoch * W + (W - 1)
    ensures t in Switch(s).current <==> Listed(DrainCurrent(s), t)
    ensures Switch(s).calls == DrainCurrent(s).calls && Switch(s).first == s.first && Switch(s).period == s.period
  {
    hide Inv, DrainCurrent, Untouched;
    DrainKeeps(s, n);
    DrainSame(s);
  }

  // ----- commands --------------------------------------------------------------------------------

  lemma LeaveKeeps(s: Timers, t: Timer, n: nat)
    requires Inv(s, n)
    ensures Inv(Leave(s, t), n) && !Listed(Leave(s, t), t) && Sampled(Leave(s, t)) == Sampled(s)
    ensures Leave(s, t).period == s.period && Leave(s, t).reload == s.reload && Leave(s, t).active == s.active
  {
    var r := Leave(s, t);
    WithoutNoDup(s.current, t);
    WithoutNoDup(s.overflow, t);
    WithoutSorted(s.current, s.value, t);
    WithoutSorted(s.overflow, s.value, t);
    hide Without, NoDup, Sorted, Nth;
    forall u | Listed(r, u) ensures OnSchedule(r, u, n) {
      assert Listed(s, u) && OnSchedule(s, u, n);
    }
  }

  lemma ActivateKeeps(s: Timers, t: Timer, first: nat, n: nat)
    requires Inv(s, n) && !Listed(s, t)
    ensures Inv(Activate(s, t, first), n) && !Listed(Activate(s, t, first), t)
    ensures Known(s, t) ==> Due(Activate(s, t, first), t, first)
  {
    hide ListOk, Apart;
    var r := Activate(s, t, first);
    if Known(s, t) {
      NthNext(first, s.period[t], 0);
    }
    hide Nth;
    forall u | Listed(r, u) ensures OnSchedule(r, u, n) {
      assert Listed(s, u) && OnSchedule(s, u, n);
    }
  }

  // Leaving the list and sampling the time, which precede every command.
  lemma Prepared(s: Timers, t: Timer, n: nat)
    requires Inv(s, Sampled(s)) && Sampled(s) <= n < Sampled(s) + W
    ensures Wrap(n) < W
    ensures var r := Sample(Leave(s, t), Wrap(n));
            && Inv(r, n) && !Listed(r, t) && Sampled(r) == n && r.last == Wrap(n)
            && r.period == s.period && r.reload == s.reload && (t in s.active ==> t in r.active)
  {
    hide Inv, Sample, Leave, Listed, Wrap;
    LeaveKeeps(s, t, Sampled(s));
    SampleKeeps(Leave(s, t), n);
    SampleSame(Leave(s, t), Wrap(n));
  }

  // A timer that is not yet due joins the list of its first expiry.
  lemma FirstPutKeeps(s: Timers, t: Timer, first: nat, r: Timers, n: nat)
    requires Inv(s, n) && !Listed(s, t) && Due(s, t, first) && s.calls[t] == 0 && PutAt(s, t, first, 0, r)
    ensures Inv(r, n) && Listed(r, t) && Expiry(r, t) == first && r.calls == s.calls && Sampled(r) == Sampled(s)
    ensures r.last == s.last && r.period == s.period
  {
    hide Inv, PutAt, ListOk, Apart, Nth;
    InvLists(s, n);
    PutLists(s, t, first, 0, r);
    PutSame(s, t, first, 0, r);
    PutCalls(s, t, first, r);
    PutKeeps(s, t, first, 0, r, n);
  }

  lemma PutCalls(s: Timers, t: Timer, x: nat, r: Timers)
    requires PutAt(s, t, x, 0, r)
    ensures r.calls == s.calls
  {
  }

  lemma ValueUnlisted(s: Timers, t: Timer, x: nat, n: nat)
    requires Inv(s, n) && !Listed(s, t)
    ensures Inv(s.(value := s.value[t := x]), n) && !Listed(s.(value := s.value[t := x]), t)
  {
    var r := s.(value := s.value[t := x]);
    SortedElsewhere(s.current, s.value, t, x);
    SortedElsewhere(s.overflow, s.value, t, x);
    hide ListOk, Nth;
    forall u | Listed(r, u) ensures OnSchedule(r, u, n) {
      assert Listed(s, u) && OnSchedule(s, u, n);
    }
  }

  // A start command that is processed fewer than 2^32 ticks after it was given.
  lemma StartKeeps(s: Timers, t: Timer, command: nat, n: nat)
    requires Inv(s, Sampled(s)) && Sampled(s) <= n < Sampled(s) + W && command <= n < command + W && Known(s, t)
    ensures Wrap(n) < W
    ensures var r := Start(s, t, command, Wrap(n));
            && Inv(r, n) && Sampled(r) == n && r.last == Wrap(n)
            && (Listed(r, t) ==> Expiry(r, t) > n)
  {
    hide Inv, Sample, Leave, Listed, Wrap, Decide, Insert, Expired, Due, PutAt, Activate;
    Prepared(s, t, n);
    var p := s.period[t];
    var s1 := Sample(Leave(s, t), Wrap(n));
    var s2 := Activate(s1, t, command + p);
    Activated(s1, t, command + p);
    ActivateKeeps(s1, t, command + p, n);
    InsertExact(s2, t, command, Wrap(n));
    WrapBelow(command + p);
    if command + p <= n {
      InsertFired(s2, t, Wrap(command + p));
      ValueUnlisted(s2, t, Wrap(command + p), n);
      DueValue(s2, t, command + p, Wrap(command + p));
      ExpiredKeeps(s2.(value := s2.value[t := Wrap(command + p)]), t, command + p, Wrap(n), n);
    } else {
      var d := Decide(Wrap(command + p), Wrap(n), Wrap(command), p);
      FirstPutKeeps(s2, t, command + p, Insert(s2, t, Wrap(command + p), d), n);
    }
  }

  lemma DueValue(s: Timers, t: Timer, x: nat, v: nat)
    requires Due(s, t, x)
    ensures Due(s.(value := s.value[t := v]), t, x) && Known(s, t)
  {
  }

  lemma Activated(s: Timers, t: Timer, first: nat)
    ensures var r := Activate(s, t, first);
            && r == s.(active := r.active, first := r.first, calls := r.calls)
            && (t in s.period && 0 < s.period[t] < W && t in s.reload ==> Known(r, t))
            && t in r.calls && r.calls[t] == 0
  {
  }

  lemma StopCommandKeeps(s: Timers, t: Timer, n: nat)
    requires Inv(s, Sampled(s)) && Sampled(s) <= n < Sampled(s) + W
    ensures Wrap(n) < W
    ensures Inv(Stop(s, t, Wrap(n)), n) && Sampled(Stop(s, t, Wrap(n))) == n && Stop(s, t, Wrap(n)).last == Wrap(n)
  {
    hide Inv, Sample, Leave, Listed, Wrap;
    Prepared(s, t, n);
    StopKeeps(Sample(Leave(s, t), Wrap(n)), t, n);
  }

  lemma PeriodUnlisted(s: Timers, t: Timer, period: nat, n: nat)
    requires Inv(s, n) && !Listed(s, t)
    ensures Inv(s.(period := s.period[t := period]), n) && !Listed(s.(period := s.period[t := period]), t)
  {
    hide ListOk, Nth, Apart;
    var r := s.(period := s.period[t := period]);
    forall u | Listed(r, u) ensures OnSchedule(r, u, n) {
      assert Listed(s, u) && OnSchedule(s, u, n);
    }
  }

  // The new period counts from the time at which the command is processed.
  lemma ChangePeriodKeeps(s: Timers, t: Timer, period: nat, n: nat)
    requires Inv(s, Sampled(s)) && Sampled(s) <= n < Sampled(s) + W && Known(s, t) && 0 < period < W
    ensures var r := ChangePeriod(s, t, period, n);
            && Inv(r, n) && Sampled(r) == n && r.last == Wrap(n) && Listed(r, t) && Expiry(r, t) == n + period
  {
    hide Inv, Sample, Leave, Listed, Wrap, Decide, Insert, Due, PutAt, Activate;
    Prepared(s, t, n);
    var s0 := Sample(Leave(s, t), Wrap(n));
    var s1 := s0.(period := s0.period[t := period]);
    PeriodUnlisted(s0, t, period, n);
    Activated(s0, t, n + period);
    Activated(s1, t, n + period);
    ActivateKeeps(s1, t, n + period, n);
    PeriodCommutes(s0, t, period, n + period);
    var s2 := Activate(s1, t, n + period);
    InsertExact(s2, t, n, Wrap(n));
    var d := Decide(Wrap(n + period), Wrap(n), Wrap(n), period);
    FirstPutKeeps(s2, t, n + period, Insert(s2, t, Wrap(n + period), d), n);
  }

  lemma PeriodCommutes(s: Timers, t: Timer, period: nat, first: nat)
    ensures Activate(s.(period := s.period[t := period]), t, first)
         == Activate(s, t, first).(period := s.period[t := period])
    ensures Activate(s, t, first).period == s.period
  {
  }

  lemma SetReloadModeKeeps(s: Timers, t: Timer, reload: bool, n: nat)
    requires Inv(s, n)
    ensures Inv(SetReloadMode(s, t, reload), n)
  {
    hide ListOk, Nth, Apart;
    var r := SetReloadMode(s, t, reload);
    forall u | Listed(r, u) ensures OnSchedule(r, u, n) {
      assert Listed(s, u) && OnSchedule(s, u, n);
    }
  }

  // ----- the loop of the timer task --------------------------------------------------------------

  lemma ProcessOrBlockKeeps(s: Timers, n: nat)
    requires Inv(s, Sampled(s)) && Sampled(s) <= n < Sampled(s) + W
    ensures Wrap(n) < W
    ensures var r := ProcessOrBlock(s, Wrap(n)); Inv(r, n) && Sampled(r) == n && r.last == Wrap(n)
  {
    hide Inv, Sample, ProcessHead, Wrap, Known;
    SampleKeeps(s, n);
    var r := Sample(s, Wrap(n));
    if HeadKnown(r) && ValueOf(r.value, r.current[0]) <= Wrap(n) {
      ProcessHeadKeeps(r, Wrap(n), n);
    }
  }

  // Once the head is not due, no timer is: each has been called for every expiry up to now, no more.
  lemma CaughtUp(s: Timers, t: Timer)
    requires Inv(s, Sampled(s)) && (s.current == [] || ValueOf(s.value, s.current[0]) > s.last) && Listed(s, t)
    ensures Expiry(s, t) > Sampled(s) && t in s.calls && t in s.first && t in s.period && s.period[t] > 0
    ensures Nth(s.first[t], s.period[t], s.calls[t]) > Sampled(s)
    ensures s.calls[t] > 0 ==> Nth(s.first[t], s.period[t], s.calls[t] - 1) <= Sampled(s)
  {
    NextEpoch(s.epoch);
    if t in s.current {
      var k :| 0 <= k < |s.current| && s.current[k] == t;
      assert s.value[s.current[0]] <= s.value[s.current[k]];
    }
    assert OnSchedule(s, t, Sampled(s));
    if s.calls[t] > 0 {
      NthNext(s.first[t], s.period[t], s.calls[t] - 1);
    }
  }

  lemma TimesMonotone(a: nat, b: nat, p: nat)
    requires a <= b
    ensures a * p <= b * p
  {
  }

  lemma QuotientUnique(m: nat, p: nat, q: nat)
    requires p > 0 && q * p <= m < (q + 1) * p
    ensures m / p == q
  {
    if m / p < q {
      TimesMonotone(m / p + 1, q, p);
    } else if m / p > q {
      TimesMonotone(q + 1, m / p, p);
    }
  }

  // The count of callbacks is the number of whole periods since the command.
  lemma CallsAreFloor(command: nat, period: nat, calls: nat, n: nat)
    requires period > 0 && command <= n && Nth(command + period, period, calls) > n
    requires calls > 0 ==> Nth(command + period, period, calls - 1) <= n
    ensures calls == (n - command) / period
  {
    NthNext(command, period, calls);
    if calls > 0 {
      NthNext(command, period, calls - 1);
    }
    assert calls * period <= n - command < (calls + 1) * period;
    QuotientUnique(n - command, period, calls);
  }

  // ----- starting a timer ------------------------------------------------------------------------

  // An auto-reload timer: whatever the wraps, (n - command) / period callbacks, and then it is in the
  // current or the overflow list according to the epoch of its first expiry after now.
  lemma StartAutoReload(s: Timers, t: Timer, command: nat, n: nat)
    requires Inv(s, Sampled(s)) && Sampled(s) <= n < Sampled(s) + W && command <= n < command + W
    requires Known(s, t) && s.reload[t]
    ensures Wrap(n) < W
    ensures var r, k := Start(s, t, command, Wrap(n)), (n - command) / s.period[t];
            && t in r.calls && r.calls[t] == k && Listed(r, t)
            && Expiry(r, t) == Nth(command + s.period[t], s.period[t], k) && Expiry(r, t) > n
            && (t in r.current <==> Expiry(r, t) < (r.epoch + 1) * W)
  {
    hide Inv, Start, Wrap, Nth, OnSchedule;
    StartKeeps(s, t, command, n);
    var r := Start(s, t, command, Wrap(n));
    StartLists(s, t, command, n);
    InvLists(r, n);
    OnScheduleParts(r, t, n);
    CallsAreFloor(command, s.period[t], r.calls[t], n);
  }

  lemma OnScheduleParts(r: Timers, t: Timer, n: nat)
    requires Inv(r, n) && Listed(r, t)
    ensures t in r.calls && t in r.first && t in r.period && r.period[t] > 0
    ensures Expiry(r, t) == Nth(r.first[t], r.period[t], r.calls[t])
    ensures r.calls[t] > 0 ==> Nth(r.first[t], r.period[t], r.calls[t] - 1) <= n
    ensures t in r.current <==> Expiry(r, t) < (r.epoch + 1) * W
  {
    assert OnSchedule(r, t, n);
    if r.calls[t] > 0 {
      NthNext(r.first[t], r.period[t], r.calls[t] - 1);
    }
    NextEpoch(r.epoch);
  }

  lemma StartLists(s: Timers, t: Timer, command: nat, n: nat)
    requires Inv(s, Sampled(s)) && Sampled(s) <= n < Sampled(s) + W && command <= n < command + W
    requires Known(s, t) && s.reload[t]
    ensures Wrap(n) < W
    ensures var r := Start(s, t, command, Wrap(n));
            && Listed(r, t) && t in r.first && r.first[t] == command + s.period[t]
            && t in r.period && r.period[t] == s.period[t]
  {
    hide Inv, Sample, Leave, Wrap, Decide, Reload, InsertByValue, Listed;
    Prepared(s, t, n);
    var p := s.period[t];
    var s2 := Activate(Sample(Leave(s, t), Wrap(n)), t, command + p);
    Activated(Sample(Leave(s, t), Wrap(n)), t, command + p);
    InsertExact(s2, t, command, Wrap(n));
    WrapBelow(command + p);
    var d := Decide(Wrap(command + p), Wrap(n), Wrap(command), p);
    InsertLists(s2, t, Wrap(command + p), d);
    if d.Fire? {
      var s3 := Insert(s2, t, Wrap(command + p), d);
      ReloadLists(s3, t, Wrap(command + p), Wrap(n));
      ReloadSame(s3, t, Wrap(command + p), Wrap(n));
    }
  }

  lemma InsertLists(s: Timers, t: Timer, next: nat, d: Outcome)
    ensures !d.Fire? ==> Listed(Insert(s, t, next, d), t)
  {
  }

  lemma {:induction false} ReloadLists(s: Timers, t: Timer, expired: nat, now: nat)
    requires Known(s, t) && expired < W && now < W
    ensures var r := Reload(s, t, expired, now); Listed(r, t) && r.first == s.first && Listed(Call(r, t), t)
    decreases TickSub(now, expired)
  {
    var next := TickAdd(expired, s.period[t]);
    var d := Decide(next, now, expired, s.period[t]);
    FiresIffElapsed(expired, s.period[t], now);
    hide Decide;
    if d.Fire? {
      ReloadLists(Call(Insert(s, t, next, d), t), t, next, now);
    }
  }

  // ----- runs ------------------------------------------------------------------------------------

  datatype Step = ProcessStep(n: nat) | StartStep(t: Timer, command: nat, n: nat) | StopStep(t: Timer, n: nat)
                | PeriodStep(t: Timer, period: nat, n: nat) | ModeStep(t: Timer, reload: bool)

  // Each step comes fewer than 2^32 ticks after the one before, and a command is processed fewer than
  // 2^32 ticks after it was given.
  predicate Can(s: Timers, st: Step) {
    match st
    case ProcessStep(n) => Sampled(s) <= n < Sampled(s) + W
    case StartStep(t, command, n) => Sampled(s) <= n < Sampled(s) + W && command <= n < command + W && Known(s, t)
    case StopStep(t, n) => Sampled(s) <= n < Sampled(s) + W
    case PeriodStep(t, period, n) => Sampled(s) <= n < Sampled(s) + W && Known(s, t) && 0 < period < W
    case ModeStep(t, reload) => true
  }

  function Next(s: Timers, st: Step): Timers
    requires Can(s, st)
  {
    match st
    case ProcessStep(n) => WrapBelow(n); ProcessOrBlock(s, Wrap(n))
    case StartStep(t, command, n) => WrapBelow(n); Start(s, t, command, Wrap(n))
    case StopStep(t, n) => Stop(s, t, Wrap(n))
    case PeriodStep(t, period, n) => ChangePeriod(s, t, period, n)
    case ModeStep(t, reload) => SetReloadMode(s, t, reload)
  }

  lemma StepKeeps(s: Timers, st: Step)
    requires Inv(s, Sampled(s)) && Can(s, st)
    ensures Inv(Next(s, st), Sampled(Next(s, st)))
  {
    hide Inv, ProcessOrBlock, Start, Stop, ChangePeriod, Wrap, Known;
    match st
    case ProcessStep(n) => ProcessOrBlockKeeps(s, n);
    case StartStep(t, command, n) => StartKeeps(s, t, command, n);
    case StopStep(t, n) => StopCommandKeeps(s, t, n);
    case PeriodStep(t, period, n) => ChangePeriodKeeps(s, t, period, n);
    case ModeStep(t, reload) => SetReloadModeKeeps(s, t, reload, Sampled(s)); SampledMode(s, t, reload);
  }

  lemma SampledMode(s: Timers, t: Timer, reload: bool)
    ensures Sampled(SetReloadMode(s, t, reload)) == Sampled(s)
  {
  }

  predicate CanSteps(s: Timers, sts: seq<Step>)
    decreases |sts|
  {
    sts == [] || (Can(s, sts[0]) && CanSteps(Next(s, sts[0]), sts[1..]))
  }

  function Steps(s: Timers, sts: seq<Step>): Timers
    requires CanSteps(s, sts)
    decreases |sts|
  {
    if sts == [] then s else Steps(Next(s, sts[0]), sts[1..])
  }

  // No timer is in a list at the start.
  function Started(period: map<Timer, nat>, reload: map<Timer, bool>): Timers {
    Timers([], [], map[], period, reload, map t | t in reload :: false, 0, 0, map[], map[])
  }

  lemma {:induction false} RunKeeps(s: Timers, sts: seq<Step>)
    requires Inv(s, Sampled(s)) && CanSteps(s, sts)
    ensures Inv(Steps(s, sts), Sampled(Steps(s, sts)))
    decreases |sts|
  {
    hide Inv, Next, Can, Sampled;
    if sts != [] {
      StepKeeps(s, sts[0]);
      RunKeeps(Next(s, sts[0]), sts[1..]);
    }
  }

  // In every reachable state in which the head is not due, each timer that is running has had exactly
  // one callback for each expiry up to the last sample of the time.
  lemma NeverMissedNeverEarly(period: map<Timer, nat>, reload: map<Timer, bool>, sts: seq<Step>, t: Timer)
    requires CanSteps(Started(period, reload), sts)
    requires var s := Steps(Started(period, reload), sts);
             (s.current == [] || ValueOf(s.value, s.current[0]) > s.last) && Listed(s, t)
    ensures var s := Steps(Started(period, reload), sts);
            && t in s.calls && t in s.first && t in s.period && s.period[t] > 0
            && Nth(s.first[t], s.period[t], s.calls[t]) > Sampled(s)
            && (s.calls[t] > 0 ==> Nth(s.first[t], s.period[t], s.calls[t] - 1) <= Sampled(s))
  {
    var s0 := Started(period, reload);
    assert Inv(s0, Sampled(s0));
    hide Inv, CanSteps, Steps, Nth, Started;
    RunKeeps(s0, sts);
    CaughtUp(Steps(s0, sts), t);
  }
}
