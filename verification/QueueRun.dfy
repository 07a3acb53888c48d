/** Runs of a queue: wake-ups, the order of messages, the order of waiting tasks. */
module QueueRun {
  import opened ListSpec
  import opened QueueModel

  function Steps<T>(q: Queue<T>, sts: seq<Step<T>>, value: map<Task, nat>, n: nat): Queue<T>
    decreases |sts|
  {
    if sts == [] then q else Steps(Apply(q, sts[0], value, n), sts[1..], value, n)
  }

  predicate CanSteps<T>(q: Queue<T>, sts: seq<Step<T>>, value: map<Task, nat>, n: nat)
    decreases |sts|
  {
    sts == [] || (Can(q, sts[0], n) && CanSteps(Apply(q, sts[0], value, n), sts[1..], value, n))
  }

  // xQueueGenericReset of a new queue.
  function Empty<T>(length: nat): Queue<T> {
    Queue(length, [], Wait([], {}, queueUNLOCKED), Wait([], {}, queueUNLOCKED), Free)
  }

  // ----- no wake-up is lost ----------------------------------------------------------------------

  // While a task waits for a message every message is spoken for by a task that has been woken for
  // it and has only to run; and while a task waits for room every free place is.
  predicate SpokenFor<T>(q: Queue<T>) {
    q.locker.Free? ==>
      && (q.receive.list != [] ==> |q.items| <= |q.receive.woken|)
      && (q.send.list != [] ==> q.length - |q.items| <= |q.send.woken|)
  }

  lemma {:induction false} RunKeeps<T>(q: Queue<T>, sts: seq<Step<T>>, value: map<Task, nat>, n: nat)
    requires Inv(q, n) && n <= 127 && CanSteps(q, sts, value, n)
    ensures Inv(Steps(q, sts, value, n), n)
    decreases |sts|
  {
    hide Inv, Apply, Can;
    if sts != [] {
      StepKeeps(q, sts[0], value, n);
      RunKeeps(Apply(q, sts[0], value, n), sts[1..], value, n);
    }
  }

  lemma InvSpokenFor<T>(q: Queue<T>, n: nat)
    requires Inv(q, n)
    ensures SpokenFor(q)
  {
  }

  // k times: an interrupt sends and another takes the message.
  function Pairs<T>(x: T, k: nat): seq<Step<T>> {
    if k == 0 then [] else [SendFromISR(x, Back), ReceiveFromISR] + Pairs(x, k - 1)
  }

  // While task 0 has found the queue empty and has it locked.
  function Busy<T>(length: nat, c: int): Queue<T> {
    Queue(length, [], Wait([], {}, c), Wait([], {}, c), Found(0, ToReceive))
  }

  lemma PairCounts<T>(x: T, length: nat, c: nat, value: map<Task, nat>, n: nat)
    requires 0 < length && c < 127 && 128 <= n
    ensures Can(Busy<T>(length, c), SendFromISR(x, Back), n)
    ensures var q := Apply(Busy<T>(length, c), SendFromISR(x, Back), value, n);
            Can(q, ReceiveFromISR, n) && Apply(q, ReceiveFromISR, value, n) == Busy(length, c + 1)
  {
  }

  lemma {:induction false} PairsCount<T>(x: T, length: nat, c: nat, k: nat, rest: seq<Step<T>>,
                                         value: map<Task, nat>, n: nat)
    requires 0 < length && c + k == 127 && 128 <= n
    ensures Steps(Busy(length, c), Pairs(x, k) + rest, value, n) == Steps(Busy(length, 127), rest, value, n)
    ensures CanSteps(Busy(length, c), Pairs(x, k) + rest, value, n) == CanSteps(Busy(length, 127), rest, value, n)
    decreases k
  {
    hide Apply, Can;
    if k == 0 {
      assert Pairs(x, k) + rest == rest;
    } else {
      var sts := Pairs(x, k) + rest;
      var next: seq<Step<T>> := [ReceiveFromISR] + (Pairs(x, k - 1) + rest);
      assert sts[1..] == next && next[1..] == Pairs(x, k - 1) + rest;
      PairCounts(x, length, c, value, n);
      PairsCount(x, length, c + 1, k - 1, rest, value, n);
    }
  }

  // Task 0 is about to wait for a message; 128 interrupts send before it does.
  function LosingRun<T>(x: T): seq<Step<T>> {
    [LockQueue(0, ToReceive), CheckStill] + (Pairs(x, 127) + [SendFromISR(x, Back), PlaceOnList, UnlockTx, UnlockRx])
  }

  lemma LeadsOn<T>(q: Queue<T>, st: Step<T>, r: Queue<T>, rest: seq<Step<T>>, value: map<Task, nat>, n: nat)
    requires Can(q, st, n) && Apply(q, st, value, n) == r && CanSteps(r, rest, value, n)
    ensures CanSteps(q, [st] + rest, value, n) && Steps(q, [st] + rest, value, n) == Steps(r, rest, value, n)
  {
    hide Can, Apply;
    assert ([st] + rest)[1..] == rest;
  }

  lemma LosingSteps<T>(x: T, length: nat, value: map<Task, nat>, n: nat)
    requires 0 < length && 128 <= n
    ensures var q0, q1 := Busy<T>(length, 127), Overflowed(length, x);
            Can(q0, SendFromISR(x, Back), n) && Apply(q0, SendFromISR(x, Back), value, n) == q1
    ensures var q1, q2 := Overflowed(length, x), Waiting(length, x, -128, 127, Leaving);
            Can(q1, PlaceOnList, n) && Apply(q1, PlaceOnList, value, n) == q2
  {
  }

  lemma UnlockSteps<T>(x: T, length: nat, value: map<Task, nat>, n: nat)
    requires 0 < length && 128 <= n
    ensures var q2, q3 := Waiting(length, x, -128, 127, Leaving), Waiting(length, x, queueUNLOCKED, 127, HalfUnlocked);
            Can(q2, UnlockTx, n) && Apply(q2, UnlockTx, value, n) == q3
    ensures var q3 := Waiting(length, x, queueUNLOCKED, 127, HalfUnlocked);
            var q4 := Waiting(length, x, queueUNLOCKED, queueUNLOCKED, Free);
            Can(q3, UnlockRx, n) && Apply(q3, UnlockRx, value, n) == q4
  {
  }

  // One send more, and the count of sends has gone from 127 to -128.
  function Overflowed<T>(length: nat, x: T): Queue<T> {
    Queue(length, [x], Wait([], {}, -128), Wait([], {}, 127), Found(0, ToReceive))
  }

  // Task 0 waits to receive although x is there.
  function Waiting<T>(length: nat, x: T, tx: int, rx: int, locker: Locker): Queue<T> {
    Queue(length, [x], Wait([0], {}, tx), Wait([], {}, rx), locker)
  }

  lemma LosingEnd<T>(x: T, length: nat, value: map<Task, nat>, n: nat)
    requires 0 < length && 128 <= n
    ensures var rest: seq<Step<T>> := [SendFromISR(x, Back), PlaceOnList, UnlockTx, UnlockRx];
            && CanSteps(Busy(length, 127), rest, value, n)
            && Steps(Busy(length, 127), rest, value, n) == Waiting(length, x, queueUNLOCKED, queueUNLOCKED, Free)
  {
    hide Apply, Can, Busy, Overflowed, Waiting;
    LosingSteps(x, length, value, n);
    UnlockSteps(x, length, value, n);
    var q0, q1 := Busy<T>(length, 127), Overflowed(length, x);
    var q2, q3 := Waiting(length, x, -128, 127, Leaving), Waiting(length, x, queueUNLOCKED, 127, HalfUnlocked);
    LeadsOn(q3, UnlockRx, Waiting(length, x, queueUNLOCKED, queueUNLOCKED, Free), [], value, n);
    LeadsOn(q2, UnlockTx, q3, [UnlockRx], value, n);
    LeadsOn(q1, PlaceOnList, q2, [UnlockTx, UnlockRx], value, n);
    LeadsOn(q0, SendFromISR(x, Back), q1, [PlaceOnList, UnlockTx, UnlockRx], value, n);
    assert [SendFromISR(x, Back)] + [PlaceOnList, UnlockTx, UnlockRx]
        == [SendFromISR(x, Back), PlaceOnList, UnlockTx, UnlockRx];
  }

  lemma LockSteps<T>(x: T, length: nat, value: map<Task, nat>, n: nat)
    requires 0 < length && 128 <= n
    ensures var q := Empty<T>(length);
            var q1 := Apply(q, LockQueue(0, ToReceive), value, n);
            && Can(q, LockQueue(0, ToReceive), n) && Can(q1, CheckStill, n)
            && Apply(q1, CheckStill, value, n) == Busy(length, 0)
  {
  }

  // With more than 127 tasks the count of noted wake-ups overflows its int8_t and all are forgotten:
  // task 0 waits although the queue holds a message and nobody has been woken for it.
  lemma WakeUpsAreLost<T>(x: T, length: nat, value: map<Task, nat>, n: nat)
    requires 0 < length && 128 <= n
    ensures CanSteps(Empty(length), LosingRun(x), value, n)
    ensures !SpokenFor(Steps(Empty(length), LosingRun(x), value, n))
  {
    var rest: seq<Step<T>> := [SendFromISR(x, Back), PlaceOnList, UnlockTx, UnlockRx];
    var q := Empty<T>(length);
    var q1 := Apply(q, LockQueue(0, ToReceive), value, n);
    LockSteps(x, length, value, n);
    assert !SpokenFor(Waiting(length, x, queueUNLOCKED, queueUNLOCKED, Free));
    hide Apply, Can, Empty, Busy, Waiting, SpokenFor, Pairs;
    PairsCount(x, length, 0, 127, rest, value, n);
    LosingEnd(x, length, value, n);
    LeadsOn(q1, CheckStill, Busy(length, 0), Pairs(x, 127) + rest, value, n);
    LeadsOn(q, LockQueue(0, ToReceive), q1, [CheckStill] + (Pairs(x, 127) + rest), value, n);
    assert LosingRun(x) == [LockQueue(0, ToReceive)] + ([CheckStill] + (Pairs(x, 127) + rest));
  }

  ghost predicate NeverLost(length: nat, value: map<Task, nat>, n: nat) {
    forall sts: seq<Step<int>> ::
      CanSteps(Empty(length), sts, value, n) ==> SpokenFor(Steps(Empty(length), sts, value, n))
  }

  // In every reachable state of every interleaving no wake-up is lost: exactly for up to 127 tasks.
  lemma NoneLostIff(length: nat, value: map<Task, nat>, n: nat)
    requires 0 < length && 0 < n
    ensures NeverLost(length, value, n) <==> n <= 127
  {
    if n <= 127 {
      assert Inv(Empty<int>(length), n);
      forall sts: seq<Step<int>> | CanSteps(Empty(length), sts, value, n)
        ensures SpokenFor(Steps(Empty(length), sts, value, n))
      {
        RunKeeps(Empty(length), sts, value, n);
        InvSpokenFor(Steps(Empty(length), sts, value, n), n);
      }
    } else {
      WakeUpsAreLost(0, length, value, n);
    }
  }

  // ----- the order of messages -------------------------------------------------------------------

  function Accepted<T>(q: Queue<T>, st: Step<T>): seq<T> {
    match st
    case TaskSend(t, x, at) => if HasRoom(q, at) then [x] else []
    case SendFromISR(x, at) => if HasRoom(q, at) then [x] else []
    case _ => []
  }

  function Taken<T>(q: Queue<T>, st: Step<T>): seq<T> {
    if (st.TaskReceive? || st.ReceiveFromISR?) && q.items != [] then [q.items[0]] else []
  }

  function AllAccepted<T>(q: Queue<T>, sts: seq<Step<T>>, value: map<Task, nat>, n: nat): seq<T>
    decreases |sts|
  {
    if sts == [] then [] else Accepted(q, sts[0]) + AllAccepted(Apply(q, sts[0], value, n), sts[1..], value, n)
  }

  function AllTaken<T>(q: Queue<T>, sts: seq<Step<T>>, value: map<Task, nat>, n: nat): seq<T>
    decreases |sts|
  {
    if sts == [] then [] else Taken(q, sts[0]) + AllTaken(Apply(q, sts[0], value, n), sts[1..], value, n)
  }

  predicate ToBack<T>(st: Step<T>) {
    && (st.TaskSend? ==> st.at.Back?)
    && (st.SendFromISR? ==> st.at.Back?)
  }

  lemma StepInOrder<T>(q: Queue<T>, st: Step<T>, value: map<Task, nat>, n: nat)
    requires ToBack(st)
    ensures Taken(q, st) + Apply(q, st, value, n).items == q.items + Accepted(q, st)
  {
  }

  // Messages come out in the order they went in, each once, and what has not come out is in the queue.
  lemma {:induction false} FirstInFirstOut<T>(q: Queue<T>, sts: seq<Step<T>>, value: map<Task, nat>, n: nat)
    requires forall st :: st in sts ==> ToBack(st)
    ensures AllTaken(q, sts, value, n) + Steps(q, sts, value, n).items == q.items + AllAccepted(q, sts, value, n)
    decreases |sts|
  {
    hide Apply, Accepted, Taken, ToBack;
    if sts != [] {
      var q' := Apply(q, sts[0], value, n);
      assert sts[0] in sts;
      StepInOrder(q, sts[0], value, n);
      FirstInFirstOut(q', sts[1..], value, n);
      Chained(Taken(q, sts[0]), AllTaken(q', sts[1..], value, n), Steps(q, sts, value, n).items, q'.items,
              q.items, Accepted(q, sts[0]), AllAccepted(q', sts[1..], value, n));
    }
  }

  lemma Chained<T>(a: seq<T>, b: seq<T>, c: seq<T>, mid: seq<T>, d: seq<T>, e: seq<T>, f: seq<T>)
    requires b + c == mid + f && a + mid == d + e
    ensures (a + b) + c == d + (e + f)
  {
    assert (a + b) + c == a + (b + c) == a + (mid + f) == (a + mid) + f == (d + e) + f == d + (e + f);
  }

  // ----- the order of waiting tasks --------------------------------------------------------------

  ghost predicate InOrder(w: Wait, value: map<Task, nat>) {
    Sorted(w.list, value)
  }

  lemma TailInOrder(w: Wait, value: map<Task, nat>)
    requires InOrder(w, value)
    ensures InOrder(Wake(w), value)
  {
  }

  lemma {:induction false} WakeManyInOrder(w: Wait, c: int, value: map<Task, nat>)
    requires InOrder(w, value)
    ensures InOrder(WakeMany(w, c), value)
    decreases c
  {
    hide InOrder, Wake;
    if c > 0 && w.list != [] {
      TailInOrder(w, value);
      WakeManyInOrder(Wake(w), c - 1, value);
      WakeManyCount(w, c);
    }
  }

  // value holds configMAX_PRIORITIES less the priority of each task.
  lemma WaitersInOrder<T>(q: Queue<T>, st: Step<T>, value: map<Task, nat>, n: nat)
    requires InOrder(q.send, value) && InOrder(q.receive, value) && Can(q, st, n)
    requires q.locker.Found? ==> q.locker.t in value
    ensures var q' := Apply(q, st, value, n); InOrder(q'.send, value) && InOrder(q'.receive, value)
  {
    TailInOrder(q.send, value);
    TailInOrder(q.receive, value);
    WakeManyInOrder(q.send, q.send.lock, value);
    WakeManyInOrder(q.receive, q.receive.lock, value);
    if st.TimesOut? {
      WithoutSorted(q.send.list, value, st.t);
      WithoutSorted(q.receive.list, value, st.t);
    }
    if st.PlaceOnList? {
      InsertByValueSorted(q.send.list, value, q.locker.t);
      InsertByValueSorted(q.receive.list, value, q.locker.t);
    }
    hide Sorted, WakeMany;
  }

  // ----- which task is woken ---------------------------------------------------------------------

  ghost predicate StoodBefore(s: seq<Task>, t: Task, u: Task) {
    exists i, j :: 0 <= i < j < |s| && s[i] == t && s[j] == u
  }

  // Every task that has been woken on the way from w to r outranks every task that still waits, or is
  // of the same priority and has waited longer.
  ghost predicate HighestFirst(w: Wait, r: Wait, value: map<Task, nat>) {
    forall t, u :: t in r.woken && t !in w.woken && u in r.list ==>
      && t in value && u in value && value[t] <= value[u] && StoodBefore(w.list, t, u)
  }

  // Some first tasks of the list have been woken.
  ghost predicate WokeFirst(w: Wait, r: Wait, k: nat) {
    && k <= |w.list| && r.list == w.list[k..]
    && forall t :: t in r.woken <==> t in w.woken || t in w.list[..k]
  }

  lemma WakeWakesFirst(w: Wait)
    ensures WokeFirst(w, Wake(w), if w.list == [] then 0 else 1)
  {
  }

  lemma OneMore(w: Wait, u: Wait, r: Wait, k: nat)
    requires WokeFirst(w, u, 1) && WokeFirst(u, r, k)
    ensures WokeFirst(w, r, k + 1)
  {
    assert w.list[..k + 1] == w.list[..1] + u.list[..k];
  }

  lemma {:induction false} WakeManyWakesFirst(w: Wait, c: int) returns (k: nat)
    ensures WokeFirst(w, WakeMany(w, c), k)
    decreases c
  {
    hide Wake, WokeFirst;
    if c > 0 && w.list != [] {
      WakeWakesFirst(w);
      WakeManyCount(w, c);
      k := WakeManyWakesFirst(Wake(w), c - 1);
      OneMore(w, Wake(w), WakeMany(Wake(w), c - 1), k);
      k := k + 1;
    } else {
      k := 0;
      NoneWoken(w);
    }
  }

  lemma NoneWoken(w: Wait)
    ensures WokeFirst(w, w, 0)
  {
  }

  lemma FirstAreHighest(w: Wait, u: Wait, r: Wait, k: nat, value: map<Task, nat>)
    requires InOrder(w, value) && WokeFirst(u, r, k) && u.list == w.list && forall t :: t in u.woken ==> t in w.woken
    ensures HighestFirst(w, r, value)
  {
    forall t, x | t in r.woken && t !in w.woken && x in r.list
      ensures t in value && x in value && value[t] <= value[x] && StoodBefore(w.list, t, x)
    {
      var i :| 0 <= i < k && w.list[..k][i] == t;
      var j :| 0 <= j < |r.list| && r.list[j] == x;
      assert w.list[i] == t && w.list[k + j] == x;
    }
  }

  lemma NobodyWoken(w: Wait, r: Wait, value: map<Task, nat>)
    requires r.list == w.list && forall t :: t in r.woken ==> t in w.woken
    ensures HighestFirst(w, r, value)
  {
  }

  lemma LockedAgain(w: Wait, r: Wait, lock: int, value: map<Task, nat>)
    requires HighestFirst(w, r, value)
    ensures HighestFirst(w, r.(lock := lock), value)
  {
    hide StoodBefore;
  }

  lemma WaitWakes(w: Wait, t: Task, n: nat, value: map<Task, nat>)
    requires InOrder(w, value)
    ensures HighestFirst(w, w, value) && HighestFirst(w, Retry(w, t), value) && HighestFirst(w, Wake(w), value)
    ensures HighestFirst(w, Wake(Retry(w, t)), value) && HighestFirst(w, Event(w, n), value)
    ensures HighestFirst(w, Unlock(w), value)
  {
    hide InOrder, HighestFirst, WokeFirst, Wake, WakeMany, IncrementLock;
    var j := if w.list == [] then 0 else 1;
    WakeWakesFirst(w);
    WakeWakesFirst(Retry(w, t));
    var k := WakeManyWakesFirst(w, w.lock);
    NobodyWoken(w, w, value);
    NobodyWoken(w, Retry(w, t), value);
    FirstAreHighest(w, w, Wake(w), j, value);
    FirstAreHighest(w, Retry(w, t), Wake(Retry(w, t)), j, value);
    FirstAreHighest(w, w, WakeMany(w, w.lock), k, value);
    LockedAgain(w, w, Event(w, n).lock, value);
    LockedAgain(w, WakeMany(w, w.lock), queueUNLOCKED, value);
  }

  lemma StepWakesHighest<T>(q: Queue<T>, st: Step<T>, value: map<Task, nat>, n: nat)
    requires InOrder(q.send, value) && InOrder(q.receive, value)
    ensures var q' := Apply(q, st, value, n);
            HighestFirst(q.send, q'.send, value) && HighestFirst(q.receive, q'.receive, value)
  {
    var t := match st
             case TaskSend(t, _, _) => t
             case TaskReceive(t) => t
             case TaskPeek(t) => t
             case _ => 0;
    WaitWakes(q.send, t, n, value);
    WaitWakes(q.receive, t, n, value);
    hide Wake, InOrder, StoodBefore, WakeMany, Put;
  }

  ghost predicate Ordered<T>(q: Queue<T>, value: map<Task, nat>, n: nat) {
    && InOrder(q.send, value) && InOrder(q.receive, value)
    && (q.locker.Locked? || q.locker.Found? ==> q.locker.t < n)
  }

  lemma StepOrdered<T>(q: Queue<T>, st: Step<T>, value: map<Task, nat>, n: nat)
    requires Ordered(q, value, n) && Can(q, st, n) && forall t :: t < n ==> t in value
    ensures Ordered(Apply(q, st, value, n), value, n)
  {
    WaitersInOrder(q, st, value, n);
    hide InOrder, Put, Retry, Wake, Lock, Unlock, Event, Place, TimeOut;
  }

  lemma {:induction false} RunOrdered<T>(q: Queue<T>, sts: seq<Step<T>>, value: map<Task, nat>, n: nat)
    requires Ordered(q, value, n) && CanSteps(q, sts, value, n) && forall t :: t < n ==> t in value
    ensures Ordered(Steps(q, sts, value, n), value, n)
    decreases |sts|
  {
    hide Ordered, Apply, Can;
    if sts != [] {
      StepOrdered(q, sts[0], value, n);
      RunOrdered(Apply(q, sts[0], value, n), sts[1..], value, n);
    }
  }

  // In every run from a new queue, every step that wakes tasks, be it a send, a receive, an interrupt or an
  // unlock, wakes those of highest priority, and of several with the same priority the longest waiting.
  lemma HighestIsWoken<T>(length: nat, sts: seq<Step<T>>, st: Step<T>, value: map<Task, nat>, n: nat)
    requires CanSteps(Empty(length), sts, value, n) && forall t :: t < n ==> t in value
    ensures var q := Steps(Empty<T>(length), sts, value, n);
            var r := Apply(q, st, value, n);
            HighestFirst(q.send, r.send, value) && HighestFirst(q.receive, r.receive, value)
  {
    assert Ordered(Empty<T>(length), value, n);
    RunOrdered(Empty<T>(length), sts, value, n);
    hide Apply, InOrder, HighestFirst, CanSteps, Empty;
    StepWakesHighest(Steps(Empty<T>(length), sts, value, n), st, value, n);
  }

  // ----- what a step does, without its own functions ---------------------------------------------

  // One waiting task, if there is any, has been woken: the one at the head.
  ghost predicate WokeOne(w: Wait, r: Wait) {
    && r.lock == w.lock
    && if w.list == [] then r.list == [] && r.woken == w.woken
       else w.list == [w.list[0]] + r.list && r.woken == w.woken + {w.list[0]}
  }

  // An event that finds the queue locked is noted instead.
  ghost predicate Notes(w: Wait, r: Wait) {
    r.list == w.list && r.woken == w.woken && r.lock == w.lock + 1
  }

  // A send is refused exactly if the queue is full and nothing may be overwritten; one that is not wakes
  // one receiver, or leaves that to the task that has the queue locked.
  lemma SendOutcome<T>(q: Queue<T>, t: Task, x: T, at: Position, value: map<Task, nat>, n: nat)
    requires |q.items| <= q.length && 0 < q.length && (at.Overwrite? ==> q.length == 1)
    requires q.receive.lock < n <= 127 && (q.receive.lock == queueUNLOCKED || q.receive.lock >= 0)
    ensures var r, i := Apply(q, TaskSend(t, x, at), value, n), Apply(q, SendFromISR(x, at), value, n);
            if |q.items| == q.length && !at.Overwrite? then
              r.items == i.items == q.items && r.receive == i.receive == q.receive
            else
              && r.items == i.items && |r.items| <= q.length
              && r.items == (match at case Back => q.items + [x] case Front => [x] + q.items case Overwrite => [x])
              && WokeOne(q.receive, r.receive)
              && if q.receive.lock == queueUNLOCKED then WokeOne(q.receive, i.receive) else Notes(q.receive, i.receive)
  {
  }

  // A receive fails exactly if the queue is empty; otherwise it takes the first message and wakes one sender.
  // A look leaves the message to another receiver.
  lemma ReceiveOutcome<T>(q: Queue<T>, t: Task, value: map<Task, nat>, n: nat)
    requires q.send.lock < n <= 127 && (q.send.lock == queueUNLOCKED || q.send.lock >= 0)
    ensures var r, i, p := Apply(q, TaskReceive(t), value, n), Apply(q, ReceiveFromISR, value, n),
                           Apply(q, TaskPeek(t), value, n);
            && p.items == q.items && p.send == q.send
            && if q.items == [] then
                 && r.items == i.items == [] && r.send == i.send == q.send
                 && p.receive.list == q.receive.list
               else
                 && r.items == i.items && q.items == [q.items[0]] + r.items
                 && WokeOne(q.send, r.send) && WokeOne(Retry(q.receive, t), p.receive)
                 && if q.send.lock == queueUNLOCKED then WokeOne(q.send, i.send) else Notes(q.send, i.send)
  {
  }

  // A message that is sent to the front is the next one that is received, and leaves the others as they were.
  lemma FrontIsNext<T>(q: Queue<T>, t: Task, u: Task, x: T, value: map<Task, nat>, n: nat)
    requires |q.items| < q.length
    ensures var r := Apply(q, TaskSend(t, x, Front), value, n);
            Taken(r, TaskReceive(u)) == [x] && Apply(r, TaskReceive(u), value, n).items == q.items
  {
  }

  // A task that has found the queue full or empty, and only it, joins the list of that side.
  lemma PlaceOutcome<T>(q: Queue<T>, value: map<Task, nat>, n: nat)
    requires q.locker.Found?
    ensures var r := Apply(q, PlaceOnList, value, n);
            var (w, v, o, p) := if q.locker.side.ToSend? then (q.send, r.send, q.receive, r.receive)
                                else (q.receive, r.receive, q.send, r.send);
            && p == o && v == w.(list := v.list) && |v.list| == |w.list| + 1 && r.items == q.items
            && forall t :: t in v.list <==> t == q.locker.t || t in w.list
  {
  }

  // Locking starts both counts, and leaves alone one that has been started already; nothing else changes.
  lemma LockOutcome<T>(q: Queue<T>, t: Task, side: Side, value: map<Task, nat>, n: nat)
    ensures var r := Apply(q, LockQueue(t, side), value, n);
            && r.send == q.send.(lock := r.send.lock) && r.receive == q.receive.(lock := r.receive.lock)
            && r.items == q.items && r.locker == Locked(t, side)
            && (q.send.lock == queueUNLOCKED ==> r.send.lock == queueLOCKED_UNMODIFIED)
            && (q.send.lock != queueUNLOCKED ==> r.send.lock == q.send.lock)
            && (q.receive.lock == queueUNLOCKED ==> r.receive.lock == queueLOCKED_UNMODIFIED)
            && (q.receive.lock != queueUNLOCKED ==> r.receive.lock == q.receive.lock)
  {
  }

  // It finds it so exactly if the queue is full or empty at that moment.
  lemma FoundIff<T>(q: Queue<T>, value: map<Task, nat>, n: nat)
    requires q.locker.Locked?
    ensures Apply(q, CheckStill, value, n).locker.Found?
            <==> |q.items| == if q.locker.side.ToSend? then q.length else 0
  {
  }

  // A task whose time has come waits on neither list; the others wait as before.
  lemma TimeOutOutcome<T>(q: Queue<T>, t: Task, value: map<Task, nat>, n: nat)
    requires WaitOk(q.send, n) && WaitOk(q.receive, n)
    ensures var r := Apply(q, TimesOut(t), value, n);
            && r == q.(send := q.send.(list := r.send.list), receive := q.receive.(list := r.receive.list))
            && (forall u :: u in r.send.list <==> u in q.send.list && u != t)
            && (forall u :: u in r.receive.list <==> u in q.receive.list && u != t)
  {
    WithoutNoDup(q.send.list, t);
    WithoutNoDup(q.receive.list, t);
  }

  // Unlocking wakes as many tasks as were noted, or all there are.
  lemma UnlockOutcome<T>(q: Queue<T>, value: map<Task, nat>, n: nat)
    requires WaitOk(q.send, n) && WaitOk(q.receive, n)
    ensures var r, s := Apply(q, UnlockTx, value, n), Apply(q, UnlockRx, value, n);
            && |r.receive.list| == (if |q.receive.list| > Noted(q.receive.lock)
                                    then |q.receive.list| - Noted(q.receive.lock) else 0)
            && |s.send.list| == (if |q.send.list| > Noted(q.send.lock) then |q.send.list| - Noted(q.send.lock) else 0)
            && r.receive.lock == s.send.lock == queueUNLOCKED && r.send == q.send && s.receive == q.receive
  {
    WakeManyCounts(q.receive, q.receive.lock);
    WakeManyCounts(q.send, q.send.lock);
    hide WakeMany;
  }

  lemma {:induction false} WakeManyCounts(w: Wait, c: int)
    ensures |WakeMany(w, c).list| == if |w.list| > Noted(c) then |w.list| - Noted(c) else 0
    decreases c
  {
    if c > 0 && w.list != [] {
      WakeManyCounts(Wake(w), c - 1);
      WakeManyCount(w, c);
    }
  }
}
