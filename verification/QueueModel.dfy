/** The critical sections of queue.c as steps, and that no wake-up is lost whatever the interleaving. */
module QueueModel {
  import opened ListSpec
  import DelayModel

  // ----- one side of a queue: the tasks that wait to receive, or to send -------------------------

  const queueUNLOCKED: int := -1
  const queueLOCKED_UNMODIFIED: int := 0

  // list is the event list, lock the lock count that concerns it. woken, which the program does not
  // have, holds the tasks that an event has removed from the list and that have not retried yet.
  type Task = DelayModel.Task

  datatype Wait = Wait(list: seq<Task>, woken: set<Task>, lock: int)

  // xTaskRemoveFromEventList on the list, if it is not empty.
  function Wake(w: Wait): Wait {
    if w.list == [] then w else w.(list := w.list[1..], woken := w.woken + {w.list[0]})
  }

  // A value stored in an int8_t.
  function Int8(c: int): int {
    if c >= 128 then c - 256 else c
  }

  // The same value converted to UBaseType_t.
  function Unsigned(c: int): int {
    if c < 0 then c + 0x1_0000_0000 else c
  }

  // prvIncrementQueueTxLock and prvIncrementQueueRxLock, with n tasks in the system.
  function IncrementLock(c: int, n: nat): int {
    if Unsigned(c) < n then Int8(c + 1) else c
  }

  // What an interrupt does after it has sent or received: wake a task or, if the queue is locked, count.
  function Event(w: Wait, n: nat): Wait {
    if w.lock == queueUNLOCKED then Wake(w) else w.(lock := IncrementLock(w.lock, n))
  }

  // The loop of prvUnlockQueue.
  function WakeMany(w: Wait, c: int): Wait
    decreases c
  {
    if c <= 0 || w.list == [] then w else WakeMany(Wake(w), c - 1)
  }

  function Unlock(w: Wait): Wait {
    WakeMany(w, w.lock).(lock := queueUNLOCKED)
  }

  function Lock(w: Wait): Wait {
    if w.lock == queueUNLOCKED then w.(lock := queueLOCKED_UNMODIFIED) else w
  }

  function Retry(w: Wait, t: Task): Wait {
    w.(woken := w.woken - {t})
  }

  function TimeOut(w: Wait, t: Task): Wait {
    w.(list := Without(w.list, t))
  }

  // vTaskPlaceOnEventList: in the order of the event item values, so by priority.
  function Place(w: Wait, t: Task, value: map<Task, nat>): Wait {
    w.(list := InsertByValue(w.list, value, t))
  }

  ghost predicate WaitOk(w: Wait, n: nat) {
    && NoDup(w.list) && (forall t :: t in w.list ==> t < n && t !in w.woken)
    && queueUNLOCKED <= w.lock <= n
  }

  function Noted(c: int): nat {
    if c > 0 then c else 0
  }

  // The claim, for a side where have messages (or free places) are to be had: if a task still waits,
  // or is about to, they are all spoken for by tasks woken but not yet running and by noted wake-ups.
  ghost predicate Enough(w: Wait, have: nat, about: bool, n: nat) {
    w.list != [] || about ==> have <= |w.woken| + Noted(w.lock) || w.lock >= n
  }

  lemma WakeSteps(w: Wait, n: nat)
    requires WaitOk(w, n)
    ensures WaitOk(Wake(w), n) && Wake(w).lock == w.lock
    ensures w.list != [] ==> |Wake(w).woken| == |w.woken| + 1 && |Wake(w).list| == |w.list| - 1
    ensures forall t :: t in Wake(w).list || t in Wake(w).woken <==> t in w.list || t in w.woken
  {
    if w.list != [] {
      assert w.list == [w.list[0]] + w.list[1..];
      assert w.list[0] in w.list;
    }
  }

  lemma EventKeeps(w: Wait, have: nat, about: bool, n: nat)
    requires WaitOk(w, n) && Enough(w, have, about, n) && n <= 127
    requires about ==> w.lock >= 0
    ensures WaitOk(Event(w, n), n) && Enough(Event(w, n), have + 1, about, n)
    ensures w.lock >= 0 ==> Event(w, n).lock >= 0
    ensures w.lock == queueUNLOCKED ==> Event(w, n).lock == queueUNLOCKED
    ensures forall t :: t in Event(w, n).list || t in Event(w, n).woken <==> t in w.list || t in w.woken
  {
    WakeSteps(w, n);
  }

  lemma WithoutLast(s: seq<Task>, n: Task)
    requires NoDup(s) && forall t :: t in s ==> t <= n
    ensures var r := Without<Task>(s, n); NoDup(r) && |s| <= |r| + 1 && forall t :: t in r ==> t < n
  {
    WithoutNoDup(s, n);
  }

  // n different tasks at most can wait.
  lemma {:induction false} FewWait(s: seq<Task>, n: nat)
    requires NoDup(s) && forall t :: t in s ==> t < n
    ensures |s| <= n
    decreases n
  {
    hide Without, NoDup;
    assert s != [] ==> s[0] in s;
    if n > 0 {
      var m: Task := n - 1;
      WithoutLast(s, m);
      FewWait(Without<Task>(s, m), m);
    }
  }

  lemma {:induction false} WakeManySteps(w: Wait, c: int, n: nat)
    requires WaitOk(w, n)
    ensures var u := WakeMany(w, c);
            && WaitOk(u, n) && u.lock == w.lock
            && (u.list != [] ==> |u.woken| == |w.woken| + Noted(c) && |u.list| == |w.list| - Noted(c))
            && forall t :: t in u.list || t in u.woken <==> t in w.list || t in w.woken
    decreases c
  {
    hide Wake, WaitOk;
    if c > 0 && w.list != [] {
      WakeSteps(w, n);
      WakeManySteps(Wake(w), c - 1, n);
      WakeManyCount(w, c);
    }
  }

  lemma WakeManyCount(w: Wait, c: int)
    requires c > 0 && w.list != []
    ensures WakeMany(w, c) == WakeMany(Wake(w), c - 1)
  {
  }

  // Unlocking wakes a task for every noted wake-up, or all that wait if the count is at its cap.
  lemma UnlockKeeps(w: Wait, have: nat, n: nat)
    requires WaitOk(w, n) && w.lock >= 0 && Enough(w, have, false, n)
    ensures WaitOk(Unlock(w), n) && Enough(Unlock(w), have, false, n)
    ensures forall t :: t in Unlock(w).list || t in Unlock(w).woken <==> t in w.list || t in w.woken
  {
    WakeManySteps(w, w.lock, n);
    FewWait(w.list, n);
  }

  lemma RetryKeeps(w: Wait, t: Task, have: nat, n: nat)
    requires WaitOk(w, n) && Enough(w, have, false, n) && t !in w.list && have > 0
    ensures WaitOk(Retry(w, t), n) && Enough(Retry(w, t), have - 1, false, n)
  {
  }

  lemma RetryFails(w: Wait, t: Task, n: nat)
    requires WaitOk(w, n)
    ensures WaitOk(Retry(w, t), n) && Enough(Retry(w, t), 0, false, n)
  {
  }

  lemma FewerKeep(w: Wait, have: nat, less: nat, about: bool, n: nat)
    requires Enough(w, have, about, n) && less <= have
    ensures Enough(w, less, about, n)
  {
  }

  // A task that only looks leaves what it has seen to the next one.
  lemma PeekKeeps(w: Wait, t: Task, have: nat, n: nat)
    requires WaitOk(w, n) && Enough(w, have, false, n) && t !in w.list && w.lock < n
    ensures WaitOk(Wake(Retry(w, t)), n) && Enough(Wake(Retry(w, t)), have, false, n)
  {
    WakeSteps(Retry(w, t), n);
  }

  lemma TimeOutKeeps(w: Wait, t: Task, have: nat, about: bool, n: nat)
    requires WaitOk(w, n) && Enough(w, have, about, n)
    ensures WaitOk(TimeOut(w, t), n) && Enough(TimeOut(w, t), have, about, n)
  {
    WithoutNoDup(w.list, t);
  }

  lemma PlaceKeeps(w: Wait, t: Task, value: map<Task, nat>, have: nat, n: nat)
    requires WaitOk(w, n) && Enough(w, have, true, n) && t < n && t !in w.list && t !in w.woken
    ensures WaitOk(Place(w, t, value), n) && Enough(Place(w, t, value), have, false, n)
  {
    InsertByValueNoDup(w.list, value, t);
  }

  // ----- the queue -------------------------------------------------------------------------------

  datatype Side = ToSend | ToReceive

  datatype Position = Back | Front | Overwrite

  // How far the task that has the queue locked, with the scheduler suspended, has come.
  datatype Locker = Free | Locked(t: Task, side: Side) | Found(t: Task, side: Side) | Leaving | HalfUnlocked

  // receive.lock is cTxLock, send.lock is cRxLock.
  datatype Queue<T> = Queue(length: nat, items: seq<T>, receive: Wait, send: Wait, locker: Locker)

  datatype Step<T> = TaskSend(t: Task, x: T, at: Position) | TaskReceive(t: Task) | TaskPeek(t: Task)
                   | LockQueue(t: Task, side: Side) | CheckStill | CheckTimedOut | PlaceOnList | UnlockTx | UnlockRx
                   | SendFromISR(x: T, at: Position) | ReceiveFromISR
                   | TimesOut(t: Task)

  function Put<T>(items: seq<T>, x: T, at: Position): (r: seq<T>)
    ensures |r| == if at.Overwrite? && items != [] then |items| else |items| + 1
  {
    match at
    case Back => items + [x]
    case Front => [x] + items
    case Overwrite => if items == [] then [x] else [x] + items[1..]
  }

  predicate HasRoom<T>(q: Queue<T>, at: Position) {
    |q.items| < q.length || at.Overwrite?
  }

  // Whether the condition that made the task want to block still holds.
  predicate StillBlocked<T>(q: Queue<T>, side: Side) {
    if side.ToSend? then |q.items| == q.length else q.items == []
  }

  function Apply<T>(q: Queue<T>, st: Step<T>, value: map<Task, nat>, n: nat): Queue<T> {
    match st
    case TaskSend(t, x, at) =>
      var s := Retry(q.send, t);
      if HasRoom(q, at) then q.(items := Put(q.items, x, at), send := s, receive := Wake(q.receive)) else q.(send := s)
    case TaskReceive(t) =>
      var r := Retry(q.receive, t);
      if q.items != [] then q.(items := q.items[1..], receive := r, send := Wake(q.send)) else q.(receive := r)
    case TaskPeek(t) =>
      var r := Retry(q.receive, t);
      q.(receive := if q.items != [] then Wake(r) else r)
    case LockQueue(t, side) => q.(send := Lock(q.send), receive := Lock(q.receive), locker := Locked(t, side))
    case CheckStill =>
      if q.locker.Locked? && StillBlocked(q, q.locker.side) then q.(locker := Found(q.locker.t, q.locker.side))
      else q.(locker := Leaving)
    case CheckTimedOut => q.(locker := Leaving)
    case PlaceOnList =>
      if !q.locker.Found? then q
      else if q.locker.side.ToSend? then q.(send := Place(q.send, q.locker.t, value), locker := Leaving)
      else q.(receive := Place(q.receive, q.locker.t, value), locker := Leaving)
    case UnlockTx => q.(receive := Unlock(q.receive), locker := HalfUnlocked)
    case UnlockRx => q.(send := Unlock(q.send), locker := Free)
    case SendFromISR(x, at) =>
      if HasRoom(q, at) then q.(items := Put(q.items, x, at), receive := Event(q.receive, n)) else q
    case ReceiveFromISR =>
      if q.items != [] then q.(items := q.items[1..], send := Event(q.send, n)) else q
    case TimesOut(t) => q.(send := TimeOut(q.send, t), receive := TimeOut(q.receive, t))
  }

  predicate Waits(w: Wait, t: Task) {
    t in w.list
  }

  predicate Known(w: Wait, t: Task) {
    t in w.list || t in w.woken
  }

  // A task can only act when it runs: when no other task has the scheduler suspended, it waits on
  // neither list and, if it has been woken, it retries. Only interrupts run meanwhile; ticks, and so
  // time-outs, are held back. An item is overwritten only in a queue of length 1.
  predicate Can<T>(q: Queue<T>, st: Step<T>, n: nat) {
    match st
    case TaskSend(t, x, at) =>
      q.locker.Free? && !Waits(q.send, t) && !Known(q.receive, t) && (at.Overwrite? ==> q.length == 1)
    case TaskReceive(t) => q.locker.Free? && !Waits(q.receive, t) && !Known(q.send, t)
    case TaskPeek(t) => q.locker.Free? && !Waits(q.receive, t) && !Known(q.send, t)
    case LockQueue(t, side) => q.locker.Free? && t < n && !Known(q.send, t) && !Known(q.receive, t)
    case CheckStill => q.locker.Locked?
    case CheckTimedOut => q.locker.Locked?
    case PlaceOnList => q.locker.Found?
    case UnlockTx => q.locker.Leaving?
    case UnlockRx => q.locker.HalfUnlocked?
    case SendFromISR(x, at) => at.Overwrite? ==> q.length == 1
    case ReceiveFromISR => true
    case TimesOut(t) => q.locker.Free?
  }

  // ----- the invariant ---------------------------------------------------------------------------

  predicate LockShape<T>(q: Queue<T>) {
    match q.locker
    case Free => q.receive.lock == queueUNLOCKED && q.send.lock == queueUNLOCKED
    case HalfUnlocked => q.receive.lock == queueUNLOCKED && q.send.lock >= 0
    case _ => q.receive.lock >= 0 && q.send.lock >= 0
  }

  predicate About<T>(q: Queue<T>, side: Side) {
    q.locker.Found? && q.locker.side == side
  }

  ghost predicate Inv<T>(q: Queue<T>, n: nat) {
    && WaitOk(q.send, n) && WaitOk(q.receive, n) && LockShape(q)
    && (q.locker.Locked? || q.locker.Found? ==>
          q.locker.t < n && !Known(q.send, q.locker.t) && !Known(q.receive, q.locker.t))
    && 0 < q.length && |q.items| <= q.length && 0 < n
    && Enough(q.receive, |q.items|, About(q, ToReceive), n)
    && Enough(q.send, q.length - |q.items|, About(q, ToSend), n)
  }

  lemma TaskSendKeeps<T>(q: Queue<T>, t: Task, x: T, at: Position, value: map<Task, nat>, n: nat)
    requires Inv(q, n) && n <= 127 && Can(q, TaskSend(t, x, at), n)
    ensures Inv(Apply(q, TaskSend(t, x, at), value, n), n)
  {
    hide WaitOk, Wake, Enough;
    if |q.items| < q.length {
      RetryKeeps(q.send, t, q.length - |q.items|, n);
    } else {
      RetryFails(q.send, t, n);
    }
    EventKeeps(q.receive, |q.items|, false, n);
    FewerKeep(Wake(q.receive), |q.items| + 1, |q.items|, false, n);
  }

  lemma TaskReceiveKeeps<T>(q: Queue<T>, t: Task, value: map<Task, nat>, n: nat)
    requires Inv(q, n) && n <= 127 && Can(q, TaskReceive(t), n)
    ensures Inv(Apply(q, TaskReceive(t), value, n), n)
  {
    hide WaitOk, Wake, Enough;
    if q.items != [] {
      RetryKeeps(q.receive, t, |q.items|, n);
      EventKeeps(q.send, q.length - |q.items|, false, n);
    } else {
      RetryFails(q.receive, t, n);
    }
  }

  lemma TaskPeekKeeps<T>(q: Queue<T>, t: Task, value: map<Task, nat>, n: nat)
    requires Inv(q, n) && Can(q, TaskPeek(t), n)
    ensures Inv(Apply(q, TaskPeek(t), value, n), n)
  {
    hide WaitOk, Wake, Enough;
    if q.items != [] {
      PeekKeeps(q.receive, t, |q.items|, n);
      WakeLock(Retry(q.receive, t));
    } else {
      RetryFails(q.receive, t, n);
    }
  }

  lemma WakeLock(w: Wait)
    ensures Wake(w).lock == w.lock
  {
  }

  lemma LockKeeps(w: Wait, have: nat, n: nat)
    requires WaitOk(w, n) && Enough(w, have, false, n) && 0 < n && w.lock == queueUNLOCKED
    ensures WaitOk(Lock(w), n) && Enough(Lock(w), have, false, n)
  {
  }

  lemma FoundEnough(w: Wait, have: nat, n: nat)
    ensures Enough(w, have, false, n) && have == 0 ==> Enough(w, have, true, n)
    ensures Enough(w, have, true, n) ==> Enough(w, have, false, n)
  {
  }

  lemma LockerKeeps<T>(q: Queue<T>, st: Step<T>, value: map<Task, nat>, n: nat)
    requires Inv(q, n) && Can(q, st, n)
    requires st.LockQueue? || st.CheckStill? || st.CheckTimedOut?
    ensures Inv(Apply(q, st, value, n), n)
  {
    hide WaitOk, Enough;
    if st.LockQueue? {
      LockKeeps(q.send, q.length - |q.items|, n);
      LockKeeps(q.receive, |q.items|, n);
    }
    FoundEnough(q.receive, |q.items|, n);
    FoundEnough(q.send, q.length - |q.items|, n);
  }

  lemma PlaceOnListKeeps<T>(q: Queue<T>, value: map<Task, nat>, n: nat)
    requires Inv(q, n) && Can(q, PlaceOnList, n)
    ensures Inv(Apply(q, PlaceOnList, value, n), n)
  {
    hide WaitOk, Enough;
    if q.locker.side.ToSend? {
      PlaceKeeps(q.send, q.locker.t, value, q.length - |q.items|, n);
    } else {
      PlaceKeeps(q.receive, q.locker.t, value, |q.items|, n);
    }
  }

  lemma UnlockStepKeeps<T>(q: Queue<T>, st: Step<T>, value: map<Task, nat>, n: nat)
    requires Inv(q, n) && Can(q, st, n) && (st.UnlockTx? || st.UnlockRx?)
    ensures Inv(Apply(q, st, value, n), n)
  {
    hide WaitOk, Enough, WakeMany;
    if st.UnlockTx? {
      UnlockKeeps(q.receive, |q.items|, n);
    } else {
      UnlockKeeps(q.send, q.length - |q.items|, n);
    }
  }

  lemma SendFromISRKeeps<T>(q: Queue<T>, x: T, at: Position, value: map<Task, nat>, n: nat)
    requires Inv(q, n) && n <= 127 && Can(q, SendFromISR(x, at), n)
    ensures Inv(Apply(q, SendFromISR(x, at), value, n), n)
  {
    hide WaitOk, Event, Enough;
    EventKeeps(q.receive, |q.items|, About(q, ToReceive), n);
    FewerKeep(Event(q.receive, n), |q.items| + 1, |q.items|, About(q, ToReceive), n);
    if |q.items| < q.length {
      FewerKeep(q.send, q.length - |q.items|, q.length - |q.items| - 1, About(q, ToSend), n);
    }
  }

  lemma ReceiveFromISRKeeps<T>(q: Queue<T>, value: map<Task, nat>, n: nat)
    requires Inv(q, n) && n <= 127
    ensures Inv(Apply(q, ReceiveFromISR, value, n), n)
  {
    hide WaitOk, Event, Enough;
    EventKeeps(q.send, q.length - |q.items|, About(q, ToSend), n);
    if q.items != [] {
      FewerKeep(q.receive, |q.items|, |q.items| - 1, About(q, ToReceive), n);
    }
  }

  lemma TimesOutKeeps<T>(q: Queue<T>, t: Task, value: map<Task, nat>, n: nat)
    requires Inv(q, n) && Can(q, TimesOut(t), n)
    ensures Inv(Apply(q, TimesOut(t), value, n), n)
  {
    hide WaitOk, Enough;
    TimeOutKeeps(q.send, t, q.length - |q.items|, false, n);
    TimeOutKeeps(q.receive, t, |q.items|, false, n);
  }

  lemma StepKeeps<T>(q: Queue<T>, st: Step<T>, value: map<Task, nat>, n: nat)
    requires Inv(q, n) && n <= 127 && Can(q, st, n)
    ensures Inv(Apply(q, st, value, n), n)
  {
    hide Inv, Apply;
    match st
    case TaskSend(t, x, at) => TaskSendKeeps(q, t, x, at, value, n);
    case TaskReceive(t) => TaskReceiveKeeps(q, t, value, n);
    case TaskPeek(t) => TaskPeekKeeps(q, t, value, n);
    case LockQueue(t, side) => LockerKeeps(q, st, value, n);
    case CheckStill => LockerKeeps(q, st, value, n);
    case CheckTimedOut => LockerKeeps(q, st, value, n);
    case PlaceOnList => PlaceOnListKeeps(q, value, n);
    case UnlockTx => UnlockStepKeeps(q, st, value, n);
    case UnlockRx => UnlockStepKeeps(q, st, value, n);
    case SendFromISR(x, at) => SendFromISRKeeps(q, x, at, value, n);
    case ReceiveFromISR => ReceiveFromISRKeeps(q, value, n);
    case TimesOut(t) => TimesOutKeeps(q, t, value, n);
  }
}
