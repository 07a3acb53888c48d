/** The queue of queue.c with its storage area and lock counts, proved to do what QueueModel's steps say. */
module Queues {
  import opened ListSpec
  import opened QueueModel
  import QueueRun
  import R = QueueRing
  import opened Wrappers

  class Queue_t<T(0)> {
    const uxLength: nat
    // The storage area, one cell for each message of uxItemSize bytes.
    const pcHead: array<T>
    var pcWriteTo: nat
    var pcReadFrom: nat
    var uxMessagesWaiting: nat
    var cRxLock: int
    var cTxLock: int
    var xTasksWaitingToSend: seq<Task>
    var xTasksWaitingToReceive: seq<Task>
    // Tasks woken from each list that have not run since, and the task that has the queue locked.
    ghost var senders: set<Task>
    ghost var receivers: set<Task>
    ghost var locker: Locker

    ghost function Ring(): R.Slots<T>
      reads this, pcHead
    {
      R.Slots(pcHead[..], pcReadFrom, pcWriteTo, uxMessagesWaiting)
    }

    ghost predicate Valid()
      reads this, pcHead
    {
      uxLength == pcHead.Length && R.Sound(Ring())
    }

    ghost function State(): Queue<T>
      reads this, pcHead
      requires Valid()
    {
      Queue(uxLength, R.Items(Ring()), Wait(xTasksWaitingToReceive, receivers, cTxLock),
            Wait(xTasksWaitingToSend, senders, cRxLock), locker)
    }

    // xQueueGenericCreate and xQueueGenericReset
    constructor (length: nat)
      requires length > 0
      ensures Valid() && fresh(pcHead) && State() == QueueRun.Empty(length)
    {
      uxLength := length;
      pcHead := new T[length];
      uxMessagesWaiting, pcWriteTo, pcReadFrom := 0, 0, length - 1;
      cRxLock, cTxLock := queueUNLOCKED, queueUNLOCKED;
      xTasksWaitingToSend, xTasksWaitingToReceive := [], [];
      senders, receivers, locker := {}, {}, Free;
      new;
      R.ResetItems(pcHead[..]);
    }

    // ----- copying ---------------------------------------------------------------------------------

    method prvCopyDataToQueue(x: T, xPosition: Position)
      requires Valid() && (xPosition.Overwrite? ==> uxLength == 1)
      requires uxMessagesWaiting < uxLength || xPosition.Overwrite?
      modifies `pcWriteTo, `pcReadFrom, `uxMessagesWaiting, pcHead
      ensures Valid() && State() == old(State()).(items := Put(old(State()).items, x, xPosition))
    {
      ghost var r := Ring();
      var waiting := uxMessagesWaiting;
      if xPosition.Back? {
        R.PutBackItems(r, x);
        pcHead[pcWriteTo] := x;
        pcWriteTo := pcWriteTo + 1;
        if pcWriteTo >= pcHead.Length {
          pcWriteTo := 0;
        }
      } else {
        pcHead[pcReadFrom] := x;
        if pcReadFrom == 0 {
          pcReadFrom := pcHead.Length - 1;
        } else {
          pcReadFrom := pcReadFrom - 1;
        }
        if xPosition.Overwrite? {
          R.PutOverItems(r, x);
          if waiting > 0 {
            waiting := waiting - 1;
          }
        } else {
          R.PutFrontItems(r, x);
        }
      }
      uxMessagesWaiting := waiting + 1;
      assert Ring() == if xPosition.Back? then R.PutBack(r, x)
                       else if xPosition.Front? then R.PutFront(r, x)
                       else R.PutOver(r, x);
    }

    // The read position is advanced, but the count of messages is left to the caller.
    method prvCopyDataFromQueue() returns (x: T)
      requires Valid() && uxMessagesWaiting > 0
      modifies `pcReadFrom
      ensures pcReadFrom == R.NextRead(old(Ring())) && x == old(State()).items[0]
    {
      R.TakeItems(Ring());
      pcReadFrom := pcReadFrom + 1;
      if pcReadFrom >= pcHead.Length {
        pcReadFrom := 0;
      }
      x := pcHead[pcReadFrom];
    }

    // ----- waking ----------------------------------------------------------------------------------

    method WakeReceiver()
      requires Valid()
      modifies `xTasksWaitingToReceive, `receivers
      ensures Valid() && State() == old(State()).(receive := Wake(old(State()).receive))
    {
      if xTasksWaitingToReceive != [] {
        receivers := receivers + {xTasksWaitingToReceive[0]};
        xTasksWaitingToReceive := xTasksWaitingToReceive[1..];
      }
    }

    method WakeSender()
      requires Valid()
      modifies `xTasksWaitingToSend, `senders
      ensures Valid() && State() == old(State()).(send := Wake(old(State()).send))
    {
      if xTasksWaitingToSend != [] {
        senders := senders + {xTasksWaitingToSend[0]};
        xTasksWaitingToSend := xTasksWaitingToSend[1..];
      }
    }

    method prvIncrementQueueTxLock(uxNumberOfTasks: nat)
      requires Valid()
      modifies `cTxLock
      ensures Valid() && cTxLock == IncrementLock(old(cTxLock), uxNumberOfTasks)
    {
      if Unsigned(cTxLock) < uxNumberOfTasks {
        cTxLock := Int8(cTxLock + 1);
      }
    }

    method prvIncrementQueueRxLock(uxNumberOfTasks: nat)
      requires Valid()
      modifies `cRxLock
      ensures Valid() && cRxLock == IncrementLock(old(cRxLock), uxNumberOfTasks)
    {
      if Unsigned(cRxLock) < uxNumberOfTasks {
        cRxLock := Int8(cRxLock + 1);
      }
    }

    // ----- the critical sections of a task ---------------------------------------------------------

    // The critical section of xQueueGenericSend, entered by task t.
    method TrySend(ghost t: Task, x: T, xCopyPosition: Position, ghost value: map<Task, nat>, ghost n: nat)
        returns (sent: bool)
      requires Valid() && (xCopyPosition.Overwrite? ==> uxLength == 1)
      modifies this, pcHead
      ensures Valid() && State() == Apply(old(State()), TaskSend(t, x, xCopyPosition), value, n)
      ensures sent == HasRoom(old(State()), xCopyPosition)
    {
      hide Wake;
      sent := false;
      senders := senders - {t};
      if uxMessagesWaiting < uxLength || xCopyPosition.Overwrite? {
        prvCopyDataToQueue(x, xCopyPosition);
        WakeReceiver();
        sent := true;
      }
    }

    // The critical section of xQueueReceive.
    method TryReceive(ghost t: Task, ghost value: map<Task, nat>, ghost n: nat) returns (received: Option<T>)
      requires Valid()
      modifies this
      ensures Valid() && State() == Apply(old(State()), TaskReceive(t), value, n)
      ensures received == if old(State()).items == [] then None else Some(old(State()).items[0])
    {
      hide Wake;
      received := None;
      receivers := receivers - {t};
      if uxMessagesWaiting > 0 {
        R.TakeItems(Ring());
        var x := prvCopyDataFromQueue();
        uxMessagesWaiting := uxMessagesWaiting - 1;
        WakeSender();
        received := Some(x);
      }
    }

    // The critical section of xQueuePeek.
    method TryPeek(ghost t: Task, ghost value: map<Task, nat>, ghost n: nat) returns (seen: Option<T>)
      requires Valid()
      modifies this
      ensures Valid() && State() == Apply(old(State()), TaskPeek(t), value, n)
      ensures seen == if old(State()).items == [] then None else Some(old(State()).items[0])
    {
      hide Wake;
      seen := None;
      receivers := receivers - {t};
      if uxMessagesWaiting > 0 {
        var pcOriginalReadPosition := pcReadFrom;
        var x := prvCopyDataFromQueue();
        pcReadFrom := pcOriginalReadPosition;
        WakeReceiver();
        seen := Some(x);
      }
    }

    method prvLockQueue(ghost t: Task, ghost side: Side, ghost value: map<Task, nat>, ghost n: nat)
      requires Valid()
      modifies `cRxLock, `cTxLock, `locker
      ensures Valid() && State() == Apply(old(State()), LockQueue(t, side), value, n)
    {
      if cRxLock == queueUNLOCKED {
        cRxLock := queueLOCKED_UNMODIFIED;
      }
      if cTxLock == queueUNLOCKED {
        cTxLock := queueLOCKED_UNMODIFIED;
      }
      locker := Locked(t, side);
    }

    // prvIsQueueFull and prvIsQueueEmpty, by the task that has the queue locked.
    method prvIsStillBlocked(side: Side, ghost value: map<Task, nat>, ghost n: nat) returns (still: bool)
      requires Valid() && locker.Locked? && locker.side == side
      modifies `locker
      ensures Valid() && State() == Apply(old(State()), CheckStill, value, n)
      ensures still == StillBlocked(old(State()), side)
    {
      still := if side.ToSend? then uxMessagesWaiting == uxLength else uxMessagesWaiting == 0;
      locker := if still then Found(locker.t, locker.side) else Leaving;
    }

    // vTaskPlaceOnEventList
    method PlaceOnEventList(pxCurrentTCB: Task, side: Side, value: map<Task, nat>, ghost n: nat)
      requires Valid() && locker == Found(pxCurrentTCB, side)
      modifies `xTasksWaitingToSend, `xTasksWaitingToReceive, `locker
      ensures Valid() && State() == Apply(old(State()), PlaceOnList, value, n)
    {
      if side.ToSend? {
        xTasksWaitingToSend := InsertByValue(xTasksWaitingToSend, value, pxCurrentTCB);
      } else {
        xTasksWaitingToReceive := InsertByValue(xTasksWaitingToReceive, value, pxCurrentTCB);
      }
      locker := Leaving;
    }

    // The first critical section of prvUnlockQueue.
    method UnlockQueueTx(ghost value: map<Task, nat>, ghost n: nat)
      requires Valid()
      modifies `xTasksWaitingToReceive, `receivers, `cTxLock, `locker
      ensures Valid() && State() == Apply(old(State()), UnlockTx, value, n)
    {
      hide Wake;
      var lock := cTxLock;
      while lock > queueLOCKED_UNMODIFIED
        invariant Valid() && State() == old(State()).(receive := State().receive)
        invariant WakeMany(State().receive, lock) == WakeMany(old(State()).receive, old(cTxLock))
        decreases lock
      {
        if xTasksWaitingToReceive != [] {
          WakeManyCount(State().receive, lock);
          WakeReceiver();
        } else {
          break;
        }
        lock := lock - 1;
      }
      cTxLock := queueUNLOCKED;
      locker := HalfUnlocked;
    }

    // The second one.
    method UnlockQueueRx(ghost value: map<Task, nat>, ghost n: nat)
      requires Valid()
      modifies `xTasksWaitingToSend, `senders, `cRxLock, `locker
      ensures Valid() && State() == Apply(old(State()), UnlockRx, value, n)
    {
      hide Wake;
      var lock := cRxLock;
      while lock > queueLOCKED_UNMODIFIED
        invariant Valid() && State() == old(State()).(send := State().send)
        invariant WakeMany(State().send, lock) == WakeMany(old(State()).send, old(cRxLock))
        decreases lock
      {
        if xTasksWaitingToSend != [] {
          WakeManyCount(State().send, lock);
          WakeSender();
          lock := lock - 1;
        } else {
          break;
        }
      }
      cRxLock := queueUNLOCKED;
      locker := Free;
    }

    // ----- interrupts ------------------------------------------------------------------------------

    method xQueueGenericSendFromISR(x: T, xCopyPosition: Position, uxNumberOfTasks: nat, ghost value: map<Task, nat>)
      returns (sent: bool)
      requires Valid() && (xCopyPosition.Overwrite? ==> uxLength == 1)
      modifies this, pcHead
      ensures Valid() && State() == Apply(old(State()), SendFromISR(x, xCopyPosition), value, uxNumberOfTasks)
      ensures sent == HasRoom(old(State()), xCopyPosition)
    {
      hide Wake, IncrementLock;
      sent := false;
      if uxMessagesWaiting < uxLength || xCopyPosition.Overwrite? {
        prvCopyDataToQueue(x, xCopyPosition);
        if cTxLock == queueUNLOCKED {
          WakeReceiver();
        } else {
          prvIncrementQueueTxLock(uxNumberOfTasks);
        }
        sent := true;
      }
    }

    method xQueueReceiveFromISR(uxNumberOfTasks: nat, ghost value: map<Task, nat>) returns (received: Option<T>)
      requires Valid()
      modifies this
      ensures Valid() && State() == Apply(old(State()), ReceiveFromISR, value, uxNumberOfTasks)
      ensures received == if old(State()).items == [] then None else Some(old(State()).items[0])
    {
      hide Wake, IncrementLock;
      received := None;
      if uxMessagesWaiting > 0 {
        R.TakeItems(Ring());
        var x := prvCopyDataFromQueue();
        uxMessagesWaiting := uxMessagesWaiting - 1;
        if cRxLock == queueUNLOCKED {
          WakeSender();
        } else {
          prvIncrementQueueRxLock(uxNumberOfTasks);
        }
        received := Some(x);
      }
    }
  }
}
