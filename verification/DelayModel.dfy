/** What task delays and time-outs mean: every blocked task has one wake time in unbounded time. */
module DelayModel {
  import opened Ticks

  type Task = nat

  datatype Phase = Runnable | Until(wake: nat) | Indefinitely

  // Where a task's event list item is.
  datatype EventPlace = NoEvent | OnObject | PendingReady

  // clock counts the ticks processed so far, pended those that wait for the scheduler to resume.
  datatype Delays = Delays(clock: nat, pended: nat, nest: nat,
                           phase: map<Task, Phase>, event: map<Task, EventPlace>)

  predicate Expires(a: Delays, t: Task)
    requires t in a.phase
  {
    a.phase[t].Until? && a.phase[t].wake <= a.clock + 1
  }

  // One tick is processed: every task whose time has come is released, and leaves its event list.
  function ProcessTick(a: Delays): Delays {
    a.(clock := a.clock + 1,
       phase := map t | t in a.phase :: if Expires(a, t) then Runnable else a.phase[t],
       event := map t | t in a.event :: if t in a.phase && Expires(a, t) then NoEvent else a.event[t])
  }

  function Tick(a: Delays): Delays {
    if a.nest == 0 then ProcessTick(a) else a.(pended := TickAdd(a.pended, 1))
  }

  function Replay(a: Delays, n: nat): Delays
    decreases n
  {
    if n == 0 then a else Replay(ProcessTick(a), n - 1)
  }

  function SuspendAll(a: Delays): Delays {
    a.(nest := a.nest + 1)
  }

  // Tasks woken while the scheduler was suspended become runnable.
  function ReleasePending(a: Delays): Delays {
    a.(phase := map t | t in a.phase :: if t in a.event && a.event[t].PendingReady? then Runnable else a.phase[t],
       event := map t | t in a.event :: if a.event[t].PendingReady? then NoEvent else a.event[t])
  }

  // The outermost resume first releases the woken tasks, then processes the ticks that were held back.
  function ResumeAll(a: Delays): Delays
    requires a.nest > 0
  {
    if a.nest > 1 then a.(nest := a.nest - 1)
    else Replay(ReleasePending(a.(nest := 0)), a.pended).(pended := 0)
  }

  // Task t blocks for d ticks, or for ever when d is portMAX_DELAY and the caller allows that.
  function Block(a: Delays, t: Task, d: nat, forever: bool, place: EventPlace): Delays {
    a.(phase := a.phase[t := if d == MAX_DELAY && forever then Indefinitely else Until(a.clock + d)],
       event := a.event[t := place])
  }

  // An event wakes t; while the scheduler is suspended t is only noted as pending.
  function Wake(a: Delays, t: Task): Delays {
    if a.nest == 0 then a.(phase := a.phase[t := Runnable], event := a.event[t := NoEvent])
    else a.(event := a.event[t := PendingReady])
  }

  // Event groups wake a task at once, although the scheduler is suspended.
  function WakeNow(a: Delays, t: Task): Delays {
    a.(phase := a.phase[t := Runnable], event := a.event[t := NoEvent])
  }

  // vTaskSuspend and vTaskResume of a task.
  function SuspendTask(a: Delays, t: Task): Delays {
    a.(phase := a.phase[t := Indefinitely], event := a.event[t := NoEvent])
  }

  function ResumeTask(a: Delays, t: Task): Delays
    requires t in a.phase && t in a.event
  {
    if a.phase[t].Indefinitely? && a.event[t].NoEvent? then a.(phase := a.phase[t := Runnable]) else a
  }

  // xTaskResumeFromISR has to wait for the scheduler as an event does.
  function ResumeTaskFromISR(a: Delays, t: Task): Delays
    requires t in a.phase && t in a.event
  {
    if a.phase[t].Indefinitely? && a.event[t].NoEvent? then Wake(a, t) else a
  }

  // ----- runs ----------------------------------------------------------------------------------

  datatype Event = TickEvent | BlockEvent(t: Task, d: nat, forever: bool, place: EventPlace)
                 | WakeEvent(t: Task) | WakeNowEvent(t: Task) | SuspendEvent(t: Task)
                 | ResumeEvent(t: Task) | ResumeFromISREvent(t: Task)
                 | SuspendAllEvent | ResumeAllEvent | OtherEvent

  // OtherEvent is a step that concerns neither time nor blocking.
  function Happens(a: Delays, e: Event): Delays {
    match e
    case TickEvent => Tick(a)
    case BlockEvent(t, d, forever, place) => Block(a, t, d, forever, place)
    case WakeEvent(t) => Wake(a, t)
    case WakeNowEvent(t) => WakeNow(a, t)
    case SuspendEvent(t) => SuspendTask(a, t)
    case ResumeEvent(t) => if t in a.phase && t in a.event then ResumeTask(a, t) else a
    case ResumeFromISREvent(t) => if t in a.phase && t in a.event then ResumeTaskFromISR(a, t) else a
    case SuspendAllEvent => SuspendAll(a)
    case ResumeAllEvent => if a.nest > 0 then ResumeAll(a) else a
    case OtherEvent => a
  }

  function Run(a: Delays, es: seq<Event>): Delays
    decreases |es|
  {
    if es == [] then a else Run(Happens(a, es[0]), es[1..])
  }
}
