/** Suspending and resuming the scheduler: what happened meanwhile is made up for, in order. */
module KernelResume {
  import opened Ticks
  import opened ListSpec
  import opened DelayModel
  import opened StateLists
  import opened KernelModel
  import opened KernelTick
  import opened KernelSteps

  // ----- the tick interrupt --------------------------------------------------------------------

  // A task that this tick releases outranks the running task.
  predicate ReleasesAbove(c: Kernel) {
    exists t :: t in c.prio && Due(c, t) && Above(c, t)
  }

  // Other tasks are ready at the priority of the running task.
  predicate Shared(s: Kernel) {
    var p := ValueOf(s.prio, s.current);
    p < |s.lists.ready| && |s.lists.ready[p].items| > 1
  }

  // The value of xTaskIncrementTick when the tick is processed in state s.
  predicate SwitchRequired(s: Kernel) {
    ReleasesAbove(Counted(s)) || Shared(IncrementTick(s)) || s.yieldPending
  }

  // xTaskIncrementTick
  function TickInterrupt(s: Kernel): Kernel {
    if s.nest == 0 then IncrementTick(s) else s.(pended := TickAdd(s.pended, 1))
  }

  lemma NestKeeps(s: Kernel, nest: nat, pended: nat)
    requires Consistent(s)
    ensures Consistent(s.(nest := nest, pended := pended))
    ensures View(s.(nest := nest, pended := pended)) == View(s).(nest := nest, pended := pended)
  {
    hide Epochs, Placed, Queued, NextInTime, Pended, Somewhere, ReadyItems, Tasks, InTime, Phases;
  }

  lemma PendedTickValid(s: Kernel)
    requires Valid(s) && s.nest > 0
    ensures Valid(TickInterrupt(s)) && View(TickInterrupt(s)) == Tick(View(s))
  {
    hide Consistent, Phases;
    NestKeeps(s, s.nest, TickAdd(s.pended, 1));
    assert TickInterrupt(s) == s.(nest := s.nest, pended := TickAdd(s.pended, 1));
  }

  lemma TickInterruptRefines(s: Kernel)
    requires Valid(s)
    ensures Valid(TickInterrupt(s)) && View(TickInterrupt(s)) == Tick(View(s))
  {
    hide Consistent, IncrementTick;
    if s.nest == 0 {
      TickKeepsConsistent(s);
      TickRefines(s);
    } else {
      PendedTickValid(s);
    }
  }

  // ----- xTaskResumeAll ------------------------------------------------------------------------

  predicate NotBelow(s: Kernel, t: Task) {
    ValueOf(s.prio, t) >= ValueOf(s.prio, s.current)
  }

  function ReleaseHead(s: Kernel): Kernel
    requires s.pending != []
  {
    MakeReady(s, s.pending[0]).(yieldPending := s.yieldPending || NotBelow(s, s.pending[0]))
  }

  // The first loop. (A task made ready leaves the list, so the test succeeds.)
  function ReleaseAll(s: Kernel): Kernel
    decreases |s.pending|
  {
    if s.pending == [] then s
    else if |ReleaseHead(s).pending| < |s.pending| then ReleaseAll(ReleaseHead(s)) else ReleaseHead(s)
  }

  function ReplayTick(s: Kernel): Kernel {
    IncrementTick(s).(yieldPending := SwitchRequired(s) || IncrementTick(s).yieldPending)
  }

  // The second loop.
  function ReplayTicks(s: Kernel, n: nat): Kernel
    decreases n
  {
    if n == 0 then s else ReplayTicks(ReplayTick(s), n - 1)
  }

  function PendingReleased(s: Kernel): Kernel {
    if s.pending == [] then s else ResetNextTaskUnblockTime(ReleaseAll(s))
  }

  function ResumeAll(s: Kernel): Kernel
    requires s.nest > 0
  {
    var r := s.(nest := s.nest - 1);
    if r.nest > 0 then r else ReplayTicks(PendingReleased(r), r.pended).(pended := 0)
  }

  lemma PendedHead(s: Kernel)
    requires Structure(s) && s.pending != []
    ensures s.pending[0] in s.prio && s.pending[0] in s.event && s.event[s.pending[0]] == PendingReady
    ensures |LeavePending(s.pending, s.event, s.pending[0])| == |s.pending| - 1
  {
    assert s.pending[0] in s.pending;
  }

  lemma YieldConsistent(s: Kernel, y: bool)
    ensures Consistent(s.(yieldPending := y)) == Consistent(s) && View(s.(yieldPending := y)) == View(s)
  {
    hide Epochs, Placed, Queued, NextInTime, Pended, Somewhere, ReadyItems, Tasks, InTime, Phases;
  }

  lemma ReleaseHeadStep(s: Kernel)
    requires Consistent(s) && s.pending != []
    ensures Consistent(ReleaseHead(s)) && |ReleaseHead(s).pending| == |s.pending| - 1
    ensures View(ReleaseHead(s)) == WakeNow(View(s), s.pending[0])
    ensures ReleaseHead(s).nest == s.nest && ReleaseHead(s).pended == s.pended
    ensures s.pending[0] in s.event && s.event[s.pending[0]] == PendingReady
  {
    hide Consistent, Structure, LeavePending, View, AddReady, RemoveItem;
    ConsistentStructure(s);
    PendedHead(s);
    MakeReadyConsistent(s, s.pending[0]);
    MakeReadyView(s, s.pending[0]);
    YieldConsistent(MakeReady(s, s.pending[0]), ReleaseHead(s).yieldPending);
  }

  // Releasing one pending task first changes nothing about releasing them all.
  lemma ReleaseOneFirst(a: Delays, t: Task)
    requires t in a.event && a.event[t].PendingReady? && t in a.phase
    ensures ReleasePending(WakeNow(a, t)) == ReleasePending(a)
  {
    assert ReleasePending(WakeNow(a, t)).phase == ReleasePending(a).phase;
    assert ReleasePending(WakeNow(a, t)).event == ReleasePending(a).event;
  }

  lemma NothingToRelease(a: Delays)
    requires forall t :: t in a.event ==> !a.event[t].PendingReady?
    ensures ReleasePending(a) == a
  {
    assert ReleasePending(a).phase == a.phase;
    assert ReleasePending(a).event == a.event;
  }

  lemma NonePending(s: Kernel)
    requires Structure(s) && s.pending == []
    ensures forall t :: t in s.event ==> !s.event[t].PendingReady?
  {
    assert Pended(s.pending, s.event);
    hide Structure;
  }

  lemma KnownPhase(s: Kernel, t: Task)
    requires Structure(s) && t in s.event
    ensures t in View(s).phase
  {
  }

  lemma ViewEvent(s: Kernel)
    ensures View(s).event == s.event
  {
  }

  lemma {:induction false} ReleaseAllReleases(s: Kernel)
    requires Consistent(s)
    ensures Consistent(ReleaseAll(s)) && ReleaseAll(s).pending == []
    ensures View(ReleaseAll(s)) == ReleasePending(View(s))
    ensures ReleaseAll(s).nest == s.nest && ReleaseAll(s).pended == s.pended
    decreases |s.pending|
  {
    hide Consistent, Structure, ReleaseHead, View, ReleasePending, WakeNow;
    ViewEvent(s);
    ConsistentStructure(s);
    if s.pending == [] {
      NonePending(s);
      NothingToRelease(View(s));
    } else {
      ReleaseHeadStep(s);
      KnownPhase(s, s.pending[0]);
      ReleaseOneFirst(View(s), s.pending[0]);
      ReleaseAllReleases(ReleaseHead(s));
    }
  }

  lemma ResetKeeps(s: Kernel)
    requires Consistent(s)
    ensures Consistent(ResetNextTaskUnblockTime(s)) && View(ResetNextTaskUnblockTime(s)) == View(s)
  {
    hide Epochs, Placed, Queued, NextInTime, Pended, Somewhere, ReadyItems, Tasks, InTime, Phases;
    ResetInTime(s.lists.delayed, s.value);
  }

  lemma ReleasedRefines(s: Kernel)
    requires Consistent(s)
    ensures Consistent(PendingReleased(s)) && PendingReleased(s).pending == []
    ensures View(PendingReleased(s)) == ReleasePending(View(s))
    ensures PendingReleased(s).nest == s.nest && PendingReleased(s).pended == s.pended
  {
    hide Consistent, ReleaseHead, View, ReleasePending;
    ReleaseAllReleases(s);
    ResetKeeps(ReleaseAll(s));
  }

  lemma {:induction false} ReplayRefines(s: Kernel, n: nat)
    requires Consistent(s)
    ensures Consistent(ReplayTicks(s, n)) && View(ReplayTicks(s, n)) == Replay(View(s), n)
    ensures s.pending == [] ==> ReplayTicks(s, n).pending == []
    ensures ReplayTicks(s, n).nest == s.nest && ReplayTicks(s, n).pended == s.pended
    decreases n
  {
    hide Consistent, IncrementTick, View, ProcessTick, SwitchRequired;
    if n > 0 {
      TickKeepsConsistent(s);
      TickRefines(s);
      YieldConsistent(IncrementTick(s), ReplayTick(s).yieldPending);
      ReplayRefines(ReplayTick(s), n - 1);
    }
  }

  lemma ResumeAllRefines(s: Kernel)
    requires Valid(s) && s.nest > 0
    ensures Valid(ResumeAll(s)) && View(ResumeAll(s)) == DelayModel.ResumeAll(View(s))
  {
    hide Consistent, PendingReleased, ReplayTicks, ReleasePending, Replay, Phases;
    var r := s.(nest := s.nest - 1);
    NestKeeps(s, s.nest - 1, s.pended);
    ReleasedRefines(r);
    ReplayRefines(PendingReleased(r), r.pended);
    NestKeeps(ReplayTicks(PendingReleased(r), r.pended), 0, 0);
  }

  function SuspendAll(s: Kernel): Kernel {
    s.(nest := s.nest + 1)
  }

  lemma SuspendAllRefines(s: Kernel)
    requires Valid(s)
    ensures Valid(SuspendAll(s)) && View(SuspendAll(s)) == DelayModel.SuspendAll(View(s))
  {
    hide Consistent, Phases;
    NestKeeps(s, s.nest + 1, s.pended);
  }
}
