/** Event groups: one pass of a set call over all waiting tasks, and that none is left waiting in vain. */
module EventModel {
  import DelayModel

  type Task = DelayModel.Task

  const eventCLEAR_EVENTS_ON_EXIT_BIT: bv32 := 0x0100_0000
  const eventUNBLOCKED_DUE_TO_BIT_SET: bv32 := 0x0200_0000
  const eventWAIT_FOR_ALL_BITS: bv32 := 0x0400_0000
  const eventEVENT_BITS_CONTROL_BYTES: bv32 := 0xff00_0000
  const taskEVENT_LIST_ITEM_VALUE_IN_USE: bv32 := 0x8000_0000

  // Bits added and bits taken away.
  function Or(a: bv32, b: bv32): bv32 {
    a | b
  }

  function AndNot(a: bv32, b: bv32): bv32 {
    a & !b
  }

  // All, or some, of the bits in b are in a.
  predicate HasAll(a: bv32, b: bv32) {
    a & b == b
  }

  predicate HasSome(a: bv32, b: bv32) {
    a & b != 0
  }

  lemma FewerHas(a: bv32, c: bv32, b: bv32)
    ensures HasAll(AndNot(a, c), b) ==> HasAll(a, b)
    ensures HasSome(AndNot(a, c), b) ==> HasSome(a, b)
  {
  }

  // ----- conditions ------------------------------------------------------------------------------

  // prvTestWaitCondition
  predicate TestWaitCondition(bits: bv32, waitFor: bv32, all: bool) {
    if all then HasAll(bits, waitFor) else HasSome(bits, waitFor)
  }

  // The value of the event list item of a task that blocks.
  function ItemValue(waitFor: bv32, clear: bool, all: bool): bv32 {
    waitFor | (if clear then eventCLEAR_EVENTS_ON_EXIT_BIT else 0) | (if all then eventWAIT_FOR_ALL_BITS else 0)
      | taskEVENT_LIST_ITEM_VALUE_IN_USE
  }

  function WaitedFor(value: bv32): bv32 {
    AndNot(value, eventEVENT_BITS_CONTROL_BYTES)
  }

  predicate WantsClear(value: bv32) {
    value & eventEVENT_BITS_CONTROL_BYTES & eventCLEAR_EVENTS_ON_EXIT_BIT != 0
  }

  predicate WantsAll(value: bv32) {
    value & eventEVENT_BITS_CONTROL_BYTES & eventWAIT_FOR_ALL_BITS != 0
  }

  predicate WasReleased(value: bv32) {
    value & eventUNBLOCKED_DUE_TO_BIT_SET != 0
  }

  function ClearedBy(value: bv32): bv32 {
    if WantsClear(value) then WaitedFor(value) else 0
  }

  // The test in the loop of xEventGroupSetBits.
  predicate Met(bits: bv32, value: bv32) {
    if !WantsAll(value) then HasSome(bits, WaitedFor(value)) else HasAll(bits, WaitedFor(value))
  }

  predicate NoControl(bits: bv32) {
    bits & eventEVENT_BITS_CONTROL_BYTES == 0
  }

  // The item value carries the request faithfully, and does not look like a release.
  lemma ItemValueKeeps(bits: bv32, waitFor: bv32, clear: bool, all: bool)
    requires NoControl(waitFor)
    ensures var v := ItemValue(waitFor, clear, all);
            && WaitedFor(v) == waitFor && ClearedBy(v) == (if clear then waitFor else 0)
            && Met(bits, v) == TestWaitCondition(bits, waitFor, all) && !WasReleased(v)
  {
    ItemValueBits(waitFor, clear, all);
    hide ItemValue, WaitedFor, WantsAll, WantsClear, WasReleased, HasAll, HasSome, NoControl;
  }

  lemma ItemValueBits(waitFor: bv32, clear: bool, all: bool)
    requires NoControl(waitFor)
    ensures var v := ItemValue(waitFor, clear, all);
            WaitedFor(v) == waitFor && WantsClear(v) == clear && WantsAll(v) == all && !WasReleased(v)
  {
  }

  lemma FewerBits(bits: bv32, clear: bv32, value: bv32)
    ensures Met(AndNot(bits, clear), value) ==> Met(bits, value)
    ensures NoControl(bits) ==> NoControl(AndNot(bits, clear))
  {
    FewerHas(bits, clear, WaitedFor(value));
    FewerControl(bits, clear);
    hide AndNot, HasAll, HasSome, WaitedFor, WantsAll, NoControl;
  }

  lemma FewerControl(bits: bv32, clear: bv32)
    ensures NoControl(bits) ==> NoControl(AndNot(bits, clear))
  {
  }

  // ----- the state -------------------------------------------------------------------------------

  datatype Waiter = Waiter(t: Task, value: bv32)

  // uxEventBits, xTasksWaitingForBits, and the item values of tasks that have left that list but have
  // not run since.
  datatype Group = Group(bits: bv32, waiting: seq<Waiter>, left: map<Task, bv32>)

  function Released(ws: seq<Waiter>, bits: bv32): seq<Waiter> {
    if ws == [] then []
    else (if Met(bits, ws[0].value) then [ws[0]] else []) + Released(ws[1..], bits)
  }

  function Kept(ws: seq<Waiter>, bits: bv32): seq<Waiter> {
    if ws == [] then []
    else (if Met(bits, ws[0].value) then [] else [ws[0]]) + Kept(ws[1..], bits)
  }

  // The union of the bits that the tasks ask to be cleared.
  function Clears(ws: seq<Waiter>): bv32 {
    if ws == [] then 0 else Or(ClearedBy(ws[0].value), Clears(ws[1..]))
  }

  function Deliver(left: map<Task, bv32>, ws: seq<Waiter>, value: bv32): map<Task, bv32>
    decreases |ws|
  {
    if ws == [] then left else Deliver(left[ws[0].t := value], ws[1..], value)
  }

  // The item value of a task that is released when the bits are bits.
  function ReleaseValue(bits: bv32): bv32 {
    Or(Or(bits, eventUNBLOCKED_DUE_TO_BIT_SET), taskEVENT_LIST_ITEM_VALUE_IN_USE)
  }

  // xEventGroupSetBits
  function SetBits(g: Group, set_: bv32): Group {
    var bits := Or(g.bits, set_);
    var out := Released(g.waiting, bits);
    Group(AndNot(bits, Clears(out)), Kept(g.waiting, bits), Deliver(g.left, out, ReleaseValue(bits)))
  }

  function ClearBits(g: Group, clear: bv32): Group {
    g.(bits := AndNot(g.bits, clear))
  }

  datatype Outcome = Returned(value: bv32) | Blocked

  // xEventGroupWaitBits up to the point where the task may block.
  function WaitBits(g: Group, t: Task, waitFor: bv32, clear: bool, all: bool, block: bool): (Group, Outcome) {
    if TestWaitCondition(g.bits, waitFor, all) then
      (if clear then ClearBits(g, waitFor) else g, Returned(g.bits))
    else if !block then (g, Returned(g.bits))
    else (g.(waiting := g.waiting + [Waiter(t, ItemValue(waitFor, clear, all))]), Blocked)
  }

  // xEventGroupSync up to that point.
  function Sync(g: Group, t: Task, set_: bv32, waitFor: bv32, block: bool): (Group, Outcome) {
    var h := SetBits(g, set_);
    if HasAll(Or(g.bits, set_), waitFor) then (ClearBits(h, waitFor), Returned(Or(g.bits, set_)))
    else if !block then (h, Returned(h.bits))
    else (h.(waiting := h.waiting + [Waiter(t, ItemValue(waitFor, true, true))]), Blocked)
  }

  // The tick takes a task whose time has come off the list; its item value stays as it is.
  function TimesOut(g: Group, k: nat): Group {
    if k < |g.waiting| then
      g.(waiting := g.waiting[..k] + g.waiting[k + 1..], left := g.left[g.waiting[k].t := g.waiting[k].value])
    else g
  }

  // What a task does when it runs again after having blocked: Sync is the case of clear and all.
  function Finish(g: Group, t: Task, waitFor: bv32, clear: bool, all: bool): (Group, bv32) {
    var v := if t in g.left then g.left[t] else 0;
    var h := g.(left := g.left - {t});
    if !WasReleased(v) then
      (if clear && TestWaitCondition(g.bits, waitFor, all) then ClearBits(h, waitFor) else h,
       WaitedFor(g.bits))
    else (h, WaitedFor(v))
  }

  // ----- one set call ----------------------------------------------------------------------------

  lemma {:induction false} ReleasedExactly(ws: seq<Waiter>, bits: bv32)
    ensures forall w :: w in Released(ws, bits) <==> w in ws && Met(bits, w.value)
    ensures forall w :: w in Kept(ws, bits) <==> w in ws && !Met(bits, w.value)
    ensures |Released(ws, bits)| + |Kept(ws, bits)| == |ws|
  {
    hide Met;
    if ws != [] {
      ReleasedExactly(ws[1..], bits);
      assert ws == [ws[0]] + ws[1..];
    }
  }

  predicate Distinct(ws: seq<Waiter>) {
    forall i, j :: 0 <= i < j < |ws| ==> ws[i].t != ws[j].t
  }

  lemma {:induction false} DeliveredExactly(left: map<Task, bv32>, ws: seq<Waiter>, value: bv32, t: Task)
    ensures (exists w :: w in ws && w.t == t) ==> t in Deliver(left, ws, value) && Deliver(left, ws, value)[t] == value
    ensures !(exists w :: w in ws && w.t == t) && t in left ==>
              t in Deliver(left, ws, value) && Deliver(left, ws, value)[t] == left[t]
    ensures !(exists w :: w in ws && w.t == t) && t !in left ==> t !in Deliver(left, ws, value)
    decreases |ws|
  {
    if ws != [] {
      DeliveredExactly(left[ws[0].t := value], ws[1..], value, t);
      assert forall w :: w in ws <==> w == ws[0] || w in ws[1..];
    }
  }

  // A set call judges every waiting task by the same bits, old and new together and nothing cleared
  // yet, releases exactly those whose condition they meet, and gives each of them that value.
  lemma SetReleases(g: Group, set_: bv32, w: Waiter)
    requires w in g.waiting && Distinct(g.waiting)
    ensures var h := SetBits(g, set_);
            if Met(Or(g.bits, set_), w.value)
            then w !in h.waiting && w.t in h.left && h.left[w.t] == ReleaseValue(Or(g.bits, set_))
            else w in h.waiting && (w.t in h.left <==> w.t in g.left) && (w.t in g.left ==> h.left[w.t] == g.left[w.t])
  {
    hide Met, Released, Kept, Deliver, ReleaseValue;
    var bits := Or(g.bits, set_);
    ReleasedExactly(g.waiting, bits);
    DeliveredExactly(g.left, Released(g.waiting, bits), ReleaseValue(bits), w.t);
    if !Met(bits, w.value) {
      forall x | x in Released(g.waiting, bits) ensures x.t != w.t {
        if x.t == w.t {
          SameWaiter(g.waiting, x, w);
        }
      }
    }
  }

  lemma SameWaiter(ws: seq<Waiter>, x: Waiter, w: Waiter)
    requires Distinct(ws) && x in ws && w in ws && x.t == w.t
    ensures x == w
  {
  }

  lemma AllSelf(c: bv32)
    ensures HasAll(c, c) && !HasSome(0, c)
  {
  }

  lemma OrSwap(a: bv32, b: bv32)
    ensures Or(a, b) == Or(b, a)
  {
  }

  lemma NoMore(a: bv32, b: bv32, c: bv32)
    requires !HasSome(a, c) && !HasSome(b, c)
    ensures !HasSome(Or(a, b), c)
  {
  }

  // ----- bit by bit ------------------------------------------------------------------------------

  // A single bit.
  predicate Single(bit: bv32) {
    bit != 0 && bit & (bit - 1) == 0
  }

  // A single bit is in a set of bits as a whole or not at all.
  lemma SingleAll(a: bv32, bit: bv32)
    requires Single(bit)
    ensures HasSome(a, bit) ==> HasAll(a, bit)
  {
  }

  lemma BitOr(a: bv32, b: bv32, bit: bv32)
    ensures HasSome(Or(a, b), bit) <==> HasSome(a, bit) || HasSome(b, bit)
  {
    OrBoth(a, b, bit);
    OrHas(a, b, bit);
    OrSwap(a, b);
    OrHas(b, a, bit);
    hide HasSome, Or;
  }

  lemma OrBoth(a: bv32, b: bv32, bit: bv32)
    ensures HasSome(Or(a, b), bit) ==> HasSome(a, bit) || HasSome(b, bit)
  {
    if !HasSome(a, bit) && !HasSome(b, bit) {
      NoMore(a, b, bit);
      hide HasSome, Or;
    }
  }

  lemma OrHas(a: bv32, b: bv32, bit: bv32)
    ensures HasSome(a, bit) ==> HasSome(Or(a, b), bit)
  {
  }

  lemma BitAndNot(a: bv32, b: bv32, bit: bv32)
    requires Single(bit)
    ensures HasSome(AndNot(a, b), bit) <==> HasSome(a, bit) && !HasSome(b, bit)
  {
    FewerHas(a, b, bit);
    SingleAll(b, bit);
    if HasSome(b, bit) {
      AllTaken(a, b, bit);
    } else {
      NoneTaken(a, b, bit);
    }
    hide HasSome, HasAll, AndNot, Single;
  }

  lemma AllTaken(a: bv32, b: bv32, bit: bv32)
    requires HasAll(b, bit)
    ensures !HasSome(AndNot(a, b), bit)
  {
  }

  lemma NoneTaken(a: bv32, b: bv32, bit: bv32)
    requires !HasSome(b, bit)
    ensures AndNot(a, b) & bit == a & bit
    ensures HasSome(AndNot(a, b), bit) <==> HasSome(a, bit)
  {
  }

  lemma {:induction false} BitClears(ws: seq<Waiter>, bit: bv32)
    ensures HasSome(Clears(ws), bit) <==> exists w :: w in ws && HasSome(ClearedBy(w.value), bit)
  {
    hide ClearedBy, HasSome, Or;
    AllSelf(bit);
    if ws != [] {
      BitClears(ws[1..], bit);
      BitOr(ClearedBy(ws[0].value), Clears(ws[1..]), bit);
      assert ws == [ws[0]] + ws[1..];
    }
  }

  // After a set call a bit is set exactly if it was set before or has been set now, and no waiting task
  // whose condition these bits meet has asked for it to be cleared. That is what the call returns.
  lemma SetLeaves(g: Group, set_: bv32, bit: bv32)
    requires Single(bit)
    ensures var bits := Or(g.bits, set_);
            HasSome(SetBits(g, set_).bits, bit)
            <==> (HasSome(g.bits, bit) || HasSome(set_, bit))
                 && !exists w :: w in g.waiting && Met(bits, w.value) && HasSome(ClearedBy(w.value), bit)
  {
    hide Met, ClearedBy, HasSome, Or, AndNot, Single, Clears, Released, Kept, Deliver;
    var bits := Or(g.bits, set_);
    var out := Released(g.waiting, bits);
    ReleasedExactly(g.waiting, bits);
    BitOr(g.bits, set_, bit);
    BitAndNot(bits, Clears(out), bit);
    BitClears(out, bit);
  }

  // A clear call takes away the bits it names, and nothing else.
  lemma ClearLeaves(g: Group, clear: bv32, bit: bv32)
    requires Single(bit)
    ensures var h := ClearBits(g, clear);
            && (HasSome(h.bits, bit) <==> HasSome(g.bits, bit) && !HasSome(clear, bit))
            && h.waiting == g.waiting && h.left == g.left
  {
    BitAndNot(g.bits, clear, bit);
    hide HasSome, AndNot, Single;
  }

  // A condition is met if all, or some, of the single bits it names are set.
  lemma AllIff(bits: bv32, waitFor: bv32)
    ensures HasAll(bits, waitFor) <==> forall bit :: Single(bit) && HasSome(waitFor, bit) ==> HasSome(bits, bit)
  {
    if HasAll(bits, waitFor) {
      forall bit | Single(bit) && HasSome(waitFor, bit) ensures HasSome(bits, bit) {
        AllHas(bits, waitFor, bit);
      }
    } else {
      var bit := Lowest(AndNot(waitFor, bits));
      LowestMissing(bits, waitFor);
      assert Single(bit) && HasSome(waitFor, bit) && !HasSome(bits, bit);
    }
  }

  lemma SomeIff(bits: bv32, waitFor: bv32)
    ensures HasSome(bits, waitFor) <==> exists bit :: Single(bit) && HasSome(waitFor, bit) && HasSome(bits, bit)
  {
    if HasSome(bits, waitFor) {
      LowestCommon(bits, waitFor);
      assert Single(Lowest(bits & waitFor));
    } else {
      forall bit | Single(bit) && HasSome(waitFor, bit) ensures !HasSome(bits, bit) {
        NoneHas(bits, waitFor, bit);
      }
    }
  }

  function Lowest(a: bv32): bv32 {
    a & (0 - a)
  }

  lemma AllHas(bits: bv32, waitFor: bv32, bit: bv32)
    requires HasAll(bits, waitFor) && HasSome(waitFor, bit)
    ensures HasSome(bits, bit)
  {
  }

  lemma NoneHas(bits: bv32, waitFor: bv32, bit: bv32)
    requires !HasSome(bits, waitFor) && Single(bit) && HasSome(waitFor, bit)
    ensures !HasSome(bits, bit)
  {
  }

  lemma LowestSingle(a: bv32)
    requires a != 0
    ensures Single(Lowest(a)) && HasAll(a, Lowest(a))
  {
  }

  lemma LowestMissing(bits: bv32, waitFor: bv32)
    requires !HasAll(bits, waitFor)
    ensures var bit := Lowest(AndNot(waitFor, bits)); Single(bit) && HasSome(waitFor, bit) && !HasSome(bits, bit)
  {
    var rest := AndNot(waitFor, bits);
    SomeMissing(bits, waitFor);
    LowestSingle(rest);
    PartMissing(bits, waitFor, Lowest(rest));
    hide HasSome, HasAll, AndNot, Lowest;
  }

  lemma SomeMissing(bits: bv32, waitFor: bv32)
    requires !HasAll(bits, waitFor)
    ensures AndNot(waitFor, bits) != 0
  {
  }

  lemma PartMissing(bits: bv32, waitFor: bv32, bit: bv32)
    requires HasAll(AndNot(waitFor, bits), bit) && bit != 0
    ensures HasSome(waitFor, bit) && !HasSome(bits, bit)
  {
  }

  lemma LowestCommon(bits: bv32, waitFor: bv32)
    requires HasSome(bits, waitFor)
    ensures var bit := Lowest(bits & waitFor); Single(bit) && HasSome(waitFor, bit) && HasSome(bits, bit)
  {
    LowestSingle(bits & waitFor);
    PartCommon(bits, waitFor, Lowest(bits & waitFor));
    hide HasAll, Lowest;
  }

  lemma PartCommon(bits: bv32, waitFor: bv32, bit: bv32)
    requires HasAll(bits & waitFor, bit) && bit != 0
    ensures HasSome(waitFor, bit) && HasSome(bits, bit)
  {
  }

  // All, or some, of the single bits in waitFor are set.
  ghost predicate MetBitwise(bits: bv32, waitFor: bv32, all: bool) {
    if all then forall bit :: Single(bit) && HasSome(waitFor, bit) ==> HasSome(bits, bit)
    else exists bit :: Single(bit) && HasSome(waitFor, bit) && HasSome(bits, bit)
  }

  lemma MetBitwiseIff(bits: bv32, waitFor: bv32, all: bool)
    ensures TestWaitCondition(bits, waitFor, all) <==> MetBitwise(bits, waitFor, all)
    ensures HasAll(bits, waitFor) <==> MetBitwise(bits, waitFor, true)
  {
    AllIff(bits, waitFor);
    SomeIff(bits, waitFor);
    hide HasSome, HasAll, Single;
  }

  // A task whose condition is met when it calls returns the bits as they were, and does not wait; one
  // that does not block returns them too, and changes nothing; the others join the list with their request.
  lemma WaitReturns(g: Group, t: Task, waitFor: bv32, clear: bool, all: bool, block: bool, bit: bv32)
    requires Single(bit)
    ensures var (h, o) := WaitBits(g, t, waitFor, clear, all, block);
            var met := MetBitwise(g.bits, waitFor, all);
            && h.left == g.left && (o.Blocked? <==> !met && block) && (o.Returned? ==> o.value == g.bits)
            && h.waiting == g.waiting + (if o.Blocked? then [Waiter(t, ItemValue(waitFor, clear, all))] else [])
            && (HasSome(h.bits, bit) <==> HasSome(g.bits, bit) && !(met && clear && HasSome(waitFor, bit)))
  {
    hide HasSome, HasAll, AndNot, Single, ItemValue, TestWaitCondition, MetBitwise;
    MetBitwiseIff(g.bits, waitFor, all);
    BitAndNot(g.bits, waitFor, bit);
  }

  // The call of Sync sets the bits as a set call does, for which the caller need not wait; if that
  // completes the rendezvous it returns the bits before any were cleared, and clears those of the
  // rendezvous, and if not it waits for all of them, or returns what is left.
  lemma SyncReturns(g: Group, t: Task, set_: bv32, waitFor: bv32, block: bool, bit: bv32)
    requires Single(bit)
    ensures var (h, o) := Sync(g, t, set_, waitFor, block);
            var s, met := SetBits(g, set_), MetBitwise(Or(g.bits, set_), waitFor, true);
            && h.left == s.left && (o.Blocked? <==> !met && block)
            && (o.Returned? ==> o.value == if met then Or(g.bits, set_) else s.bits)
            && h.waiting == s.waiting + (if o.Blocked? then [Waiter(t, ItemValue(waitFor, true, true))] else [])
            && (HasSome(h.bits, bit) <==> HasSome(s.bits, bit) && !(met && HasSome(waitFor, bit)))
  {
    hide HasSome, HasAll, Or, AndNot, Single, ItemValue, SetBits, MetBitwise;
    MetBitwiseIff(Or(g.bits, set_), waitFor, true);
    BitAndNot(SetBits(g, set_).bits, waitFor, bit);
  }

  // A set call leaves the item values of tasks that do not wait alone.
  lemma SetLeavesOthers(g: Group, set_: bv32, t: Task)
    requires !Waiting(g, t)
    ensures var h := SetBits(g, set_);
            (t in h.left <==> t in g.left) && (t in g.left ==> h.left[t] == g.left[t]) && !Waiting(h, t)
  {
    hide Met, Released, Kept, Deliver, ReleaseValue;
    var bits := Or(g.bits, set_);
    ReleasedExactly(g.waiting, bits);
    DeliveredExactly(g.left, Released(g.waiting, bits), ReleaseValue(bits), t);
  }

  // A task whose time has come waits no longer, and keeps its request for when it runs again.
  lemma TimeOutLeaves(g: Group, k: nat)
    requires k < |g.waiting| && Distinct(g.waiting)
    ensures var h, w := TimesOut(g, k), g.waiting[k];
            && h.bits == g.bits && h.left == g.left[w.t := w.value]
            && forall x :: x in h.waiting <==> x in g.waiting && x.t != w.t
  {
    var h, w := TimesOut(g, k), g.waiting[k];
    forall i | 0 <= i < |h.waiting| ensures h.waiting[i] == g.waiting[if i < k then i else i + 1] {
    }
    forall x | x in g.waiting && x.t != w.t ensures x in h.waiting {
      var i :| 0 <= i < |g.waiting| && g.waiting[i] == x;
      assert h.waiting[if i < k then i else i - 1] == x;
    }
  }

  // ----- nobody waits in vain --------------------------------------------------------------------

  ghost predicate Inv(g: Group) {
    && (forall w :: w in g.waiting ==> !Met(g.bits, w.value))
    && Distinct(g.waiting) && NoControl(g.bits)
  }

  lemma {:induction false} KeptDistinct(ws: seq<Waiter>, bits: bv32)
    requires Distinct(ws)
    ensures Distinct(Kept(ws, bits))
  {
    hide Met;
    if ws != [] {
      KeptDistinct(ws[1..], bits);
      ReleasedExactly(ws[1..], bits);
      assert forall w :: w in ws[1..] ==> w.t != ws[0].t;
    }
  }

  lemma SetKeeps(g: Group, set_: bv32)
    requires Inv(g) && NoControl(set_)
    ensures Inv(SetBits(g, set_))
  {
    hide Met, Kept, Released, Clears, Deliver, Or, AndNot, NoControl;
    var bits := Or(g.bits, set_);
    ReleasedExactly(g.waiting, bits);
    KeptDistinct(g.waiting, bits);
    OrNoControl(g.bits, set_);
    FewerBits(bits, Clears(Released(g.waiting, bits)), 0);
    forall w | w in Kept(g.waiting, bits) ensures !Met(SetBits(g, set_).bits, w.value) {
      FewerBits(bits, Clears(Released(g.waiting, bits)), w.value);
    }
  }

  lemma OrNoControl(a: bv32, b: bv32)
    requires NoControl(a) && NoControl(b)
    ensures NoControl(Or(a, b))
  {
  }

  lemma ClearKeeps(g: Group, clear: bv32)
    requires Inv(g)
    ensures Inv(ClearBits(g, clear))
  {
    hide Met, AndNot, NoControl;
    FewerBits(g.bits, clear, 0);
    forall w | w in g.waiting ensures !Met(AndNot(g.bits, clear), w.value) {
      FewerBits(g.bits, clear, w.value);
    }
  }

  // A task joins the list when the bits do not meet its condition.
  lemma JoinKeeps(g: Group, w: Waiter)
    requires Inv(g) && !Met(g.bits, w.value) && forall x :: x in g.waiting ==> x.t != w.t
    ensures Inv(g.(waiting := g.waiting + [w]))
  {
    hide Met, NoControl;
  }

  predicate Waiting(g: Group, t: Task) {
    exists w :: w in g.waiting && w.t == t
  }

  lemma WaitKeeps(g: Group, t: Task, waitFor: bv32, clear: bool, all: bool, block: bool)
    requires Inv(g) && NoControl(waitFor) && !Waiting(g, t)
    ensures Inv(WaitBits(g, t, waitFor, clear, all, block).0)
  {
    hide Met, TestWaitCondition, NoControl, ItemValue;
    ItemValueKeeps(g.bits, waitFor, clear, all);
    ClearKeeps(g, waitFor);
    if !TestWaitCondition(g.bits, waitFor, all) {
      JoinKeeps(g, Waiter(t, ItemValue(waitFor, clear, all)));
    }
  }

  lemma StillNotAll(bits: bv32, clear: bv32, waitFor: bv32)
    requires !HasAll(bits, waitFor)
    ensures !TestWaitCondition(AndNot(bits, clear), waitFor, true)
  {
    FewerHas(bits, clear, waitFor);
    hide HasAll, AndNot;
  }

  lemma SyncKeeps(g: Group, t: Task, set_: bv32, waitFor: bv32, block: bool)
    requires Inv(g) && NoControl(set_) && NoControl(waitFor) && !Waiting(g, t)
    ensures Inv(Sync(g, t, set_, waitFor, block).0)
  {
    hide Met, TestWaitCondition, Kept, Released, Clears, Deliver, HasAll, Or, AndNot, NoControl, ItemValue;
    var h := SetBits(g, set_);
    SetKeeps(g, set_);
    ClearKeeps(h, waitFor);
    ItemValueKeeps(h.bits, waitFor, true, true);
    if !HasAll(Or(g.bits, set_), waitFor) {
      StillNotAll(Or(g.bits, set_), Clears(Released(g.waiting, Or(g.bits, set_))), waitFor);
      ReleasedExactly(g.waiting, Or(g.bits, set_));
      JoinKeeps(h, Waiter(t, ItemValue(waitFor, true, true)));
    }
  }

  lemma TimesOutKeeps(g: Group, k: nat)
    requires Inv(g)
    ensures Inv(TimesOut(g, k))
  {
    hide Met, NoControl;
    if k < |g.waiting| {
      var ws := TimesOut(g, k).waiting;
      forall i | 0 <= i < |ws| ensures ws[i] == g.waiting[if i < k then i else i + 1] {
      }
    }
  }

  lemma FinishKeeps(g: Group, t: Task, waitFor: bv32, clear: bool, all: bool)
    requires Inv(g)
    ensures Inv(Finish(g, t, waitFor, clear, all).0)
  {
    hide Met, TestWaitCondition, WaitedFor, WasReleased, NoControl;
    var h := g.(left := g.left - {t});
    assert Inv(h);
    ClearKeeps(h, waitFor);
  }

  // ----- what is returned ------------------------------------------------------------------------

  // A released task returns the bits that released it, before any were cleared, and its condition
  // holds of them; one that has timed out returns the bits as they are.
  lemma ReturnsTheReleasingBits(g: Group, t: Task, bits: bv32, waitFor: bv32, clear: bool, all: bool)
    requires NoControl(bits) && t in g.left && g.left[t] == ReleaseValue(bits)
    ensures Finish(g, t, waitFor, clear, all) == (g.(left := g.left - {t}), bits)
  {
    ReleaseValueIs(bits);
    hide ReleaseValue, WasReleased, WaitedFor, NoControl, TestWaitCondition;
  }

  lemma ReleaseValueIs(bits: bv32)
    requires NoControl(bits)
    ensures WasReleased(ReleaseValue(bits)) && WaitedFor(ReleaseValue(bits)) == bits
  {
  }

  lemma TimeOutReturnsTheBits(g: Group, t: Task, waitFor: bv32, clear: bool, all: bool)
    requires NoControl(g.bits) && NoControl(waitFor) && t in g.left && g.left[t] == ItemValue(waitFor, clear, all)
    ensures Finish(g, t, waitFor, clear, all).1 == g.bits
    ensures Finish(g, t, waitFor, clear, all).0.bits
         == if clear && TestWaitCondition(g.bits, waitFor, all) then AndNot(g.bits, waitFor) else g.bits
  {
    ItemValueKeeps(g.bits, waitFor, clear, all);
    NoControlIs(g.bits);
    hide ItemValue, TestWaitCondition, WasReleased, WaitedFor, NoControl, Met, AndNot, ClearedBy;
  }

  lemma NoControlIs(bits: bv32)
    requires NoControl(bits)
    ensures WaitedFor(bits) == bits
  {
  }

  // ----- a rendezvous ----------------------------------------------------------------------------

  // When the call of Sync that completes the set is made, every task that waits for the rendezvous is
  // released, and the bits are clear for the next one.
  lemma RendezvousCompletes(g: Group, t: Task, set_: bv32, waitFor: bv32, block: bool, w: Waiter)
    requires Distinct(g.waiting) && NoControl(waitFor) && HasAll(Or(g.bits, set_), waitFor)
    requires w in g.waiting && w.value == ItemValue(waitFor, true, true)
    ensures var (h, o) := Sync(g, t, set_, waitFor, block);
            && o == Returned(Or(g.bits, set_)) && !HasSome(h.bits, waitFor)
            && w !in h.waiting && w.t in h.left && h.left[w.t] == ReleaseValue(Or(g.bits, set_))
  {
    hide Met, Kept, Released, Clears, Deliver, HasAll, HasSome, Or, AndNot, NoControl, ItemValue, ReleaseValue;
    ItemValueKeeps(Or(g.bits, set_), waitFor, true, true);
    SetReleases(g, set_, w);
    TakenAway(SetBits(g, set_).bits, waitFor);
  }

  lemma TakenAway(a: bv32, b: bv32)
    ensures !HasSome(AndNot(a, b), b)
  {
  }

  // ----- runs ------------------------------------------------------------------------------------

  datatype Step = SetStep(bits: bv32) | ClearStep(bits: bv32)
                | WaitStep(t: Task, waitFor: bv32, clear: bool, all: bool, block: bool)
                | SyncStep(t: Task, bits: bv32, waitFor: bv32, block: bool)
                | TimeOutStep(k: nat) | FinishStep(t: Task, waitFor: bv32, clear: bool, all: bool)

  // No call may use the bits that the kernel keeps for itself.
  predicate Can(g: Group, st: Step) {
    match st
    case SetStep(bits) => NoControl(bits)
    case ClearStep(bits) => NoControl(bits)
    case WaitStep(t, waitFor, clear, all, block) => NoControl(waitFor) && !Waiting(g, t)
    case SyncStep(t, bits, waitFor, block) => NoControl(bits) && NoControl(waitFor) && !Waiting(g, t)
    case TimeOutStep(k) => k < |g.waiting|
    case FinishStep(t, waitFor, clear, all) => !Waiting(g, t)
  }

  function Next(g: Group, st: Step): Group {
    match st
    case SetStep(bits) => SetBits(g, bits)
    case ClearStep(bits) => ClearBits(g, bits)
    case WaitStep(t, waitFor, clear, all, block) => WaitBits(g, t, waitFor, clear, all, block).0
    case SyncStep(t, bits, waitFor, block) => Sync(g, t, bits, waitFor, block).0
    case TimeOutStep(k) => TimesOut(g, k)
    case FinishStep(t, waitFor, clear, all) => Finish(g, t, waitFor, clear, all).0
  }

  lemma StepKeeps(g: Group, st: Step)
    requires Inv(g) && Can(g, st)
    ensures Inv(Next(g, st))
  {
    hide Inv, SetBits, ClearBits, WaitBits, Sync, TimesOut, Finish, NoControl, Waiting;
    match st
    case SetStep(bits) => SetKeeps(g, bits);
    case ClearStep(bits) => ClearKeeps(g, bits);
    case WaitStep(t, waitFor, clear, all, block) => WaitKeeps(g, t, waitFor, clear, all, block);
    case SyncStep(t, bits, waitFor, block) => SyncKeeps(g, t, bits, waitFor, block);
    case TimeOutStep(k) => TimesOutKeeps(g, k);
    case FinishStep(t, waitFor, clear, all) => FinishKeeps(g, t, waitFor, clear, all);
  }

  function Steps(g: Group, sts: seq<Step>): Group
    decreases |sts|
  {
    if sts == [] then g else Steps(Next(g, sts[0]), sts[1..])
  }

  predicate CanSteps(g: Group, sts: seq<Step>)
    decreases |sts|
  {
    sts == [] || (Can(g, sts[0]) && CanSteps(Next(g, sts[0]), sts[1..]))
  }

  lemma {:induction false} RunKeeps(g: Group, sts: seq<Step>)
    requires Inv(g) && CanSteps(g, sts)
    ensures Inv(Steps(g, sts))
    decreases |sts|
  {
    hide Inv, Next, Can;
    if sts != [] {
      StepKeeps(g, sts[0]);
      RunKeeps(Next(g, sts[0]), sts[1..]);
    }
  }

  // xEventGroupCreate
  function Created(): Group {
    Group(0, [], map[])
  }

  lemma CreatedInv()
    ensures Inv(Created())
  {
  }

  // In every state that is reachable from a new group no task is left on the list whose condition the
  // bits meet, and none is on it twice.
  lemma NobodyWaitsInVain(sts: seq<Step>)
    requires CanSteps(Created(), sts)
    ensures var g := Steps(Created(), sts);
            (forall w :: w in g.waiting ==> !Met(g.bits, w.value)) && Distinct(g.waiting)
  {
    CreatedInv();
    RunKeeps(Created(), sts);
    hide Steps, CanSteps, Created;
  }
}
