/** The event group of event_groups.c, proved to do what EventModel says. */
module EventGroups {
  import opened EventModel

  class EventGroup_t {
    var uxEventBits: bv32
    var xTasksWaitingForBits: seq<Waiter>
    // The values of xEventListItem of the tasks that have left the list and have not run since.
    var xItemValue: map<Task, bv32>

    ghost function State(): Group
      reads this
    {
      Group(uxEventBits, xTasksWaitingForBits, xItemValue)
    }

    constructor ()
      ensures State() == Created() && Inv(State())
    {
      uxEventBits, xTasksWaitingForBits, xItemValue := 0, [], map[];
    }

    // vTaskRemoveFromUnorderedEventList, for the k-th task of the list.
    method vTaskRemoveFromUnorderedEventList(k: nat, value: bv32)
      requires k < |xTasksWaitingForBits|
      modifies `xTasksWaitingForBits, `xItemValue
      ensures var t := old(xTasksWaitingForBits)[k].t;
              xItemValue == old(xItemValue)[t := Or(value, taskEVENT_LIST_ITEM_VALUE_IN_USE)]
      ensures xTasksWaitingForBits == old(xTasksWaitingForBits)[..k] + old(xTasksWaitingForBits)[k + 1..]
    {
      xItemValue := xItemValue[xTasksWaitingForBits[k].t := Or(value, taskEVENT_LIST_ITEM_VALUE_IN_USE)];
      xTasksWaitingForBits := xTasksWaitingForBits[..k] + xTasksWaitingForBits[k + 1..];
    }

    method TestMatch(value: bv32) returns (xMatchFound: bool)
      ensures xMatchFound == Met(uxEventBits, value)
    {
      hide HasSome, HasAll, WaitedFor, WantsAll;
      xMatchFound := false;
      var uxBitsWaitedFor := WaitedFor(value);
      if !WantsAll(value) {
        if HasSome(uxEventBits, uxBitsWaitedFor) {
          xMatchFound := true;
        }
      } else if HasAll(uxEventBits, uxBitsWaitedFor) {
        xMatchFound := true;
      }
    }

    // The pass over the list. The next item is found before the one at hand may be removed: kept are
    // the tasks passed over, rest those still to be looked at.
    method ReleaseMatching() returns (uxBitsToClear: bv32)
      modifies `xTasksWaitingForBits, `xItemValue
      ensures xTasksWaitingForBits == Kept(old(xTasksWaitingForBits), uxEventBits)
      ensures xItemValue
           == Deliver(old(xItemValue), Released(old(xTasksWaitingForBits), uxEventBits), ReleaseValue(uxEventBits))
      ensures uxBitsToClear == Clears(Released(old(xTasksWaitingForBits), uxEventBits))
    {
      hide Met, Or, WantsClear, WaitedFor;
      ghost var ws, kept, rest := xTasksWaitingForBits, [], xTasksWaitingForBits;
      uxBitsToClear := 0;
      var k := 0;
      OrZero(Clears(Released(ws, uxEventBits)));
      while k < |xTasksWaitingForBits|
        invariant xTasksWaitingForBits == kept + rest && k == |kept|
        invariant Kept(ws, uxEventBits) == kept + Kept(rest, uxEventBits)
        invariant Deliver(xItemValue, Released(rest, uxEventBits), ReleaseValue(uxEventBits))
               == Deliver(old(xItemValue), Released(ws, uxEventBits), ReleaseValue(uxEventBits))
        invariant Or(uxBitsToClear, Clears(Released(rest, uxEventBits))) == Clears(Released(ws, uxEventBits))
        decreases |rest|
      {
        var item := xTasksWaitingForBits[k];
        NextItem(kept, rest);
        NextReleased(rest, uxEventBits);
        var match_ := TestMatch(item.value);
        if match_ {
          OrAssoc(uxBitsToClear, ClearedBy(item.value), Clears(Released(rest[1..], uxEventBits)));
          OrZero(uxBitsToClear);
          if WantsClear(item.value) {
            uxBitsToClear := Or(uxBitsToClear, WaitedFor(item.value));
          }
          vTaskRemoveFromUnorderedEventList(k, Or(uxEventBits, eventUNBLOCKED_DUE_TO_BIT_SET));
        } else {
          k := k + 1;
          kept := kept + [item];
        }
        rest := rest[1..];
      }
      OrZero(uxBitsToClear);
    }

    method xEventGroupSetBits(uxBitsToSet: bv32) returns (uxReturn: bv32)
      modifies this
      ensures State() == SetBits(old(State()), uxBitsToSet) && uxReturn == uxEventBits
    {
      hide Or, AndNot, Kept, Deliver, Clears, Released, ReleaseValue;
      uxEventBits := Or(uxEventBits, uxBitsToSet);
      var uxBitsToClear := ReleaseMatching();
      uxEventBits := AndNot(uxEventBits, uxBitsToClear);
      uxReturn := uxEventBits;
    }

    method xEventGroupClearBits(uxBitsToClear: bv32) returns (uxReturn: bv32)
      modifies `uxEventBits
      ensures State() == ClearBits(old(State()), uxBitsToClear) && uxReturn == old(uxEventBits)
    {
      hide AndNot;
      uxReturn := uxEventBits;
      uxEventBits := AndNot(uxEventBits, uxBitsToClear);
    }

    method prvTestWaitCondition(uxCurrentEventBits: bv32, uxBitsToWaitFor: bv32, xWaitForAllBits: bool)
        returns (met: bool)
      ensures met == TestWaitCondition(uxCurrentEventBits, uxBitsToWaitFor, xWaitForAllBits)
    {
      hide HasSome, HasAll;
      met := false;
      if !xWaitForAllBits {
        if HasSome(uxCurrentEventBits, uxBitsToWaitFor) {
          met := true;
        }
      } else if HasAll(uxCurrentEventBits, uxBitsToWaitFor) {
        met := true;
      }
    }

    // vTaskPlaceOnUnorderedEventList
    method PlaceOnUnorderedEventList(t: Task, value: bv32)
      modifies `xTasksWaitingForBits
      ensures xTasksWaitingForBits == old(xTasksWaitingForBits) + [Waiter(t, value)]
    {
      xTasksWaitingForBits := xTasksWaitingForBits + [Waiter(t, value)];
    }

    // xEventGroupWaitBits until the task blocks or returns.
    method WaitBitsEntry(t: Task, uxBitsToWaitFor: bv32, xClearOnExit: bool, xWaitForAllBits: bool, block: bool)
      returns (outcome: Outcome)
      modifies this
      ensures (State(), outcome) == WaitBits(old(State()), t, uxBitsToWaitFor, xClearOnExit, xWaitForAllBits, block)
    {
      hide AndNot, TestWaitCondition, ItemValue;
      var uxCurrentEventBits := uxEventBits;
      var xWaitConditionMet := prvTestWaitCondition(uxCurrentEventBits, uxBitsToWaitFor, xWaitForAllBits);
      if xWaitConditionMet {
        outcome := Returned(uxCurrentEventBits);
        if xClearOnExit {
          uxEventBits := AndNot(uxEventBits, uxBitsToWaitFor);
        }
      } else if !block {
        outcome := Returned(uxCurrentEventBits);
      } else {
        PlaceOnUnorderedEventList(t, ItemValue(uxBitsToWaitFor, xClearOnExit, xWaitForAllBits));
        outcome := Blocked;
      }
    }

    // xEventGroupSync until the task blocks or returns.
    method SyncEntry(t: Task, uxBitsToSet: bv32, uxBitsToWaitFor: bv32, block: bool) returns (outcome: Outcome)
      modifies this
      ensures (State(), outcome) == Sync(old(State()), t, uxBitsToSet, uxBitsToWaitFor, block)
    {
      hide AndNot, Or, HasAll, SetBits, ItemValue;
      var uxOriginalBitValue := uxEventBits;
      var ignored := xEventGroupSetBits(uxBitsToSet);
      if HasAll(Or(uxOriginalBitValue, uxBitsToSet), uxBitsToWaitFor) {
        outcome := Returned(Or(uxOriginalBitValue, uxBitsToSet));
        uxEventBits := AndNot(uxEventBits, uxBitsToWaitFor);
      } else if block {
        PlaceOnUnorderedEventList(t, ItemValue(uxBitsToWaitFor, true, true));
        outcome := Blocked;
      } else {
        outcome := Returned(uxEventBits);
      }
    }

    // The second part of both, when a task that had blocked runs again.
    method AfterBlocking(t: Task, uxBitsToWaitFor: bv32, xClearOnExit: bool, xWaitForAllBits: bool)
        returns (uxReturn: bv32)
      modifies this
      ensures (State(), uxReturn) == Finish(old(State()), t, uxBitsToWaitFor, xClearOnExit, xWaitForAllBits)
    {
      hide AndNot, TestWaitCondition, WasReleased;
      uxReturn := if t in xItemValue then xItemValue[t] else 0;
      xItemValue := xItemValue - {t};
      if !WasReleased(uxReturn) {
        uxReturn := uxEventBits;
        var met := prvTestWaitCondition(uxReturn, uxBitsToWaitFor, xWaitForAllBits);
        if met {
          if xClearOnExit {
            uxEventBits := AndNot(uxEventBits, uxBitsToWaitFor);
          }
        }
      }
      uxReturn := AndNot(uxReturn, eventEVENT_BITS_CONTROL_BYTES);
    }
  }

  lemma NextItem(kept: seq<Waiter>, rest: seq<Waiter>)
    requires rest != []
    ensures var list, k := kept + rest, |kept|;
            && list[k] == rest[0] && list == (kept + [rest[0]]) + rest[1..]
            && list[..k] + list[k + 1..] == kept + rest[1..]
    ensures forall x: seq<Waiter> :: kept + ([rest[0]] + x) == (kept + [rest[0]]) + x
  {
  }

  lemma NextReleased(rest: seq<Waiter>, bits: bv32)
    requires rest != []
    ensures Kept(rest, bits) == (if Met(bits, rest[0].value) then [] else [rest[0]]) + Kept(rest[1..], bits)
    ensures Released(rest, bits) == (if Met(bits, rest[0].value) then [rest[0]] else []) + Released(rest[1..], bits)
    ensures Met(bits, rest[0].value) ==>
              Released(rest, bits)[0] == rest[0] && Released(rest, bits)[1..] == Released(rest[1..], bits)
    ensures Met(bits, rest[0].value) ==> Kept(rest, bits) == Kept(rest[1..], bits)
    ensures !Met(bits, rest[0].value) ==> Released(rest, bits) == Released(rest[1..], bits)
  {
  }

  lemma OrAssoc(a: bv32, b: bv32, c: bv32)
    ensures Or(a, Or(b, c)) == Or(Or(a, b), c)
  {
  }

  lemma OrZero(a: bv32)
    ensures Or(0, a) == a && Or(a, 0) == a
  {
  }
}
