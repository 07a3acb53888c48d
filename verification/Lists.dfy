/** The kernel's intrusive circular lists, on the heap, proved against the sequences of ListSpec. */
module Lists {
  import opened Ticks
  import opened ListSpec

  class ListItem {
    var xItemValue: nat
    var pxNext: ListItem?
    var pxPrevious: ListItem?
    var pxContainer: List?

    // vListInitialiseItem
    constructor (value: nat)
      ensures pxContainer == null && xItemValue == value
    {
      pxContainer, xItemValue := null, value;
    }
  }

  class List {
    const xListEnd: ListItem
    var pxIndex: ListItem
    var uxNumberOfItems: nat
    // The cycle in pxNext order, from the end marker back to the end marker.
    ghost var ring: seq<ListItem>
    // Where pxIndex stands on it.
    ghost var at: nat

    // No item but the end marker is met twice.
    ghost predicate Distinct(r: seq<ListItem>) {
      forall i, j :: 0 <= i < j < |r| - 1 ==> r[i] != r[j]
    }

    // Each item's links are its neighbours, and each item but the end marker knows its list.
    ghost predicate Linked(r: seq<ListItem>)
      reads r
    {
      && (forall i {:trigger r[i].pxNext} :: 0 <= i < |r| - 1 ==> r[i].pxNext == r[i + 1])
      && (forall i {:trigger r[i].pxPrevious} :: 0 < i < |r| ==> r[i].pxPrevious == r[i - 1])
      && (forall i {:trigger r[i].pxContainer} :: 0 < i < |r| - 1 ==> r[i].pxContainer == this)
    }

    ghost predicate Valid()
      reads this, ring
    {
      && |ring| > 1 && ring[0] == ring[|ring| - 1] == xListEnd
      && Distinct(ring) && Linked(ring)
      && xListEnd.xItemValue == MAX_DELAY
      && uxNumberOfItems == |ring| - 2
      && at < |ring| - 1 && pxIndex == ring[at]
    }

    // The list as ListSpec sees it.
    ghost function View(): Ring<ListItem>
      reads this
      requires |ring| > 1
    {
      Ring(ring[1..|ring| - 1], at)
    }

    ghost function Values(): (v: seq<nat>)
      reads this, ring
      requires |ring| > 1
    {
      seq(|ring| - 2, i requires 0 <= i < |ring| - 2 reads this, ring => ring[i + 1].xItemValue)
    }

    // vListInitialise
    constructor ()
      ensures Valid() && View() == Ring([], 0)
      ensures fresh(xListEnd)
    {
      var end := new ListItem(MAX_DELAY);
      xListEnd, pxIndex, uxNumberOfItems := end, end, 0;
      ring, at := [end, end], 0;
      new;
      end.pxNext := end;
      end.pxPrevious := end;
    }

    // ----- insertion -----------------------------------------------------------------------------

    // The links fit the cycle with x between r[k] and r[k + 1].
    ghost predicate Spliced(r: seq<ListItem>, k: nat, x: ListItem)
      requires k < |r| - 1
      reads r, x
    {
      && r[k].pxNext == x && x.pxNext == r[k + 1] && r[k + 1].pxPrevious == x && x.pxPrevious == r[k]
      && x.pxContainer == this
      && (forall i {:trigger r[i].pxNext} :: 0 <= i < |r| - 1 && i != k ==> r[i].pxNext == r[i + 1])
      && (forall i {:trigger r[i].pxPrevious} :: 0 < i < |r| && i != k + 1 ==> r[i].pxPrevious == r[i - 1])
      && (forall i {:trigger r[i].pxContainer} :: 0 < i < |r| - 1 ==> r[i].pxContainer == this)
    }

    lemma SplicedLinked(r: seq<ListItem>, k: nat, x: ListItem)
      requires k < |r| - 1 && Distinct(r) && x !in r && Spliced(r, k, x)
      ensures var t := Inserted(r, k + 1, x);
              Distinct(t) && Linked(t) && t[0] == r[0] && t[|t| - 1] == r[|r| - 1]
    {
      var t := Inserted(r, k + 1, x);
      forall i | 0 <= i < |t| - 1
        ensures t[i].pxNext == t[i + 1] && t[i + 1].pxPrevious == t[i]
        ensures i > 0 ==> t[i].pxContainer == this
      {
        var a, b := if i <= k then i else i - 1, if i < k then i + 1 else i;
        assert i != k + 1 ==> t[i] == r[a];
        assert i != k ==> t[i + 1] == r[b];
      }
      forall i, j | 0 <= i < j < |t| - 1 ensures t[i] != t[j] {
        assert i != k + 1 ==> t[i] == r[if i <= k then i else i - 1];
        assert j != k + 1 ==> t[j] == r[if j <= k then j else j - 1];
      }
    }

    // The writes shared by both insertions.
    method Splice(x: ListItem, ghost k: nat)
      requires Valid() && x !in ring && k < |ring| - 1
      requires x.pxPrevious == ring[k] && x.pxNext == ring[k + 1]
      modifies ring`pxNext, ring`pxPrevious, x`pxContainer
      ensures Spliced(ring, k, x)
    {
      x.pxNext.pxPrevious := x;
      x.pxPrevious.pxNext := x;
      x.pxContainer := this;
    }

    method Attach(x: ListItem, ghost k: nat)
      requires k < |ring| - 1 && at < |ring| - 1 && pxIndex == ring[at]
      modifies `ring, `at, `uxNumberOfItems
      ensures uxNumberOfItems == old(uxNumberOfItems) + 1
      ensures ring == Inserted(old(ring), k + 1, x)
      ensures at == (if old(at) > k then old(at) + 1 else old(at)) && pxIndex == ring[at]
    {
      uxNumberOfItems := uxNumberOfItems + 1;
      ring := Inserted(ring, k + 1, x);
      at := if at > k then at + 1 else at;
    }

    method LinkAfter(x: ListItem, ghost k: nat)
      requires Valid() && x !in ring && k < |ring| - 1
      requires x.pxPrevious == ring[k] && x.pxNext == ring[k + 1]
      modifies `ring, `at, `uxNumberOfItems, ring`pxNext, ring`pxPrevious, x`pxContainer
      ensures Valid() && x.pxContainer == this
      ensures ring == Inserted(old(ring), k + 1, x)
      ensures at == if old(at) > k then old(at) + 1 else old(at)
    {
      ghost var r := ring;
      Splice(x, k);
      Attach(x, k);
      SplicedLinked(r, k, x);
    }

    method vListInsertEnd(x: ListItem)
      requires Valid() && x !in ring
      modifies `ring, `at, `uxNumberOfItems, ring`pxNext, ring`pxPrevious, x`pxNext, x`pxPrevious, x`pxContainer
      ensures Valid() && x.pxContainer == this
      ensures View() == InsertEnd(old(View()), x)
    {
      ghost var r, k := ring, if at == 0 then |ring| - 2 else at - 1;
      assert r[k + 1].pxPrevious == r[k];
      x.pxNext := pxIndex;
      x.pxPrevious := pxIndex.pxPrevious;
      LinkAfter(x, k);
      InsertedInside(r, k, x);
    }

    // The walk of vListInsert: it stops before the end marker because of the marker's value, and
    // the largest value, for which it would not, is placed without walking.
    method InsertionPoint(v: nat) returns (pxIterator: ListItem)
      requires Valid() && v < W && forall i {:trigger ring[i].xItemValue} :: 0 <= i < |ring| ==> ring[i].xItemValue < W
      ensures pxIterator == ring[InsertPos(Values(), v)]
    {
      ghost var k := 0;
      if v == MAX_DELAY {
        pxIterator, k := xListEnd.pxPrevious, |ring| - 2;
      } else {
        pxIterator := xListEnd;
        while pxIterator.pxNext.xItemValue <= v
          invariant k < |ring| - 1 && pxIterator == ring[k]
          invariant forall i {:trigger ring[i].xItemValue} :: 0 < i <= k ==> ring[i].xItemValue <= v
          decreases |ring| - k
        {
          assert ring[k].pxNext == ring[k + 1] && ring[|ring| - 1].xItemValue == MAX_DELAY;
          pxIterator, k := pxIterator.pxNext, k + 1;
        }
        assert ring[k].pxNext == ring[k + 1];
      }
      InsertPosAt(Values(), v, k);
    }

    method InsertAfter(pxIterator: ListItem, x: ListItem, ghost k: nat)
      requires Valid() && x !in ring && k < |ring| - 1 && pxIterator == ring[k]
      modifies `ring, `at, `uxNumberOfItems, ring`pxNext, ring`pxPrevious, x`pxNext, x`pxPrevious, x`pxContainer
      ensures Valid() && x.pxContainer == this
      ensures View() == Ring(Inserted(old(View().items), k, x), if old(at) > k then old(at) + 1 else old(at))
    {
      ghost var r := ring;
      assert r[k].pxNext == r[k + 1];
      x.pxNext := pxIterator.pxNext;
      x.pxPrevious := pxIterator;
      LinkAfter(x, k);
      InsertedInside(r, k, x);
    }

    method vListInsert(x: ListItem)
      requires Valid() && x !in ring
      requires x.xItemValue < W && forall i {:trigger ring[i].xItemValue} :: 0 <= i < |ring| ==> ring[i].xItemValue < W
      modifies `ring, `at, `uxNumberOfItems, ring`pxNext, ring`pxPrevious, x`pxNext, x`pxPrevious, x`pxContainer
      ensures Valid() && x.pxContainer == this
      ensures var p := InsertPos(old(Values()), x.xItemValue);
              View() == Ring(Inserted(old(View().items), p, x), if old(at) > p then old(at) + 1 else old(at))
    {
      var pxIterator := InsertionPoint(x.xItemValue);
      InsertAfter(pxIterator, x, InsertPos(Values(), x.xItemValue));
    }

    // listGET_OWNER_OF_NEXT_ENTRY
    method NextEntry() returns (x: ListItem)
      requires Valid() && uxNumberOfItems > 0
      modifies `pxIndex, `at
      ensures Valid() && View() == Advance(old(View())) && View().index > 0 && x == Pointed(View())
    {
      assert ring[at].pxNext == ring[at + 1] && ring[0].pxNext == ring[1];
      pxIndex := pxIndex.pxNext;
      at := if at + 1 == |ring| - 1 then 0 else at + 1;
      if pxIndex == xListEnd {
        pxIndex := pxIndex.pxNext;
        at := 1;
      }
      x := pxIndex;
    }

    // ----- removal -------------------------------------------------------------------------------

    // The links fit the cycle without r[k].
    ghost predicate Bypassed(r: seq<ListItem>, k: nat)
      requires 0 < k < |r| - 1
      reads r
    {
      && r[k - 1].pxNext == r[k + 1] && r[k + 1].pxPrevious == r[k - 1]
      && (forall i {:trigger r[i].pxNext} :: 0 <= i < |r| - 1 && i != k - 1 ==> r[i].pxNext == r[i + 1])
      && (forall i {:trigger r[i].pxPrevious} :: 0 < i < |r| && i != k + 1 ==> r[i].pxPrevious == r[i - 1])
      && (forall i {:trigger r[i].pxContainer} :: 0 < i < |r| - 1 && i != k ==> r[i].pxContainer == this)
    }

    lemma BypassedLinked(r: seq<ListItem>, k: nat)
      requires 0 < k < |r| - 1 && Distinct(r) && Bypassed(r, k)
      ensures var t := Removed(r, k);
              Distinct(t) && Linked(t) && t[0] == r[0] && t[|t| - 1] == r[|r| - 1]
    {
      var t := Removed(r, k);
      forall i | 0 <= i < |t| - 1
        ensures t[i].pxNext == t[i + 1] && t[i + 1].pxPrevious == t[i]
        ensures i > 0 ==> t[i].pxContainer == this
      {
        var a, b := if i < k then i else i + 1, if i + 1 < k then i + 1 else i + 2;
        assert t[i] == r[a] && t[i + 1] == r[b];
      }
    }

    method Bypass(x: ListItem, ghost k: nat)
      requires Valid() && 0 < k < |ring| - 1 && ring[k] == x
      modifies ring`pxNext, ring`pxPrevious
      ensures Bypassed(ring, k) && x.pxPrevious == ring[k - 1]
    {
      x.pxNext.pxPrevious := x.pxPrevious;
      x.pxPrevious.pxNext := x.pxNext;
    }

    method StepBack(x: ListItem, ghost k: nat)
      requires 0 < k < |ring| - 1 && ring[k] == x && x.pxPrevious == ring[k - 1]
      requires Distinct(ring) && at < |ring| - 1 && pxIndex == ring[at]
      modifies `at, `pxIndex
      ensures at == if old(at) >= k then old(at) - 1 else old(at)
      ensures at < |Removed(ring, k)| && pxIndex == Removed(ring, k)[at]
    {
      if pxIndex == x {
        pxIndex := x.pxPrevious;
      }
      at := if at >= k then at - 1 else at;
    }

    method Release(x: ListItem, ghost k: nat)
      requires 0 < k < |ring| - 1 && ring[k] == x && Distinct(ring) && Bypassed(ring, k)
      modifies x`pxContainer
      ensures Bypassed(ring, k) && x.pxContainer == null
    {
      x.pxContainer := null;
    }

    method Unlink(x: ListItem, ghost k: nat)
      requires Valid() && 0 < k < |ring| - 1 && ring[k] == x
      modifies `ring, `at, `pxIndex, `uxNumberOfItems, ring`pxNext, ring`pxPrevious, x`pxContainer
      ensures Valid() && x.pxContainer == null
      ensures ring == Removed(old(ring), k)
      ensures at == if old(at) >= k then old(at) - 1 else old(at)
    {
      hide Linked, Distinct, Bypassed, Removed;
      Bypass(x, k);
      StepBack(x, k);
      Release(x, k);
      BypassedLinked(ring, k);
      uxNumberOfItems := uxNumberOfItems - 1;
      ring := Removed(ring, k);
    }
  }

  // uxListRemove finds the list through the item.
  method uxListRemove(x: ListItem, ghost l: List, ghost k: nat) returns (n: nat)
    requires l.Valid() && k < |l.View().items| && x == l.View().items[k]
    modifies l`ring, l`at, l`pxIndex, l`uxNumberOfItems, l.ring`pxNext, l.ring`pxPrevious, x`pxContainer
    ensures l.Valid() && x.pxContainer == null && n == |l.View().items|
    ensures l.View() == RemoveAt(old(l.View()), k)
  {
    ghost var r := l.ring;
    assert r[k + 1].pxContainer == l;
    var pxList := x.pxContainer;
    pxList.Unlink(x, k + 1);
    RemovedInside(r, k);
    n := pxList.uxNumberOfItems;
  }
}
