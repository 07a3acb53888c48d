/** The lists a task's state list item can be on: delayed, overflow, suspended and one ready list a priority. */
module StateLists {
  import opened ListSpec
  import opened DelayModel

  const configMAX_PRIORITIES: nat := 5

  // A priority that is too high is taken for the highest one.
  function Clamp(p: nat): (r: nat)
    ensures r < configMAX_PRIORITIES && (p < configMAX_PRIORITIES ==> r == p)
  {
    if p < configMAX_PRIORITIES then p else configMAX_PRIORITIES - 1
  }

  // The list that holds the item; Nowhere only while it is being moved.
  datatype Place = Ready(prio: nat) | Delayed | Overflow | Suspended | Nowhere

  datatype StateLists = StateLists(delayed: seq<Task>, overflow: seq<Task>, suspended: seq<Task>,
                                   ready: seq<Ring<Task>>, top: nat, at: map<Task, Place>)

  // s lists, without repetition, exactly the tasks that are at place p.
  ghost predicate Lists(s: seq<Task>, at: map<Task, Place>, p: Place) {
    NoDup(s) && forall t :: t in s <==> t in at && at[t] == p
  }

  // Every item is on exactly the list its container names, and no list above top holds a task.
  ghost predicate Placed(l: StateLists) {
    && Lists(l.delayed, l.at, Delayed)
    && Lists(l.overflow, l.at, Overflow)
    && Lists(l.suspended, l.at, Suspended)
    && |l.ready| == configMAX_PRIORITIES && l.top < configMAX_PRIORITIES
    && (forall p :: 0 <= p < |l.ready| ==> ReadyAt(l.ready[p], l.at, p))
    && (forall p :: l.top < p < |l.ready| ==> l.ready[p].items == [])
    && (forall t :: t in l.at && l.at[t].Ready? ==> l.at[t].prio < configMAX_PRIORITIES)
  }

  ghost predicate ReadyAt(r: Ring<Task>, at: map<Task, Place>, p: nat) {
    r.index <= |r.items| && Lists(r.items, at, Ready(p))
  }

  lemma ListsLeave(s: seq<Task>, at: map<Task, Place>, p: Place, t: Task)
    requires Lists(s, at, p) && t in at && p != Nowhere
    ensures Lists(Without(s, t), at[t := Nowhere], p)
    ensures at[t] != p ==> Without(s, t) == s
  {
    WithoutNoDup(s, t);
  }

  lemma ListsJoin(s: seq<Task>, at: map<Task, Place>, p: Place, t: Task, s': seq<Task>, q: Place)
    requires Lists(s, at, p) && t in at && at[t] == Nowhere && p != Nowhere
    requires q == p ==> NoDup(s') && forall x :: x in s' <==> x == t || x in s
    requires q != p ==> s' == s
    ensures Lists(s', at[t := q], p)
  {
  }

  // listREMOVE_ITEM of the state item. (On lists that are not Placed the result does not matter.)
  function RemoveItem(l: StateLists, t: Task): StateLists {
    if t !in l.at then l
    else match l.at[t]
      case Ready(p) => l.(ready := RemoveReady(l.ready, p, t), at := l.at[t := Nowhere])
      case Delayed => l.(delayed := Without(l.delayed, t), at := l.at[t := Nowhere])
      case Overflow => l.(overflow := Without(l.overflow, t), at := l.at[t := Nowhere])
      case Suspended => l.(suspended := Without(l.suspended, t), at := l.at[t := Nowhere])
      case Nowhere => l
  }

  function RemoveReady(ready: seq<Ring<Task>>, p: nat, t: Task): seq<Ring<Task>> {
    if p < |ready| && t in ready[p].items && ready[p].index <= |ready[p].items|
    then ready[p := RemoveAt(ready[p], Find(ready[p].items, t))] else ready
  }

  lemma RemoveItemPlaced(l: StateLists, t: Task)
    requires Placed(l) && t in l.at
    ensures var l' := RemoveItem(l, t);
            && Placed(l') && l'.at == l.at[t := Nowhere] && l'.top == l.top
            && l'.delayed == Without(l.delayed, t) && l'.overflow == Without(l.overflow, t)
  {
    ListsLeave(l.delayed, l.at, Delayed, t);
    ListsLeave(l.overflow, l.at, Overflow, t);
    ListsLeave(l.suspended, l.at, Suspended, t);
    forall p | 0 <= p < |l.ready| ensures ReadyAt(RemoveItem(l, t).ready[p], l.at[t := Nowhere], p) {
      assert ReadyAt(l.ready[p], l.at, p);
      ListsLeave(l.ready[p].items, l.at, Ready(p), t);
    }
  }

  // prvAddTaskToReadyList
  function AddReady(l: StateLists, t: Task, p: nat): StateLists {
    l.(ready := InsertReady(l.ready, p, t), top := if p > l.top then p else l.top, at := l.at[t := Ready(p)])
  }

  function InsertReady(ready: seq<Ring<Task>>, p: nat, t: Task): seq<Ring<Task>> {
    if p < |ready| && ready[p].index <= |ready[p].items| then ready[p := InsertEnd(ready[p], t)] else ready
  }

  lemma AddReadyPlaced(l: StateLists, t: Task, p: nat)
    requires Placed(l) && t in l.at && l.at[t] == Nowhere && p < configMAX_PRIORITIES
    ensures Placed(AddReady(l, t, p))
  {
    var l' := AddReady(l, t, p);
    ListsJoin(l.delayed, l.at, Delayed, t, l.delayed, Ready(p));
    ListsJoin(l.overflow, l.at, Overflow, t, l.overflow, Ready(p));
    ListsJoin(l.suspended, l.at, Suspended, t, l.suspended, Ready(p));
    forall q | 0 <= q < |l'.ready| ensures ReadyAt(l'.ready[q], l'.at, q) {
      assert ReadyAt(l.ready[q], l.at, q);
      if q == p {
        InsertEndMembers(l.ready[p], t);
      }
      ListsJoin(l.ready[q].items, l.at, Ready(q), t, l'.ready[q].items, Ready(p));
    }
  }

  lemma MovedToReady(l: StateLists, t: Task, p: nat)
    requires Placed(l) && t in l.at && p < configMAX_PRIORITIES
    ensures Placed(RemoveItem(l, t))
    ensures var l' := AddReady(RemoveItem(l, t), t, p);
            && Placed(l') && l'.at == l.at[t := Ready(p)]
            && l'.delayed == Without(l.delayed, t) && l'.overflow == Without(l.overflow, t)
  {
    RemoveItemPlaced(l, t);
    AddReadyPlaced(RemoveItem(l, t), t, p);
  }

  predicate Blocking(p: Place) {
    p.Delayed? || p.Overflow? || p.Suspended?
  }

  // vListInsert into one of the two delayed lists, and vListInsertEnd into the suspended list.
  function AddBlocked(l: StateLists, t: Task, p: Place, v: map<Task, nat>): StateLists {
    match p
    case Delayed => l.(delayed := InsertByValue(l.delayed, v, t), at := l.at[t := p])
    case Overflow => l.(overflow := InsertByValue(l.overflow, v, t), at := l.at[t := p])
    case _ => l.(suspended := l.suspended + [t], at := l.at[t := p])
  }

  lemma AddBlockedPlaced(l: StateLists, t: Task, p: Place, v: map<Task, nat>)
    requires Blocking(p) && Placed(l) && t in l.at && l.at[t] == Nowhere
    ensures Placed(AddBlocked(l, t, p, v))
  {
    var l' := AddBlocked(l, t, p, v);
    InsertByValueNoDup(l.delayed, v, t);
    InsertByValueNoDup(l.overflow, v, t);
    ListsJoin(l.delayed, l.at, Delayed, t, l'.delayed, p);
    ListsJoin(l.overflow, l.at, Overflow, t, l'.overflow, p);
    ListsJoin(l.suspended, l.at, Suspended, t, l'.suspended, p);
    forall q | 0 <= q < |l'.ready| ensures ReadyAt(l'.ready[q], l'.at, q) {
      assert ReadyAt(l.ready[q], l.at, q);
      ListsJoin(l.ready[q].items, l.at, Ready(q), t, l.ready[q].items, p);
    }
  }

  // A ready task's item moves to one of the other lists.
  lemma MovedToBlocked(l: StateLists, t: Task, p: Place, v: map<Task, nat>)
    requires Blocking(p) && Placed(l) && t in l.at && l.at[t].Ready?
    ensures t !in l.delayed && t !in l.overflow
    ensures RemoveItem(l, t).delayed == l.delayed && RemoveItem(l, t).overflow == l.overflow
    ensures Placed(AddBlocked(RemoveItem(l, t), t, p, v))
    ensures AddBlocked(RemoveItem(l, t), t, p, v).at == l.at[t := p]
  {
    RemoveItemPlaced(l, t);
    AddBlockedPlaced(RemoveItem(l, t), t, p, v);
  }

  // The two delayed lists exchange their roles: their items stay where they are.
  function SwapDelayed(l: StateLists): StateLists {
    l.(delayed := l.overflow, overflow := l.delayed, at := SwapRoles(l.at))
  }

  function SwapRoles(at: map<Task, Place>): map<Task, Place> {
    map t | t in at :: match at[t] case Delayed => Overflow case Overflow => Delayed case p => p
  }

  lemma SwappedPlaced(l: StateLists)
    requires Placed(l)
    ensures Placed(SwapDelayed(l)) && SwapDelayed(l).at.Keys == l.at.Keys
  {
    var m := SwapDelayed(l);
    forall p | 0 <= p < |m.ready| ensures ReadyAt(m.ready[p], m.at, p) {
      assert ReadyAt(l.ready[p], l.at, p);
    }
  }
}
