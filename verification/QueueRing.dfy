/** The storage area of a queue: a ring with a write and a read position is a double-ended sequence. */
module QueueRing {
  import opened QueueModel


  // Position k of the ring, counted from the start of the storage, at most two lengths away.
  function Around(k: nat, length: nat): nat {
    if k < length then k else if k < 2 * length then k - length else k - 2 * length
  }

  // read is the slot of pcReadFrom, whose message has been taken already, write that of pcWriteTo.
  datatype Slots<T> = Slots(cells: seq<T>, read: nat, write: nat, count: nat)

  predicate Sound<T>(r: Slots<T>) {
    && r.read < |r.cells| && r.write < |r.cells| && r.count <= |r.cells|
    && r.write == Around(r.read + 1 + r.count, |r.cells|)
  }

  // The messages, oldest first.
  function Items<T>(r: Slots<T>): (s: seq<T>)
    requires Sound(r)
    ensures |s| == r.count && forall i :: 0 <= i < r.count ==> s[i] == r.cells[Around(r.read + 1 + i, |r.cells|)]
  {
    seq(r.count, i requires 0 <= i < r.count => r.cells[Around(r.read + 1 + i, |r.cells|)])
  }

  // prvCopyDataToQueue, to the back, to the front and over the message at the front.
  function PutBack<T>(r: Slots<T>, x: T): Slots<T>
    requires r.write < |r.cells|
  {
    Slots(r.cells[r.write := x], r.read, if r.write + 1 >= |r.cells| then 0 else r.write + 1, r.count + 1)
  }

  function PutFront<T>(r: Slots<T>, x: T): Slots<T>
    requires r.read < |r.cells|
  {
    Slots(r.cells[r.read := x], if r.read == 0 then |r.cells| - 1 else r.read - 1, r.write, r.count + 1)
  }

  function PutOver<T>(r: Slots<T>, x: T): Slots<T>
    requires r.read < |r.cells|
  {
    PutFront(r.(count := if r.count > 0 then r.count - 1 else 0), x)
  }

  function NextRead<T>(r: Slots<T>): (k: nat)
    requires 0 < |r.cells|
    ensures r.read < |r.cells| ==> k < |r.cells|
  {
    if r.read + 1 >= |r.cells| then 0 else r.read + 1
  }

  lemma PutBackItems<T>(r: Slots<T>, x: T)
    requires Sound(r) && r.count < |r.cells|
    ensures Sound(PutBack(r, x)) && Items(PutBack(r, x)) == Items(r) + [x]
  {
    forall i | 0 <= i < r.count + 1 ensures Items(PutBack(r, x))[i] == (Items(r) + [x])[i] {
    }
  }

  lemma PutFrontItems<T>(r: Slots<T>, x: T)
    requires Sound(r) && r.count < |r.cells|
    ensures Sound(PutFront(r, x)) && Items(PutFront(r, x)) == [x] + Items(r)
  {
    forall i | 0 <= i < r.count + 1 ensures Items(PutFront(r, x))[i] == ([x] + Items(r))[i] {
    }
  }

  // In a queue of length 1 the write position is always the only one, so overwriting is sound there.
  lemma PutOverItems<T>(r: Slots<T>, x: T)
    requires Sound(r) && |r.cells| == 1
    ensures Sound(PutOver(r, x)) && Items(PutOver(r, x)) == [x]
  {
    assert |Items(PutOver(r, x))| == 1 && Items(PutOver(r, x))[0] == x;
  }

  // In a longer queue that holds a message it is not.
  lemma PutOverBreaksLonger<T>(r: Slots<T>, x: T)
    requires Sound(r) && r.count > 0
    ensures Sound(PutOver(r, x)) <==> |r.cells| == 1
  {
  }

  lemma TakeItems<T>(r: Slots<T>)
    requires Sound(r) && r.count > 0
    ensures var r' := r.(read := NextRead(r), count := r.count - 1);
            Sound(r') && Items(r) == [r.cells[NextRead(r)]] + Items(r')
  {
    var r' := r.(read := NextRead(r), count := r.count - 1);
    forall i | 0 <= i < r.count ensures Items(r)[i] == ([r.cells[NextRead(r)]] + Items(r'))[i] {
    }
  }

  // xQueueGenericReset
  lemma ResetItems<T>(cells: seq<T>)
    requires 0 < |cells|
    ensures var r := Slots(cells, |cells| - 1, 0, 0); Sound(r) && Items(r) == []
  {
  }

  // ----- any mix of operations ---------------------------------------------------------------------

  datatype Op<T> = SendOp(x: T, at: Position) | TakeOp | LookOp

  // The operation on the storage area, with the message that it returns, if it does. A queue that is
  // full takes nothing, one that is empty gives nothing.
  function OnSlots<T>(r: Slots<T>, op: Op<T>): (Slots<T>, seq<T>)
    requires Sound(r)
  {
    match op
    case SendOp(x, Back) => (if r.count < |r.cells| then PutBack(r, x) else r, [])
    case SendOp(x, Front) => (if r.count < |r.cells| then PutFront(r, x) else r, [])
    case SendOp(x, Overwrite) => (PutOver(r, x), [])
    case TakeOp =>
      if r.count > 0 then (r.(read := NextRead(r), count := r.count - 1), [r.cells[NextRead(r)]]) else (r, [])
    case LookOp => (r, if r.count > 0 then [r.cells[NextRead(r)]] else [])
  }

  // The same on a sequence of bounded length.
  function OnItems<T>(length: nat, s: seq<T>, op: Op<T>): (seq<T>, seq<T>) {
    match op
    case SendOp(x, at) => (if |s| < length || at.Overwrite? then Put(s, x, at) else s, [])
    case TakeOp => if s != [] then (s[1..], [s[0]]) else (s, [])
    case LookOp => (s, if s != [] then [s[0]] else [])
  }

  // A message is overwritten only in a queue of length 1.
  predicate Allowed<T>(length: nat, op: Op<T>) {
    op.SendOp? && op.at.Overwrite? ==> length == 1
  }

  lemma OpAgrees<T>(r: Slots<T>, op: Op<T>)
    requires Sound(r) && Allowed(|r.cells|, op)
    ensures var (q, out) := OnSlots(r, op);
            Sound(q) && |q.cells| == |r.cells| && (Items(q), out) == OnItems(|r.cells|, Items(r), op)
  {
    hide Sound, Items, PutBack, PutFront, PutOver, NextRead;
    Capacity(r);
    match op
    case SendOp(x, Back) => if r.count < |r.cells| { PutBackItems(r, x); }
    case SendOp(x, Front) => if r.count < |r.cells| { PutFrontItems(r, x); }
    case SendOp(x, Overwrite) => PutOverItems(r, x); assert Put(Items(r), x, Overwrite) == [x];
    case TakeOp => if r.count > 0 { TakeItems(r); }
    case LookOp => if r.count > 0 { TakeItems(r); }
  }

  lemma Capacity<T>(r: Slots<T>)
    requires Sound(r)
    ensures 0 < |r.cells| && r.count <= |r.cells| && |Items(r)| == r.count
    ensures forall x: T :: |PutBack(r, x).cells| == |PutFront(r, x).cells| == |PutOver(r, x).cells| == |r.cells|
  {
  }

  function RunSlots<T>(r: Slots<T>, ops: seq<Op<T>>): (Slots<T>, seq<T>)
    requires Sound(r) && forall op :: op in ops ==> Allowed(|r.cells|, op)
    decreases |ops|
  {
    if ops == [] then (r, [])
    else
      OpAgrees(r, ops[0]);
      var (q, out) := OnSlots(r, ops[0]);
      var (e, more) := RunSlots(q, ops[1..]);
      (e, out + more)
  }

  function RunItems<T>(length: nat, s: seq<T>, ops: seq<Op<T>>): (seq<T>, seq<T>)
    decreases |ops|
  {
    if ops == [] then (s, [])
    else
      var (t, out) := OnItems(length, s, ops[0]);
      var (e, more) := RunItems(length, t, ops[1..]);
      (e, out + more)
  }

  // Over any mix of sends to either end, overwrites, receptions and peeks the storage area is a
  // bounded sequence with two ends: it holds the same messages and returns the same messages.
  lemma {:induction false} RunAgrees<T>(r: Slots<T>, ops: seq<Op<T>>)
    requires Sound(r) && forall op :: op in ops ==> Allowed(|r.cells|, op)
    ensures var (q, out) := RunSlots(r, ops);
            Sound(q) && (Items(q), out) == RunItems(|r.cells|, Items(r), ops)
    decreases |ops|
  {
    hide Sound, Items, OnSlots, OnItems, Allowed;
    if ops != [] {
      OpAgrees(r, ops[0]);
      RunAgrees(OnSlots(r, ops[0]).0, ops[1..]);
    }
  }
}
