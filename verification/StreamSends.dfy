/** How much a call on a stream or message buffer takes: all that fits of a stream, a message whole or not
    at all, whatever the other side does while the space is being sampled. */
module StreamSends {
  import opened StreamModel

  // The free places of the ring.
  function Free(b: Buffer): int {
    |b.cells| - 1 - |b.pending|
  }

  function Min(a: int, b: int): (r: nat)
    requires a >= 0 && b >= 0
  {
    if a < b then a else b
  }

  // ----- sampling the free space -------------------------------------------------------------------

  // Since the writer took note of the tail, the reader can only have made room. The room it has found lies
  // between that of then and that of now.
  ghost predicate Sampling(b: Buffer) {
    match b.writer
    case Looking(data, original) => original < |b.cells| && |b.pending| <= Bytes(|b.cells|, original, b.head)
    case Judging(data, original, space) =>
      original < |b.cells| && |b.pending| <= |b.cells| - 1 - space <= Bytes(|b.cells|, original, b.head)
    case _ => true
  }

  lemma InvHolds(b: Buffer)
    requires Inv(b)
    ensures Holds(b.cells, b.tail, b.head, b.pending) && b.tail < |b.cells| && b.head < |b.cells|
    ensures Spaces(|b.cells|, b.tail, b.head) == Free(b) && Bytes(|b.cells|, b.tail, b.head) == |b.pending|
    ensures 0 <= Free(b)
  {
    SpacesExact(b.cells, b.tail, b.head, b.pending);
  }

  lemma StepSamples(b: Buffer, st: Step)
    requires Inv(b) && Can(b, st) && Sampling(b)
    ensures Sampling(Apply(b, st))
  {
    InvHolds(b);
    hide Inv, Holds, Spaces, Bytes, Frame;
  }

  lemma {:induction false} RunSamples(b: Buffer, sts: seq<Step>)
    requires Inv(b) && Sampling(b) && CanSteps(b, sts)
    ensures Inv(Steps(b, sts)) && Sampling(Steps(b, sts))
    decreases |sts|
  {
    hide Inv, Can, Apply, Sampling;
    if sts != [] {
      StepKeeps(b, sts[0]);
      StepSamples(b, sts[0]);
      RunSamples(Apply(b, sts[0]), sts[1..]);
    }
  }

  // When the tail is found where it was, nothing has been consumed meanwhile: the ring is short of a whole
  // round. So the room that was found is exactly the room there is.
  lemma SampleExact(b: Buffer)
    requires Inv(b) && Sampling(b) && b.writer.Judging? && b.writer.original == b.tail
    ensures b.writer.space == Free(b)
  {
    InvHolds(b);
    hide Inv, Holds, Spaces, Bytes;
  }

  // ----- what a call accepts -----------------------------------------------------------------------

  // The loop goes round again exactly if the tail has moved since it began.
  lemma LoopsIff(b: Buffer)
    requires Inv(b) && b.writer.Judging?
    ensures var r := Apply(b, CheckTail);
            && (r.writer.Looking? <==> b.writer.original != b.tail)
            && (r.writer.Looking? ==> r == b.(writer := Looking(b.writer.data, b.tail)))
  {
    hide Inv, Frame;
  }

  // When it ends: of a stream, as many of the first bytes as there is room for; a message with its length in
  // front, if there is room for both, and an empty message is not published.
  lemma SendAccepts(b: Buffer)
    requires Inv(b) && Sampling(b) && b.writer.Judging?
    ensures var data, w := b.writer.data, Apply(b, CheckTail).writer;
            && 0 <= Free(b)
            && (w.Looking? || b.message ||
                  var n := Min(|data|, Free(b)); if n == 0 then w.Resting? else w == Copying(data[..n], 0, true))
            && (w.Looking? || !b.message ||
                  if |data| + 4 <= Free(b) then w == Copying(LengthBytes(|data|) + data, 0, data != []) else w.Resting?)
  {
    InvHolds(b);
    LoopsIff(b);
    if b.writer.original == b.tail {
      SampleExact(b);
    }
    hide Inv, Sampling, LengthBytes;
  }

  // From then on until the next call: the bytes are on their way in, or they have been published.
  ghost predicate Commits(b: Buffer, bytes: seq<byte>, publish: bool, data: seq<byte>, sent: seq<byte>,
                          sentMs: seq<seq<byte>>) {
    match b.writer
    case Copying(w, done, p) => w == bytes && p == publish && b.sent == sent && b.sentMs == sentMs
    case Resting =>
      if publish then b.sent == sent + data && b.sentMs == sentMs + [data] else b.sent == sent && b.sentMs == sentMs
    case _ => false
  }

  predicate NoCall(sts: seq<Step>) {
    forall st :: st in sts ==> !st.Send?
  }

  lemma StepCommits(b: Buffer, st: Step, bytes: seq<byte>, publish: bool, data: seq<byte>, sent: seq<byte>,
                    sentMs: seq<seq<byte>>)
    requires Commits(b, bytes, publish, data, sent, sentMs) && Can(b, st) && !st.Send?
    requires publish ==> data == if b.message then Payload(bytes) else bytes
    ensures Commits(Apply(b, st), bytes, publish, data, sent, sentMs)
  {
    hide Payload, Around, Frame;
  }

  lemma {:induction false} RunCommits(b: Buffer, sts: seq<Step>, bytes: seq<byte>, publish: bool, data: seq<byte>,
                                      sent: seq<byte>, sentMs: seq<seq<byte>>)
    requires Commits(b, bytes, publish, data, sent, sentMs) && CanSteps(b, sts) && NoCall(sts)
    requires publish ==> data == if b.message then Payload(bytes) else bytes
    ensures Commits(Steps(b, sts), bytes, publish, data, sent, sentMs)
    decreases |sts|
  {
    hide Commits, Apply, Can, Payload;
    if sts != [] {
      StepCommits(b, sts[0], bytes, publish, data, sent, sentMs);
      StepSame(b, sts[0]);
      RunCommits(Apply(b, sts[0]), sts[1..], bytes, publish, data, sent, sentMs);
    }
  }

  lemma Planned(b: Buffer, n: nat)
    requires Inv(b) && Sampling(b) && b.writer.Judging? && !Apply(b, CheckTail).writer.Looking? && 0 <= Free(b)
    requires n == if b.message then (if |b.writer.data| + 4 <= Free(b) then |b.writer.data| else 0)
                  else Min(|b.writer.data|, Free(b))
    ensures n <= |b.writer.data|
    ensures var data := b.writer.data[..n];
            var bytes := if b.message then Frame(b.writer.data) else data;
            && Commits(Apply(b, CheckTail), bytes, n > 0, data, b.sent, b.sentMs)
            && (n > 0 ==> data == if b.message then Payload(bytes) else bytes)
  {
    SendAccepts(b);
    hide Inv, Sampling, LengthBytes;
    CheckTailLogs(b);
    if b.message && n > 0 {
      assert b.writer.data[..n] == b.writer.data;
      FramePayload(b.writer.data);
    }
  }

  lemma FramePayload(m: seq<byte>)
    ensures Payload(Frame(m)) == m
  {
  }

  lemma CheckTailLogs(b: Buffer)
    requires b.writer.Judging?
    ensures var r := Apply(b, CheckTail);
            r.sent == b.sent && r.sentMs == b.sentMs && r.message == b.message
  {
  }

  // In every run from the creation of the buffer: when a writer has left the loop that samples the space, its
  // call publishes exactly the first n bytes, n being the smaller of what it was given and what is free; a
  // message buffer exactly the message if it fits with its length, and else nothing. That holds whatever
  // the reader does meanwhile, and nothing but those bytes is published before the next call.
  lemma SendOutcome(message: bool, cells: seq<byte>, before: seq<Step>, after: seq<Step>)
    requires cells != [] && CanSteps(Created(message, cells), before)
    requires var b := Steps(Created(message, cells), before);
             b.writer.Judging? && !Apply(b, CheckTail).writer.Looking? && CanSteps(Apply(b, CheckTail), after)
    requires NoCall(after) && Steps(Apply(Steps(Created(message, cells), before), CheckTail), after).writer.Resting?
    ensures var b := Steps(Created(message, cells), before);
            var e, data := Steps(Apply(b, CheckTail), after), b.writer.data;
            && b.message == message && 0 <= Free(b)
            && (!message ==> e.sent == b.sent + data[..Min(|data|, Free(b))])
            && (message ==> e.sentMs == if |data| + 4 <= Free(b) && data != [] then b.sentMs + [data] else b.sentMs)
  {
    var c := Created(message, cells);
    assert Inv(c) && Sampling(c);
    hide Inv, Sampling, Steps, CanSteps, Apply, Frame, Payload;
    RunSamples(c, before);
    var b := Steps(c, before);
    InvHolds(b);
    StepsSame(c, before);
    var data := b.writer.data;
    var n := if b.message then (if |data| + 4 <= Free(b) then |data| else 0) else Min(|data|, Free(b));
    Planned(b, n);
    CheckTailLogs(b);
    var bytes := if b.message then Frame(data) else data[..n];
    RunCommits(Apply(b, CheckTail), after, bytes, n > 0, data[..n], b.sent, b.sentMs);
    assert n == |data| ==> data[..n] == data;
  }

  // ----- what a call takes out ---------------------------------------------------------------------

  // Of a stream, the first n bytes, n being the smaller of the caller's room and what is stored; of a message
  // buffer the length of the first message, if there is one.
  lemma ReceiveTakes(b: Buffer, room: nat)
    requires Inv(b) && Can(b, Receive(room))
    ensures var r := Apply(b, Receive(room));
            && (!b.message ==>
                  var n := Min(room, |b.pending|); r == if n == 0 then b else b.(reader := Reading(0, n, [])))
            && (b.message ==>
                  r == if b.pendingMs == [] then b else b.(reader := Measuring(room, |b.pending|, [])))
  {
    InvHolds(b);
    if b.message {
      MessageBytes(b.pending, b.pendingMs);
    }
    hide Holds, Bytes, Spaces, ReaderOk, WriterOk, MessagesOk, LogsOk;
  }

  lemma MessageBytes(pending: seq<byte>, ms: seq<seq<byte>>)
    requires MessagesOk(pending, ms)
    ensures if ms == [] then pending == [] else |pending| > 4
  {
    if ms != [] {
      assert ms[0] in ms;
    }
  }

  // The reader takes, or has taken, what was there first.
  ghost predicate Takes(b: Buffer, n: nat, want: seq<byte>, received: seq<byte>) {
    match b.reader
    case Reading(offset, count, got) =>
      offset == 0 && count == n && n <= |b.pending| && b.pending[..n] == want && b.received == received
    case Idle => b.received == received + want
    case _ => false
  }

  lemma StepTakes(b: Buffer, st: Step, n: nat, want: seq<byte>, received: seq<byte>)
    requires Inv(b) && !b.message && Takes(b, n, want, received) && Can(b, st) && !st.Receive?
    ensures Takes(Apply(b, st), n, want, received)
  {
    if st.PublishTail? {
      WholeRead(b);
    }
    hide Inv, Payload, Around, Frame;
  }

  lemma {:induction false} RunTakes(b: Buffer, sts: seq<Step>, n: nat, want: seq<byte>, received: seq<byte>)
    requires Inv(b) && !b.message && Takes(b, n, want, received) && CanSteps(b, sts)
    requires forall st :: st in sts ==> !st.Receive?
    ensures Takes(Steps(b, sts), n, want, received)
    decreases |sts|
  {
    hide Inv, Takes, Apply, Can;
    if sts != [] {
      StepKeeps(b, sts[0]);
      StepSame(b, sts[0]);
      StepTakes(b, sts[0], n, want, received);
      RunTakes(Apply(b, sts[0]), sts[1..], n, want, received);
    }
  }

  // A reader of a stream buffer gets exactly the first n bytes that were stored when it called, whatever
  // the writer does meanwhile.
  lemma ReceiveOutcome(b: Buffer, room: nat, sts: seq<Step>)
    requires Inv(b) && !b.message && Can(b, Receive(room)) && CanSteps(Apply(b, Receive(room)), sts)
    requires forall st :: st in sts ==> !st.Receive?
    requires Steps(Apply(b, Receive(room)), sts).reader.Idle?
    ensures Steps(Apply(b, Receive(room)), sts).received == b.received + b.pending[..Min(room, |b.pending|)]
  {
    ReceiveTakes(b, room);
    StepKeeps(b, Receive(room));
    var n := Min(room, |b.pending|);
    hide Inv, Apply, Steps, CanSteps;
    RunTakes(Apply(b, Receive(room)), sts, n, b.pending[..n], b.received);
  }

  // The reader takes, or has dealt with, the message m.
  ghost predicate TakesMessage(b: Buffer, m: seq<byte>, room: nat, receivedMs: seq<seq<byte>>) {
    match b.reader
    case Measuring(r, _, _) => r == room && b.pendingMs != [] && b.pendingMs[0] == m && b.receivedMs == receivedMs
    case Reading(_, _, _) =>
      |m| <= room && b.pendingMs != [] && b.pendingMs[0] == m && b.receivedMs == receivedMs
    case Idle => b.receivedMs == if |m| <= room then receivedMs + [m] else receivedMs
  }

  lemma StepTakesMessage(b: Buffer, st: Step, m: seq<byte>, room: nat, receivedMs: seq<seq<byte>>)
    requires Inv(b) && b.message && TakesMessage(b, m, room, receivedMs) && Can(b, st) && !st.Receive?
    ensures TakesMessage(Apply(b, st), m, room, receivedMs)
  {
    hide Inv, Payload, Around, Frame, Plan, Spaces, Bytes, LengthOf, First;
    if st.PublishTail? {
      WholeRead(b);
    } else if st.Decide? {
      TooSmallLeavesIt(b);
    }
  }

  lemma {:induction false} RunTakesMessage(b: Buffer, sts: seq<Step>, m: seq<byte>, room: nat,
                                           receivedMs: seq<seq<byte>>)
    requires Inv(b) && b.message && TakesMessage(b, m, room, receivedMs) && CanSteps(b, sts)
    requires forall st :: st in sts ==> !st.Receive?
    ensures TakesMessage(Steps(b, sts), m, room, receivedMs)
    decreases |sts|
  {
    hide Inv, TakesMessage, Apply, Can;
    if sts != [] {
      StepKeeps(b, sts[0]);
      StepSame(b, sts[0]);
      StepTakesMessage(b, sts[0], m, room, receivedMs);
      RunTakesMessage(Apply(b, sts[0]), sts[1..], m, room, receivedMs);
    }
  }

  // A reader of a message buffer gets exactly the first message, if there is one and the caller has room for
  // it, and else nothing.
  lemma MessageOutcome(b: Buffer, room: nat, sts: seq<Step>)
    requires Inv(b) && b.message && Can(b, Receive(room)) && CanSteps(Apply(b, Receive(room)), sts)
    requires b.pendingMs != [] && forall st :: st in sts ==> !st.Receive?
    requires Steps(Apply(b, Receive(room)), sts).reader.Idle?
    ensures Steps(Apply(b, Receive(room)), sts).receivedMs
         == if |b.pendingMs[0]| <= room then b.receivedMs + [b.pendingMs[0]] else b.receivedMs
  {
    ReceiveTakes(b, room);
    StepKeeps(b, Receive(room));
    hide Inv, Apply, Steps, CanSteps;
    RunTakesMessage(Apply(b, Receive(room)), sts, b.pendingMs[0], room, b.receivedMs);
  }

  // ----- whole calls on the ring -------------------------------------------------------------------

  lemma {:induction false} FilledElsewhere(cells: seq<byte>, head: nat, bytes: seq<byte>, done: nat, i: nat)
    requires head < |cells| && done <= |bytes| <= |cells| && i < |cells|
    requires if head <= i then head + done <= i else head + done <= |cells| + i
    ensures Filled(cells, head, bytes, done)[i] == cells[i]
    decreases done
  {
    if done > 0 {
      FilledElsewhere(cells, head, bytes, done - 1, i);
    }
  }

  // Bytes that are copied in behind the stored ones leave those as they are, and with the head moved behind
  // them are stored as well.
  lemma FilledHolds(cells: seq<byte>, tail: nat, head: nat, pending: seq<byte>, w: seq<byte>)
    requires Holds(cells, tail, head, pending) && |w| <= |cells| - 1 - |pending|
    ensures Holds(Filled(cells, head, w, |w|), tail, head, pending)
    ensures Holds(Filled(cells, head, w, |w|), tail, Around(head + |w|, |cells|), pending + w)
  {
    var r := Filled(cells, head, w, |w|);
    forall k | 0 <= k < |pending| ensures r[Around(tail + k, |cells|)] == pending[k] {
      FilledElsewhere(cells, head, w, |w|, Around(tail + k, |cells|));
    }
    forall j | 0 <= j < |w| ensures r[Around(head + j, |cells|)] == w[j] {
      FilledAt(cells, head, w, |w|, j);
    }
    hide Filled;
    PublishedHolds(r, tail, head, pending, w);
  }

  // The bytes from the k-th stored one on are taken out as they are.
  lemma {:induction false} TakenHeld(cells: seq<byte>, tail: nat, head: nat, pending: seq<byte>, k: nat, count: nat)
    requires Holds(cells, tail, head, pending) && k + count <= |pending|
    ensures Around(tail + k, |cells|) < |cells|
    ensures Taken(cells, Around(tail + k, |cells|), count) == pending[k..k + count]
    decreases count
  {
    if count > 0 {
      TakenHeld(cells, tail, head, pending, k, count - 1);
      var i := k + count - 1;
      assert cells[Around(tail + i, |cells|)] == pending[i];
      assert pending[k..k + count] == pending[k..i] + [pending[i]];
      assert Around(Around(tail + k, |cells|) + count - 1, |cells|) == Around(tail + i, |cells|);
    }
  }

  // The length in front of the first message, and the message behind it.
  lemma FirstMessage(pending: seq<byte>, ms: seq<seq<byte>>)
    requires MessagesOk(pending, ms) && pending != []
    ensures ms != [] && 0 < |ms[0]| && |ms[0]| + 4 <= |pending|
    ensures LengthOf(pending[..4]) == |ms[0]| && pending[4..4 + |ms[0]|] == ms[0]
    ensures MessagesOk(pending[4 + |ms[0]|..], ms[1..])
  {
    FirstFrame(pending, ms);
    var m := ms[0];
    assert pending[..4 + |m|] == Frame(m);
    assert pending[..4] == Frame(m)[..4] == LengthBytes(|m|);
    assert pending[4..4 + |m|] == Frame(m)[4..];
    LengthRoundTrip(|m|);
    ConsumedMessages(pending, ms, 4 + |m|);
  }

  lemma RestIs<T>(s: seq<T>, n: nat)
    requires n <= |s|
    ensures Rest(s, n) == s[n..]
  {
  }

  // Taking out the first n bytes.
  lemma StreamRead(cells: seq<byte>, tail: nat, head: nat, pending: seq<byte>, n: nat)
    requires Holds(cells, tail, head, pending) && n <= |pending|
    ensures Around(tail, |cells|) == tail && Taken(cells, tail, n) == pending[..n]
    ensures Holds(cells, Around(tail + n, |cells|), head, pending[n..])
  {
    TakenHeld(cells, tail, head, pending, 0, n);
    ConsumedHolds(cells, tail, head, pending, n);
    RestIs(pending, n);
  }

  lemma AroundTwice(tail: nat, a: nat, b: nat, length: nat)
    requires tail < length && a + b < length
    ensures Around(tail + a, length) < length
    ensures Around(Around(tail + a, length) + b, length) == Around(tail + (a + b), length)
  {
  }

  // Taking out the first message.
  lemma MessageRead(cells: seq<byte>, tail: nat, head: nat, pending: seq<byte>, ms: seq<seq<byte>>)
    requires Holds(cells, tail, head, pending) && MessagesOk(pending, ms) && pending != []
    ensures ms != [] && 0 < |ms[0]| && |ms[0]| + 4 <= |pending| < |cells| && Around(tail + 4, |cells|) < |cells|
    ensures LengthOf(Taken(cells, tail, 4)) == |ms[0]|
    ensures Taken(cells, Around(tail + 4, |cells|), |ms[0]|) == ms[0]
    ensures Holds(cells, Around(Around(tail + 4, |cells|) + |ms[0]|, |cells|), head, pending[4 + |ms[0]|..])
    ensures MessagesOk(pending[4 + |ms[0]|..], ms[1..])
  {
    hide Taken, MessagesOk, LengthOf, Around;
    FirstMessage(pending, ms);
    var n := 4 + |ms[0]|;
    StreamRead(cells, tail, head, pending, 4);
    StreamRead(cells, tail, head, pending, n);
    TakenHeld(cells, tail, head, pending, 4, |ms[0]|);
    AroundTwice(tail, 4, |ms[0]|, |cells|);
  }
}
