/** Stream and message buffers: one writer and one reader interleaved byte by byte. */
module StreamModel {

  type byte = b: int | 0 <= b < 256

  // ----- positions -------------------------------------------------------------------------------

  // Position k of a ring of that length, at most one length beyond it.
  function Around(k: nat, length: nat): nat {
    if k < length then k else k - length
  }

  // xStreamBufferSpacesAvailable and prvBytesInBuffer, of index values.
  function Spaces(length: nat, tail: nat, head: nat): int {
    var space := length + tail - head - 1;
    if space >= length then space - length else space
  }

  function Bytes(length: nat, tail: nat, head: nat): int {
    var count := length + head - tail;
    if count >= length then count - length else count
  }

  // ----- the length of a message -----------------------------------------------------------------

  const sbBYTES_TO_STORE_MESSAGE_LENGTH: nat := 4

  function LowByte(n: nat): byte {
    n % 256
  }

  // A length as the four bytes of a little-endian word.
  function LengthBytes(n: nat): (r: seq<byte>)
    ensures |r| == sbBYTES_TO_STORE_MESSAGE_LENGTH
  {
    [LowByte(n), LowByte(n / 256), LowByte(n / 256 / 256), LowByte(n / 256 / 256 / 256)]
  }

  function LengthOf(b: seq<byte>): nat
    requires |b| == sbBYTES_TO_STORE_MESSAGE_LENGTH
  {
    var v: seq<nat> := b;
    v[0] + 256 * v[1] + 65536 * v[2] + 16777216 * v[3]
  }

  lemma LengthRoundTrip(n: nat)
    requires n < 0x1_0000_0000
    ensures LengthOf(LengthBytes(n)) == n
  {
    var a, b, c := n / 256, n / 256 / 256, n / 256 / 256 / 256;
    assert n == 256 * a + LowByte(n) && a == 256 * b + LowByte(a) && b == 256 * c + LowByte(b) && c == LowByte(c);
    hide LowByte;
  }

  function Frame(m: seq<byte>): (r: seq<byte>)
    ensures |r| == |m| + sbBYTES_TO_STORE_MESSAGE_LENGTH
  {
    LengthBytes(|m|) + m
  }

  function Frames(ms: seq<seq<byte>>): seq<byte> {
    if ms == [] then [] else Frame(ms[0]) + Frames(ms[1..])
  }

  lemma {:induction false} FramesAppend(ms: seq<seq<byte>>, m: seq<byte>)
    ensures Frames(ms + [m]) == Frames(ms) + Frame(m)
  {
    hide Frame;
    if ms == [] {
      assert ms + [m] == [m] && [m][1..] == [];
    } else {
      FramesAppend(ms[1..], m);
      assert (ms + [m])[1..] == ms[1..] + [m];
    }
  }

  // All the bytes of some messages.
  function Joined(ms: seq<seq<byte>>): seq<byte> {
    if ms == [] then [] else ms[0] + Joined(ms[1..])
  }

  lemma {:induction false} JoinedAppend(a: seq<seq<byte>>, b: seq<seq<byte>>)
    ensures Joined(a + b) == Joined(a) + Joined(b)
  {
    if a == [] {
      assert a + b == b;
    } else {
      assert (a + b)[0] == a[0] && (a + b)[1..] == a[1..] + b;
      JoinedAppend(a[1..], b);
    }
  }

  lemma JoinedOne(m: seq<byte>)
    ensures Joined([m]) == m
  {
  }

  lemma {:induction false} JoinedShorter(ms: seq<seq<byte>>)
    ensures |Joined(ms)| <= |Frames(ms)|
  {
    if ms != [] {
      JoinedShorter(ms[1..]);
    }
  }

  // ----- the machine -----------------------------------------------------------------------------

  // Looking and Judging are the loop of xStreamBufferSpacesAvailable, which reads xTail twice.
  // Copying: the bytes are going in behind the published ones; they will be published if publish.
  datatype Writer = Resting | Looking(data: seq<byte>, original: nat)
                  | Judging(data: seq<byte>, original: nat, space: int)
                  | Copying(bytes: seq<byte>, done: nat, publish: bool)

  // Measuring: reading the length of a message. Reading: count bytes, from offset bytes after xTail.
  datatype Reader = Idle | Measuring(room: nat, available: nat, got: seq<byte>)
                  | Reading(offset: nat, count: nat, got: seq<byte>)

  // pucBuffer, xHead and xTail, and how far the two users have come. The program does not have: the
  // published bytes that have not been consumed; the bytes that the writer was given, as far as they
  // have been published; those that the reader has copied out; and the same as messages.
  datatype Buffer = Buffer(message: bool, cells: seq<byte>, head: nat, tail: nat, writer: Writer, reader: Reader,
                           pending: seq<byte>, sent: seq<byte>, received: seq<byte>,
                           pendingMs: seq<seq<byte>>, sentMs: seq<seq<byte>>, receivedMs: seq<seq<byte>>)

  datatype Step = Send(data: seq<byte>) | LoadTail | CheckTail | LookAgain | CopyIn | PublishHead
                | Receive(room: nat) | CopyLength | Decide | CopyOut | PublishTail

  // What is written, and whether the head is then moved: a message as a whole or not at all, and an
  // empty one not.
  function Plan(message: bool, data: seq<byte>, space: int): Writer {
    if message then
      if space >= |data| + sbBYTES_TO_STORE_MESSAGE_LENGTH then Copying(Frame(data), 0, data != []) else Resting
    else
      var n := if |data| < space then |data| else space;
      if n <= 0 then Resting else Copying(data[..n], 0, true)
  }

  function Apply(b: Buffer, st: Step): Buffer {
    var length := |b.cells|;
    match st
    case Send(data) => b.(writer := Looking(data, b.tail))
    case LoadTail =>
      if !b.writer.Looking? then b
      else b.(writer := Judging(b.writer.data, b.writer.original, Spaces(length, b.tail, b.head)))
    case CheckTail =>
      if !b.writer.Judging? then b
      else if b.writer.original != b.tail then b.(writer := Looking(b.writer.data, b.tail))
      else b.(writer := Plan(b.message, b.writer.data, b.writer.space))
    case LookAgain => if b.writer.Judging? then b.(writer := Looking(b.writer.data, b.tail)) else b
    case CopyIn =>
      if !b.writer.Copying? || b.writer.done >= |b.writer.bytes| || Around(b.head + b.writer.done, length) >= length
      then b
      else b.(cells := b.cells[Around(b.head + b.writer.done, length) := b.writer.bytes[b.writer.done]],
              writer := b.writer.(done := b.writer.done + 1))
    case PublishHead =>
      if !b.writer.Copying? then b
      else if !b.writer.publish then b.(writer := Resting)
      else
        var w := b.writer.bytes;
        var data := if b.message then Payload(w) else w;
        b.(head := Around(b.head + |w|, length), writer := Resting, pending := b.pending + w, sent := b.sent + data,
           pendingMs := b.pendingMs + [data], sentMs := b.sentMs + [data])
    case Receive(room) =>
      var available := Bytes(length, b.tail, b.head);
      if b.message then
        if available <= sbBYTES_TO_STORE_MESSAGE_LENGTH then b else b.(reader := Measuring(room, available, []))
      else
        var n := if room < available then room else available;
        if n <= 0 then b else b.(reader := Reading(0, n, []))
    case CopyLength =>
      if !b.reader.Measuring? || Around(b.tail + |b.reader.got|, length) >= length then b
      else
        var x := b.cells[Around(b.tail + |b.reader.got|, length)];
        b.(reader := Measuring(b.reader.room, b.reader.available, b.reader.got + [x]))
    case Decide =>
      if !b.reader.Measuring? || |b.reader.got| != sbBYTES_TO_STORE_MESSAGE_LENGTH then b
      else
        var next := if LengthOf(b.reader.got) > b.reader.room then 0 else LengthOf(b.reader.got);
        var left := b.reader.available - sbBYTES_TO_STORE_MESSAGE_LENGTH;
        var n := if next < left then next else left;
        b.(reader := if n <= 0 then Idle else Reading(sbBYTES_TO_STORE_MESSAGE_LENGTH, n, []))
    case CopyOut =>
      if !b.reader.Reading? || Around(b.tail + b.reader.offset + |b.reader.got|, length) >= length then b
      else
        var x := b.cells[Around(b.tail + b.reader.offset + |b.reader.got|, length)];
        b.(reader := Reading(b.reader.offset, b.reader.count, b.reader.got + [x]))
    case PublishTail =>
      if !b.reader.Reading? then b
      else
        var n := b.reader.offset + b.reader.count;
        b.(tail := Around(b.tail + n, length), reader := Idle, pending := Rest(b.pending, n),
           received := b.received + b.reader.got,
           pendingMs := Rest(b.pendingMs, 1), receivedMs := b.receivedMs + [b.reader.got])
  }

  // The message in a frame.
  function Payload(w: seq<byte>): seq<byte> {
    Rest(w, sbBYTES_TO_STORE_MESSAGE_LENGTH)
  }

  function First<T>(s: seq<T>, n: nat): seq<T> {
    if n <= |s| then s[..n] else s
  }

  function Rest<T>(s: seq<T>, n: nat): seq<T> {
    if n <= |s| then s[n..] else []
  }

  // The order in which the two users take their own steps. One writer and one reader; a message is
  // no longer than its length type allows.
  predicate Can(b: Buffer, st: Step) {
    match st
    case Send(data) => b.writer.Resting? && |data| < 0x1_0000_0000
    case LoadTail => b.writer.Looking?
    case CheckTail => b.writer.Judging?
    case LookAgain => b.writer.Judging?
    case CopyIn => b.writer.Copying? && b.writer.done < |b.writer.bytes|
    case PublishHead => b.writer.Copying? && b.writer.done == |b.writer.bytes|
    case Receive(room) => b.reader.Idle?
    case CopyLength => b.reader.Measuring? && |b.reader.got| < sbBYTES_TO_STORE_MESSAGE_LENGTH
    case Decide => b.reader.Measuring? && |b.reader.got| == sbBYTES_TO_STORE_MESSAGE_LENGTH
    case CopyOut => b.reader.Reading? && |b.reader.got| < b.reader.count
    case PublishTail => b.reader.Reading? && |b.reader.got| == b.reader.count
  }

  // ----- the invariant ---------------------------------------------------------------------------

  // The published bytes are in the ring from tail to head.
  ghost predicate Holds(cells: seq<byte>, tail: nat, head: nat, pending: seq<byte>) {
    && tail < |cells| && head < |cells| && |pending| < |cells|
    && head == Around(tail + |pending|, |cells|)
    && forall k :: 0 <= k < |pending| ==> cells[Around(tail + k, |cells|)] == pending[k]
  }

  // The writer has, of the free places at most, and has filled them as far as done.
  ghost predicate WriterOk(cells: seq<byte>, head: nat, used: nat, message: bool, w: Writer)
    requires head < |cells|
  {
    match w
    case Resting => true
    case Looking(data, original) => |data| < 0x1_0000_0000
    case Judging(data, original, space) => |data| < 0x1_0000_0000 && space <= |cells| - 1 - used
    case Copying(bytes, done, publish) =>
      && done <= |bytes| <= |cells| - 1 - used
      && (forall j :: 0 <= j < done ==> cells[Around(head + j, |cells|)] == bytes[j])
      && (message && publish ==> exists m :: bytes == Frame(m) && m != [] && |m| < 0x1_0000_0000)
  }

  // The reader has read published bytes only; a message it takes is the first one, and whole.
  ghost predicate ReaderOk(pending: seq<byte>, ms: seq<seq<byte>>, message: bool, r: Reader) {
    match r
    case Idle => true
    case Measuring(room, available, got) =>
      && message && ms != [] && |got| <= sbBYTES_TO_STORE_MESSAGE_LENGTH <= available <= |pending|
      && got == First(pending, |got|) && available >= |Frame(ms[0])|
    case Reading(offset, count, got) =>
      && |got| <= count && 0 < count && offset + count <= |pending| && got == First(Rest(pending, offset), |got|)
      && offset == (if message then sbBYTES_TO_STORE_MESSAGE_LENGTH else 0)
      && (message ==> ms != [] && count == |ms[0]|)
  }

  ghost predicate MessagesOk(pending: seq<byte>, ms: seq<seq<byte>>) {
    pending == Frames(ms) && forall m :: m in ms ==> m != [] && |m| < 0x1_0000_0000
  }

  // What was given is what has been copied out and what is still to come.
  predicate LogsOk(b: Buffer) {
    if b.message then
      b.sentMs == b.receivedMs + b.pendingMs && b.sent == Joined(b.sentMs) && b.received == Joined(b.receivedMs)
    else b.sent == b.received + b.pending
  }

  ghost predicate Inv(b: Buffer) {
    && Holds(b.cells, b.tail, b.head, b.pending)
    && WriterOk(b.cells, b.head, |b.pending|, b.message, b.writer)
    && ReaderOk(b.pending, b.pendingMs, b.message, b.reader)
    && (b.message ==> MessagesOk(b.pending, b.pendingMs)) && LogsOk(b)
  }

  // ----- every step keeps the invariant ----------------------------------------------------------

  lemma SpacesExact(cells: seq<byte>, tail: nat, head: nat, pending: seq<byte>)
    requires Holds(cells, tail, head, pending)
    ensures Spaces(|cells|, tail, head) == |cells| - 1 - |pending| && Bytes(|cells|, tail, head) == |pending| < |cells|
  {
  }

  // Sampling the free space: whatever the reader does meanwhile, there is at least that much.
  lemma LookingKeeps(b: Buffer, st: Step)
    requires Inv(b) && Can(b, st) && (st.Send? || st.LoadTail? || st.CheckTail? || st.LookAgain?)
    ensures Inv(Apply(b, st))
  {
    SpacesExact(b.cells, b.tail, b.head, b.pending);
    hide Holds, ReaderOk, MessagesOk, Spaces, Frame, Around;
    if st.CheckTail? && b.writer.original == b.tail {
      PlanOk(b.cells, b.head, |b.pending|, b.message, b.writer.data, b.writer.space);
    }
  }

  lemma PlanOk(cells: seq<byte>, head: nat, used: nat, message: bool, data: seq<byte>, space: int)
    requires head < |cells| && space <= |cells| - 1 - used && |data| < 0x1_0000_0000
    ensures WriterOk(cells, head, used, message, Plan(message, data, space))
  {
  }

  // Writing behind the head disturbs nothing that is published.
  lemma CopyInKeeps(b: Buffer)
    requires Inv(b) && Can(b, CopyIn)
    ensures Inv(Apply(b, CopyIn))
  {
    hide ReaderOk, MessagesOk, Frame;
  }

  lemma PublishedHolds(cells: seq<byte>, tail: nat, head: nat, pending: seq<byte>, w: seq<byte>)
    requires Holds(cells, tail, head, pending) && |w| <= |cells| - 1 - |pending|
    requires forall j :: 0 <= j < |w| ==> cells[Around(head + j, |cells|)] == w[j]
    ensures Holds(cells, tail, Around(head + |w|, |cells|), pending + w)
  {
    forall k | 0 <= k < |pending + w| ensures cells[Around(tail + k, |cells|)] == (pending + w)[k] {
      if k >= |pending| {
        assert cells[Around(head + (k - |pending|), |cells|)] == w[k - |pending|];
      }
    }
  }

  lemma PublishedReader(pending: seq<byte>, ms: seq<seq<byte>>, message: bool, r: Reader, w: seq<byte>, m: seq<byte>)
    requires ReaderOk(pending, ms, message, r)
    ensures ReaderOk(pending + w, ms + [m], message, r)
  {
    match r
    case Idle =>
    case Measuring(room, available, got) =>
      assert First(pending + w, |got|) == First(pending, |got|);
      assert (ms + [m])[0] == ms[0];
    case Reading(offset, count, got) =>
      assert First(Rest(pending + w, offset), |got|) == First(Rest(pending, offset), |got|);
      assert message ==> (ms + [m])[0] == ms[0];
  }

  lemma PublishedMessages(pending: seq<byte>, ms: seq<seq<byte>>, w: seq<byte>, m: seq<byte>)
    requires MessagesOk(pending, ms) && w == Frame(m) && m != [] && |m| < 0x1_0000_0000
    ensures MessagesOk(pending + w, ms + [m]) && Payload(w) == m
  {
    FramesAppend(ms, m);
  }

  lemma PublishedLogs(b: Buffer, r: Buffer, data: seq<byte>)
    requires LogsOk(b) && r.message == b.message && r.received == b.received && r.receivedMs == b.receivedMs
    requires r.sent == b.sent + data && r.sentMs == b.sentMs + [data] && r.pendingMs == b.pendingMs + [data]
    requires !b.message ==> r.pending == b.pending + data
    ensures LogsOk(r)
  {
    JoinedAppend(b.sentMs, [data]);
    JoinedOne(data);
    hide Joined;
  }

  lemma PublishHeadKeeps(b: Buffer)
    requires Inv(b) && Can(b, PublishHead)
    ensures Inv(Apply(b, PublishHead))
  {
    if b.writer.publish {
      var w := b.writer.bytes;
      var data := if b.message then Payload(w) else w;
      PublishedHolds(b.cells, b.tail, b.head, b.pending, w);
      PublishedReader(b.pending, b.pendingMs, b.message, b.reader, w, data);
      if b.message {
        var m :| w == Frame(m) && m != [] && |m| < 0x1_0000_0000;
        PublishedMessages(b.pending, b.pendingMs, w, m);
      }
      hide Holds, ReaderOk, MessagesOk, Frame, Around, Payload, LogsOk;
      PublishedLogs(b, Apply(b, PublishHead), data);
    } else {
      hide Holds, ReaderOk, MessagesOk, Frame;
    }
  }

  lemma FirstFrame(pending: seq<byte>, ms: seq<seq<byte>>)
    requires MessagesOk(pending, ms) && pending != []
    ensures ms != [] && |Frame(ms[0])| <= |pending| && ms[0] != [] && |ms[0]| < 0x1_0000_0000
    ensures Rest(pending, |Frame(ms[0])|) == Frames(ms[1..]) && First(pending, |Frame(ms[0])|) == Frame(ms[0])
  {
    assert ms[0] in ms;
  }

  lemma ReceiveKeeps(b: Buffer, room: nat)
    requires Inv(b) && Can(b, Receive(room))
    ensures Inv(Apply(b, Receive(room)))
  {
    SpacesExact(b.cells, b.tail, b.head, b.pending);
    if b.message && b.pending != [] {
      FirstFrame(b.pending, b.pendingMs);
    }
    hide Holds, WriterOk, MessagesOk, Bytes, Frame;
  }

  lemma FirstMore(s: seq<byte>, got: seq<byte>, x: byte)
    requires |got| < |s| && got == First(s, |got|) && x == s[|got|]
    ensures got + [x] == First(s, |got| + 1)
  {
  }

  lemma CopyLengthKeeps(b: Buffer)
    requires Inv(b) && Can(b, CopyLength)
    ensures Inv(Apply(b, CopyLength))
  {
    hide WriterOk, MessagesOk, Joined, Frame, First;
    var got := b.reader.got;
    assert b.cells[Around(b.tail + |got|, |b.cells|)] == b.pending[|got|];
    assert Around(b.tail + |got|, |b.cells|) < |b.cells|;
    hide Holds, Around;
    FirstMore(b.pending, got, b.pending[|got|]);
  }

  // The length that has been read is that of the first message.
  lemma LengthRead(pending: seq<byte>, ms: seq<seq<byte>>, got: seq<byte>)
    requires MessagesOk(pending, ms) && pending != [] && |got| == sbBYTES_TO_STORE_MESSAGE_LENGTH
    requires got == First(pending, |got|) && |got| <= |pending|
    ensures ms != [] && LengthOf(got) == |ms[0]|
  {
    FirstFrame(pending, ms);
    assert Frame(ms[0])[..4] == LengthBytes(|ms[0]|);
    assert First(pending, |Frame(ms[0])|)[..4] == pending[..4];
    LengthRoundTrip(|ms[0]|);
  }

  // What the reader knows once it has the whole length.
  lemma Measured(b: Buffer)
    requires Inv(b) && Can(b, Decide)
    ensures b.message && b.pendingMs != [] && 0 < |b.pendingMs[0]| && LengthOf(b.reader.got) == |b.pendingMs[0]|
    ensures |b.pendingMs[0]| <= b.reader.available - sbBYTES_TO_STORE_MESSAGE_LENGTH
    ensures b.reader.available <= |b.pending|
  {
    hide Holds, WriterOk, LogsOk, LengthOf;
    LengthRead(b.pending, b.pendingMs, b.reader.got);
  }

  lemma DecideKeeps(b: Buffer)
    requires Inv(b) && Can(b, Decide)
    ensures Inv(Apply(b, Decide))
  {
    Measured(b);
    hide Holds, WriterOk, MessagesOk, LogsOk, LengthOf, Frame;
  }

  lemma CopyOutKeeps(b: Buffer)
    requires Inv(b) && Can(b, CopyOut)
    ensures Inv(Apply(b, CopyOut))
  {
    hide WriterOk, MessagesOk, First;
    var got, offset := b.reader.got, b.reader.offset;
    assert b.cells[Around(b.tail + (offset + |got|), |b.cells|)] == b.pending[offset + |got|];
    FirstMore(Rest(b.pending, offset), got, b.cells[Around(b.tail + offset + |got|, |b.cells|)]);
    hide Holds, Around;
  }

  lemma ConsumedHolds(cells: seq<byte>, tail: nat, head: nat, pending: seq<byte>, n: nat)
    requires Holds(cells, tail, head, pending) && n <= |pending|
    ensures Holds(cells, Around(tail + n, |cells|), head, Rest(pending, n))
  {
    forall k | 0 <= k < |Rest(pending, n)|
      ensures cells[Around(Around(tail + n, |cells|) + k, |cells|)] == Rest(pending, n)[k]
    {
      assert cells[Around(tail + (n + k), |cells|)] == pending[n + k];
    }
  }

  lemma ConsumedWriter(cells: seq<byte>, head: nat, used: nat, less: nat, message: bool, w: Writer)
    requires head < |cells| && WriterOk(cells, head, used, message, w) && less <= used
    ensures WriterOk(cells, head, less, message, w)
  {
  }

  // What a complete read has got.
  lemma WholeRead(b: Buffer)
    requires Inv(b) && Can(b, PublishTail)
    ensures var n := b.reader.offset + b.reader.count;
            && n <= |b.pending| && b.reader.got == First(Rest(b.pending, b.reader.offset), b.reader.count)
            && (b.message ==> b.pendingMs != [] && b.reader.got == b.pendingMs[0] && n == |Frame(b.pendingMs[0])|)
            && (!b.message ==> b.reader.got == First(b.pending, n))
  {
    if b.message {
      FirstFrame(b.pending, b.pendingMs);
      var m := b.pendingMs[0];
      assert b.pending[..|Frame(m)|] == Frame(m);
      assert First(Rest(b.pending, 4), |m|) == b.pending[4..4 + |m|] == b.pending[..4 + |m|][4..];
      assert Frame(m)[4..] == m;
    }
  }

  lemma ConsumedMessages(pending: seq<byte>, ms: seq<seq<byte>>, n: nat)
    requires MessagesOk(pending, ms) && ms != [] && n == |Frame(ms[0])| && n <= |pending|
    ensures MessagesOk(Rest(pending, n), Rest(ms, 1)) && ms == [ms[0]] + Rest(ms, 1)
  {
    FirstFrame(pending, ms);
    assert forall m :: m in ms[1..] ==> m in ms;
  }

  lemma Parts(b: Buffer)
    requires Inv(b)
    ensures Holds(b.cells, b.tail, b.head, b.pending) && WriterOk(b.cells, b.head, |b.pending|, b.message, b.writer)
    ensures (b.message ==> MessagesOk(b.pending, b.pendingMs)) && LogsOk(b)
  {
  }

  lemma TailPublished(b: Buffer)
    requires Can(b, PublishTail)
    ensures var n := b.reader.offset + b.reader.count;
            Apply(b, PublishTail)
            == b.(tail := Around(b.tail + n, |b.cells|), reader := Idle, pending := Rest(b.pending, n),
                  received := b.received + b.reader.got,
                  pendingMs := Rest(b.pendingMs, 1), receivedMs := b.receivedMs + [b.reader.got])
  {
  }

  lemma ConsumedLogs(b: Buffer, r: Buffer, got: seq<byte>, n: nat)
    requires LogsOk(b) && r.message == b.message && r.sent == b.sent && r.sentMs == b.sentMs
    requires r.received == b.received + got && r.receivedMs == b.receivedMs + [got]
    requires r.pending == Rest(b.pending, n) && r.pendingMs == Rest(b.pendingMs, 1)
    requires if b.message then b.pendingMs == [got] + r.pendingMs else n <= |b.pending| && got == First(b.pending, n)
    ensures LogsOk(r)
  {
    JoinedAppend(b.receivedMs, [got]);
    JoinedOne(got);
    hide Joined;
    if b.message {
      assert b.receivedMs + ([got] + r.pendingMs) == (b.receivedMs + [got]) + r.pendingMs;
    }
  }

  lemma PublishTailKeeps(b: Buffer)
    requires Inv(b) && Can(b, PublishTail)
    ensures Inv(Apply(b, PublishTail))
  {
    hide Apply, Inv, Holds, WriterOk, MessagesOk, LogsOk, Around, Frame, First, Rest, Payload;
    Parts(b);
    WholeRead(b);
    var n := b.reader.offset + b.reader.count;
    ConsumedHolds(b.cells, b.tail, b.head, b.pending, n);
    RestShorter(b.pending, n);
    ConsumedWriter(b.cells, b.head, |b.pending|, |Rest(b.pending, n)|, b.message, b.writer);
    TailPublished(b);
    if b.message {
      ConsumedMessages(b.pending, b.pendingMs, n);
    }
    ConsumedLogs(b, Apply(b, PublishTail), b.reader.got, n);
    FromParts(Apply(b, PublishTail));
  }

  lemma RestShorter<T>(s: seq<T>, n: nat)
    ensures |Rest(s, n)| <= |s|
  {
  }

  lemma FromParts(b: Buffer)
    requires Holds(b.cells, b.tail, b.head, b.pending) && WriterOk(b.cells, b.head, |b.pending|, b.message, b.writer)
    requires (b.message ==> MessagesOk(b.pending, b.pendingMs)) && LogsOk(b) && b.reader.Idle?
    ensures Inv(b)
  {
  }

  lemma StepKeeps(b: Buffer, st: Step)
    requires Inv(b) && Can(b, st)
    ensures Inv(Apply(b, st))
  {
    hide Inv, Can, Apply;
    match st
    case Send(data) => LookingKeeps(b, st);
    case LoadTail => LookingKeeps(b, st);
    case CheckTail => LookingKeeps(b, st);
    case LookAgain => LookingKeeps(b, st);
    case CopyIn => CopyInKeeps(b);
    case PublishHead => PublishHeadKeeps(b);
    case Receive(room) => ReceiveKeeps(b, room);
    case CopyLength => CopyLengthKeeps(b);
    case Decide => DecideKeeps(b);
    case CopyOut => CopyOutKeeps(b);
    case PublishTail => PublishTailKeeps(b);
  }

  // ----- runs ------------------------------------------------------------------------------------

  function Steps(b: Buffer, sts: seq<Step>): Buffer
    decreases |sts|
  {
    if sts == [] then b else Steps(Apply(b, sts[0]), sts[1..])
  }

  predicate CanSteps(b: Buffer, sts: seq<Step>)
    decreases |sts|
  {
    sts == [] || (Can(b, sts[0]) && CanSteps(Apply(b, sts[0]), sts[1..]))
  }

  function Created(message: bool, cells: seq<byte>): Buffer {
    Buffer(message, cells, 0, 0, Resting, Idle, [], [], [], [], [], [])
  }

  lemma {:induction false} RunKeeps(b: Buffer, sts: seq<Step>)
    requires Inv(b) && CanSteps(b, sts)
    ensures Inv(Steps(b, sts))
    decreases |sts|
  {
    hide Inv, Can, Apply;
    if sts != [] {
      StepKeeps(b, sts[0]);
      RunKeeps(Apply(b, sts[0]), sts[1..]);
    }
  }

  // In every interleaving of the copies and the two index writes, the bytes that the reader has copied
  // out are a prefix of those that the writer was given; in message mode message by message, each whole.
  lemma ReceivedIsPrefix(message: bool, cells: seq<byte>, sts: seq<Step>)
    requires cells != [] && CanSteps(Created(message, cells), sts)
    ensures var b := Steps(Created(message, cells), sts);
            && b.received <= b.sent && |b.sent| - |b.received| < |cells|
            && (message ==>
                  b.receivedMs <= b.sentMs && b.received == Joined(b.receivedMs) && b.sent == Joined(b.sentMs))
  {
    assert Inv(Created(message, cells));
    RunKeeps(Created(message, cells), sts);
    StepsSame(Created(message, cells), sts);
    var b := Steps(Created(message, cells), sts);
    hide Steps, CanSteps;
    if message {
      JoinedAppend(b.receivedMs, b.pendingMs);
      JoinedShorter(b.pendingMs);
    }
  }

  lemma {:induction false} StepsSame(b: Buffer, sts: seq<Step>)
    ensures Steps(b, sts).message == b.message && |Steps(b, sts).cells| == |b.cells|
    decreases |sts|
  {
    if sts != [] {
      StepSame(b, sts[0]);
      hide Apply;
      StepsSame(Apply(b, sts[0]), sts[1..]);
    }
  }

  lemma StepSame(b: Buffer, st: Step)
    ensures Apply(b, st).message == b.message && |Apply(b, st).cells| == |b.cells|
  {
  }

  // A message for which the caller has no room stays in the buffer, untouched.
  lemma TooSmallLeavesIt(b: Buffer)
    requires Inv(b) && Can(b, Decide)
    ensures b.pendingMs != []
    ensures |b.pendingMs[0]| > b.reader.room ==> Apply(b, Decide) == b.(reader := Idle)
    ensures |b.pendingMs[0]| <= b.reader.room ==>
              Apply(b, Decide) == b.(reader := Reading(sbBYTES_TO_STORE_MESSAGE_LENGTH, |b.pendingMs[0]|, []))
  {
    hide Inv, LengthOf;
    Measured(b);
  }

  // ----- whole copies ----------------------------------------------------------------------------

  // The ring after done bytes have been copied in behind head.
  function Filled(cells: seq<byte>, head: nat, bytes: seq<byte>, done: nat): (r: seq<byte>)
    requires head < |cells| && done <= |bytes| <= |cells|
    ensures |r| == |cells|
  {
    if done == 0 then cells
    else Filled(cells, head, bytes, done - 1)[Around(head + done - 1, |cells|) := bytes[done - 1]]
  }

  lemma FilledNone(cells: seq<byte>, head: nat, bytes: seq<byte>)
    requires head < |cells| && |bytes| <= |cells|
    ensures Filled(cells, head, bytes, 0) == cells
  {
  }

  // That is what as many steps of the writer make of it.
  lemma {:induction false} CopiesIn(b: Buffer, done: nat)
    requires b.writer.Copying? && b.writer.done == 0 && b.head < |b.cells| && done <= |b.writer.bytes| <= |b.cells|
    ensures var w := b.writer;
            && CanSteps(b, Repeat(CopyIn, done))
            && Steps(b, Repeat(CopyIn, done))
               == b.(cells := Filled(b.cells, b.head, w.bytes, done), writer := Copying(w.bytes, done, w.publish))
    decreases done
  {
    if done > 0 {
      CopiesIn(b, done - 1);
      StepsAppend(b, Repeat(CopyIn, done - 1), [CopyIn]);
      hide Repeat, Filled;
      FilledStep(Steps(b, Repeat(CopyIn, done - 1)), b.cells, b.writer.bytes, done - 1, b.writer.publish);
    }
  }

  lemma FilledStep(b: Buffer, cells: seq<byte>, bytes: seq<byte>, done: nat, publish: bool)
    requires b.head < |cells| && done < |bytes| <= |cells|
    requires b.cells == Filled(cells, b.head, bytes, done) && b.writer == Copying(bytes, done, publish)
    ensures Can(b, CopyIn)
    ensures Apply(b, CopyIn)
         == b.(cells := Filled(cells, b.head, bytes, done + 1), writer := Copying(bytes, done + 1, publish))
  {
  }

  function Repeat(st: Step, n: nat): seq<Step> {
    if n == 0 then [] else Repeat(st, n - 1) + [st]
  }

  lemma {:induction false} StepsAppend(b: Buffer, s: seq<Step>, t: seq<Step>)
    ensures Steps(b, s + t) == Steps(Steps(b, s), t)
    ensures CanSteps(b, s + t) <==> CanSteps(b, s) && CanSteps(Steps(b, s), t)
    decreases |s|
  {
    if s == [] {
      assert s + t == t;
    } else {
      assert (s + t)[0] == s[0] && (s + t)[1..] == s[1..] + t;
      hide Apply, Can;
      StepsAppend(Apply(b, s[0]), s[1..], t);
    }
  }

  // Copying two pieces, one behind the other, is copying them as one.
  lemma {:induction false} FilledChain(cells: seq<byte>, head: nat, a: seq<byte>, b: seq<byte>, done: nat)
    requires head < |cells| && |a| + |b| <= |cells| && done <= |b|
    ensures Around(head + |a|, |cells|) < |cells|
    ensures Filled(Filled(cells, head, a, |a|), Around(head + |a|, |cells|), b, done)
         == Filled(cells, head, a + b, |a| + done)
    decreases done
  {
    if done == 0 {
      FilledPrefix(cells, head, a, b, |a|);
    } else {
      FilledChain(cells, head, a, b, done - 1);
    }
  }

  lemma {:induction false} FilledPrefix(cells: seq<byte>, head: nat, a: seq<byte>, b: seq<byte>, done: nat)
    requires head < |cells| && |a| + |b| <= |cells| && done <= |a|
    ensures Filled(cells, head, a, done) == Filled(cells, head, a + b, done)
    decreases done
  {
    if done > 0 {
      FilledPrefix(cells, head, a, b, done - 1);
    }
  }

  // The count bytes from tail on.
  function Taken(cells: seq<byte>, tail: nat, count: nat): (r: seq<byte>)
    requires tail < |cells| && count <= |cells|
    ensures |r| == count
  {
    if count == 0 then [] else Taken(cells, tail, count - 1) + [cells[Around(tail + count - 1, |cells|)]]
  }

  // That is what as many steps of the reader make of it, for the length of a message and for its bytes.
  lemma {:induction false} CopiesOut(b: Buffer, done: nat)
    requires b.reader.Reading? && b.reader.got == [] && done <= b.reader.count
    requires b.tail < |b.cells| && b.reader.offset + b.reader.count <= |b.cells|
    ensures var r, start := b.reader, Around(b.tail + b.reader.offset, |b.cells|);
            && start < |b.cells| && CanSteps(b, Repeat(CopyOut, done))
            && Steps(b, Repeat(CopyOut, done)) == b.(reader := Reading(r.offset, r.count, Taken(b.cells, start, done)))
    decreases done
  {
    hide Apply, Can, Taken, Around;
    if done > 0 {
      CopiesOut(b, done - 1);
      StepsAppend(b, Repeat(CopyOut, done - 1), [CopyOut]);
      hide Repeat;
      TakenStep(Steps(b, Repeat(CopyOut, done - 1)), done - 1);
    } else {
      TakenNone(b.cells, b.tail + b.reader.offset);
    }
  }

  lemma TakenStep(b: Buffer, done: nat)
    requires b.reader.Reading? && done < b.reader.count && b.tail < |b.cells|
    requires b.reader.offset + b.reader.count <= |b.cells| && |b.reader.got| == done
    requires Around(b.tail + b.reader.offset, |b.cells|) < |b.cells|
    requires b.reader.got == Taken(b.cells, Around(b.tail + b.reader.offset, |b.cells|), done)
    ensures Can(b, CopyOut)
    ensures Apply(b, CopyOut)
         == b.(reader := Reading(b.reader.offset, b.reader.count,
                                 Taken(b.cells, Around(b.tail + b.reader.offset, |b.cells|), done + 1)))
  {
    var start := Around(b.tail + b.reader.offset, |b.cells|);
    assert Around(start + done, |b.cells|) == Around(b.tail + b.reader.offset + done, |b.cells|);
  }

  lemma TakenNone(cells: seq<byte>, k: nat)
    requires k < 2 * |cells|
    ensures Around(k, |cells|) < |cells| && Taken(cells, Around(k, |cells|), 0) == []
  {
  }

  lemma {:induction false} CopiesLength(b: Buffer, done: nat)
    requires b.reader.Measuring? && b.reader.got == [] && b.tail < |b.cells|
    requires done <= sbBYTES_TO_STORE_MESSAGE_LENGTH <= |b.cells|
    ensures var r := b.reader;
            && CanSteps(b, Repeat(CopyLength, done))
            && Steps(b, Repeat(CopyLength, done))
               == b.(reader := Measuring(r.room, r.available, Taken(b.cells, b.tail, done)))
    decreases done
  {
    hide Apply, Can, Taken, Around;
    if done > 0 {
      CopiesLength(b, done - 1);
      StepsAppend(b, Repeat(CopyLength, done - 1), [CopyLength]);
      hide Repeat;
      LengthStep(Steps(b, Repeat(CopyLength, done - 1)), done - 1);
    } else {
      TakenNone(b.cells, b.tail);
    }
  }

  lemma LengthStep(b: Buffer, done: nat)
    requires b.reader.Measuring? && done < sbBYTES_TO_STORE_MESSAGE_LENGTH <= |b.cells| && b.tail < |b.cells|
    requires b.reader.got == Taken(b.cells, b.tail, done) && |b.reader.got| == done
    ensures Can(b, CopyLength)
    ensures Apply(b, CopyLength)
         == b.(reader := Measuring(b.reader.room, b.reader.available, Taken(b.cells, b.tail, done + 1)))
  {
  }

  // The whole of a write that has been planned, and of a read that has been decided on.
  lemma WholeWrite(b: Buffer)
    requires b.writer.Copying? && b.writer.done == 0 && b.head < |b.cells| && |b.writer.bytes| <= |b.cells|
    ensures var w, sts := b.writer, Repeat(CopyIn, |b.writer.bytes|) + [PublishHead];
            && CanSteps(b, sts)
            && Steps(b, sts).cells == Filled(b.cells, b.head, w.bytes, |w.bytes|)
            && Steps(b, sts).head == if w.publish then Around(b.head + |w.bytes|, |b.cells|) else b.head
  {
    CopiesIn(b, |b.writer.bytes|);
    StepsAppend(b, Repeat(CopyIn, |b.writer.bytes|), [PublishHead]);
    hide Repeat, Filled, Around;
  }

  lemma WholeReceipt(b: Buffer)
    requires b.reader.Reading? && b.reader.got == [] && b.tail < |b.cells|
    requires b.reader.offset + b.reader.count <= |b.cells|
    ensures var r, sts := b.reader, Repeat(CopyOut, b.reader.count) + [PublishTail];
            && CanSteps(b, sts)
            && Around(b.tail + r.offset, |b.cells|) < |b.cells|
            && Steps(b, sts).received == b.received + Taken(b.cells, Around(b.tail + r.offset, |b.cells|), r.count)
            && Steps(b, sts).tail == Around(b.tail + r.offset + r.count, |b.cells|)
            && Steps(b, sts).cells == b.cells
  {
    CopiesOut(b, b.reader.count);
    StepsAppend(b, Repeat(CopyOut, b.reader.count), [PublishTail]);
    hide Repeat, Taken, Around;
  }

  lemma {:induction false} FilledAt(cells: seq<byte>, head: nat, bytes: seq<byte>, done: nat, i: nat)
    requires head < |cells| && i < done <= |bytes| <= |cells|
    ensures Filled(cells, head, bytes, done)[Around(head + i, |cells|)] == bytes[i]
    decreases done
  {
    if i < done - 1 {
      FilledAt(cells, head, bytes, done - 1, i);
    }
  }

  // What has been copied in is what is taken out.
  lemma {:induction false} FilledTaken(cells: seq<byte>, head: nat, bytes: seq<byte>, count: nat)
    requires head < |cells| && count <= |bytes| <= |cells|
    ensures Taken(Filled(cells, head, bytes, |bytes|), head, count) == bytes[..count]
    decreases count
  {
    if count > 0 {
      FilledTaken(cells, head, bytes, count - 1);
      FilledAt(cells, head, bytes, |bytes|, count - 1);
    }
  }
}
