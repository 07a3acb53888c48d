/** Modbus RTU framing: what is sent is what is received, and only that. */
module RtuModel {
  import opened Crc
  import opened Wrappers

  const MB_SER_PDU_SIZE_MIN: nat := 4
  const MB_SER_PDU_SIZE_MAX: nat := 256

  datatype RcvState = RxInit | RxIdle | RxRcv | RxError
  datatype SndState = TxIdle | TxXmit
  datatype Event = Ready | FrameReceived | FrameSent | NoEvent

  // The static variables of mbrtu.c. cur is the place in buf at which pucSndBufferCur points; the
  // frame to be sent starts behind the first byte of buf, as the callers of eMBRTUSend have it.
  datatype Port = Port(snd: SndState, rcv: RcvState, buf: seq<bv8>, cur: nat, count: nat, pos: nat)

  predicate Sound(p: Port) {
    && |p.buf| == MB_SER_PDU_SIZE_MAX && p.pos <= MB_SER_PDU_SIZE_MAX
    && p.cur + p.count <= MB_SER_PDU_SIZE_MAX
  }

  // The frame on the line: address, PDU, check with its low byte first.
  function Frame(address: bv8, pdu: seq<bv8>): (r: seq<bv8>)
    ensures |r| == |pdu| + 3
  {
    var s := [address] + pdu;
    s + [LowByte(Check(s)), HighByte(Check(s))]
  }

  // ----- receiving -------------------------------------------------------------------------------

  // xMBRTUReceiveFSM, for one byte.
  function ReceiveByte(p: Port, b: bv8): Port {
    match p.rcv
    case RxInit => p
    case RxError => p
    case RxIdle => if |p.buf| > 0 then p.(buf := p.buf[0 := b], pos := 1, rcv := RxRcv) else p
    case RxRcv =>
      if p.pos < MB_SER_PDU_SIZE_MAX && p.pos < |p.buf| then p.(buf := p.buf[p.pos := b], pos := p.pos + 1)
      else p.(rcv := RxError)
  }

  // xMBRTUTimerT35Expired
  function TimerExpired(p: Port): (Port, Event) {
    (p.(rcv := RxIdle), match p.rcv case RxInit => Ready case RxRcv => FrameReceived case _ => NoEvent)
  }

  function ReceiveBytes(p: Port, s: seq<bv8>): Port
    decreases |s|
  {
    if s == [] then p else ReceiveBytes(ReceiveByte(p, s[0]), s[1..])
  }

  // eMBRTUReceive: the address and the PDU, or the error MB_EIO.
  function Receive(p: Port): Option<(bv8, seq<bv8>)>
    requires Sound(p)
  {
    if p.pos >= MB_SER_PDU_SIZE_MIN && Check(p.buf[..p.pos]) == 0
    then Some((p.buf[0], p.buf[1..p.pos - 2])) else None
  }

  // Bytes that fit are stored one after the other; one too many spoils the frame.
  lemma {:induction false} ReceivesBytes(p: Port, s: seq<bv8>)
    requires Sound(p) && p.rcv.RxRcv?
    ensures var r := ReceiveBytes(p, s);
            && Sound(r) && r.cur == p.cur && r.count == p.count && r.snd == p.snd
            && if p.pos + |s| <= MB_SER_PDU_SIZE_MAX
               then r.rcv.RxRcv? && r.pos == p.pos + |s| && r.buf[..r.pos] == p.buf[..p.pos] + s
               else r.rcv.RxError?
    decreases |s|
  {
    if s != [] {
      var q := ReceiveByte(p, s[0]);
      if p.pos < MB_SER_PDU_SIZE_MAX {
        ReceivesBytes(q, s[1..]);
        assert q.buf[..q.pos] == p.buf[..p.pos] + [s[0]];
        assert [s[0]] + s[1..] == s;
      } else {
        StaysInError(q, s[1..]);
      }
    } else {
      assert p.buf[..p.pos] + s == p.buf[..p.pos];
    }
  }

  lemma {:induction false} StaysInError(p: Port, s: seq<bv8>)
    requires p.rcv.RxError?
    ensures ReceiveBytes(p, s) == p
    decreases |s|
  {
    if s != [] {
      StaysInError(p, s[1..]);
    }
  }

  // From whatever the receiver was doing: after a pause the bytes of the next burst, and only they,
  // are in the buffer, and a frame is announced exactly if there are some and they fit.
  lemma BurstReceived(p: Port, s: seq<bv8>)
    requires Sound(p) && s != []
    ensures var q := ReceiveBytes(TimerExpired(p).0, s);
            && Sound(q)
            && (TimerExpired(q).1 == FrameReceived <==> |s| <= MB_SER_PDU_SIZE_MAX)
            && (|s| <= MB_SER_PDU_SIZE_MAX ==> q.pos == |s| && q.buf[..q.pos] == s)
            && (|s| > MB_SER_PDU_SIZE_MAX ==> TimerExpired(q).1 == NoEvent)
  {
    var idle := TimerExpired(p).0;
    var first := ReceiveByte(idle, s[0]);
    assert first.rcv.RxRcv? && first.pos == 1 && Sound(first) && ReceiveBytes(idle, s) == ReceiveBytes(first, s[1..]);
    assert first.buf[..1] == [s[0]];
    assert [s[0]] + s[1..] == s;
    hide ReceiveByte, ReceiveBytes;
    ReceivesBytes(first, s[1..]);
  }

  // ----- sending ---------------------------------------------------------------------------------

  // eMBRTUSend for a PDU of length bytes in buf, with the byte it puts on the line, or MB_EIO.
  function Send(p: Port, address: bv8, length: nat): (Port, Option<bv8>)
    requires Sound(p) && length + 3 <= MB_SER_PDU_SIZE_MAX
  {
    if p.rcv.RxIdle? then
      var b := p.buf[0 := address];
      var crc := Check(b[..length + 1]);
      (p.(buf := b[length + 1 := LowByte(crc)][length + 2 := HighByte(crc)],
          snd := TxXmit, cur := 1, count := length + 2),
       Some(address))
    else (p, None)
  }

  // xMBRTUTransmitFSM, called when the line can take another byte.
  function TransmitByte(p: Port): (Port, Option<bv8>, Event) {
    match p.snd
    case TxIdle => (p, None, NoEvent)
    case TxXmit =>
      if p.count != 0 && p.cur < |p.buf| then (p.(cur := p.cur + 1, count := p.count - 1), Some(p.buf[p.cur]), NoEvent)
      else (p.(snd := TxIdle), None, FrameSent)
  }

  // All that goes out until the transmitter is idle again.
  function Transmitted(p: Port): seq<bv8>
    decreases p.count
  {
    if p.snd.TxXmit? && p.count != 0 && p.cur < |p.buf| then [p.buf[p.cur]] + Transmitted(TransmitByte(p).0) else []
  }

  lemma {:induction false} TransmitsBuffer(p: Port)
    requires Sound(p) && p.snd.TxXmit?
    ensures Transmitted(p) == p.buf[p.cur..p.cur + p.count]
    decreases p.count
  {
    if p.count > 0 {
      TransmitsBuffer(TransmitByte(p).0);
    }
  }

  // The buffer with the address before the PDU and the two bytes of the check behind it.
  lemma FrameInBuffer(buf: seq<bv8>, address: bv8, pdu: seq<bv8>, a: bv8, b: bv8)
    requires |pdu| + 3 <= |buf| && buf[1..|pdu| + 1] == pdu
    ensures buf[0 := address][..|pdu| + 1] == [address] + pdu
    ensures buf[0 := address][|pdu| + 1 := a][|pdu| + 2 := b][1..|pdu| + 3] == pdu + [a, b]
  {
    assert forall i :: 1 <= i < |pdu| + 1 ==> buf[i] == pdu[i - 1];
  }

  // The line carries address, PDU and check.
  lemma SendsFrame(p: Port, address: bv8, pdu: seq<bv8>)
    requires Sound(p) && p.rcv.RxIdle? && |pdu| + 3 <= MB_SER_PDU_SIZE_MAX && p.buf[1..|pdu| + 1] == pdu
    ensures var (q, first) := Send(p, address, |pdu|);
            first == Some(address) && Sound(q) && [address] + Transmitted(q) == Frame(address, pdu)
  {
    hide Check, LowByte, HighByte;
    var crc := Check([address] + pdu);
    FrameInBuffer(p.buf, address, pdu, LowByte(crc), HighByte(crc));
    TransmitsBuffer(Send(p, address, |pdu|).0);
  }

  // ----- both ------------------------------------------------------------------------------------

  // Exactly the frames with a correct check are accepted, and taken apart as they were put together.
  lemma ReceiveIff(p: Port, address: bv8, pdu: seq<bv8>)
    requires Sound(p) && pdu != []
    ensures Receive(p) == Some((address, pdu)) <==> p.buf[..p.pos] == Frame(address, pdu)
  {
    var s := p.buf[..p.pos];
    if p.pos >= MB_SER_PDU_SIZE_MIN {
      var t, a, b := s[..p.pos - 2], s[p.pos - 2], s[p.pos - 1];
      assert s == t + [a, b] && t == [p.buf[0]] + p.buf[1..p.pos - 2];
      ResidualIff(t, a, b);
      hide Check, LowByte, HighByte;
      if s == Frame(address, pdu) {
        FrameParts(address, pdu, t, a, b);
      }
    }
  }

  lemma FrameParts(address: bv8, pdu: seq<bv8>, t: seq<bv8>, a: bv8, b: bv8)
    requires t + [a, b] == Frame(address, pdu)
    ensures t == [address] + pdu && a == LowByte(Check(t)) && b == HighByte(Check(t))
    ensures t[0] == address && t[1..] == pdu
  {
    hide Check, LowByte, HighByte;
    var f := Frame(address, pdu);
    assert f[..|f| - 2] == [address] + pdu && (t + [a, b])[..|f| - 2] == t;
    assert f[|f| - 2] == a && f[|f| - 1] == b;
  }

  // From any state of the receiver: a pause, the bytes that a sender puts on the line for a PDU of 1
  // to 253 bytes, and another pause, and the same address and PDU are received.
  lemma RoundTrip(sender: Port, receiver: Port, address: bv8, pdu: seq<bv8>)
    requires Sound(sender) && Sound(receiver) && sender.rcv.RxIdle? && 1 <= |pdu| <= 253
    requires sender.buf[1..|pdu| + 1] == pdu
    ensures var (q, first) := Send(sender, address, |pdu|);
            && first.Some?
            && var r := ReceiveBytes(TimerExpired(receiver).0, [first.value] + Transmitted(q));
               Sound(r) && TimerExpired(r).1 == FrameReceived && Receive(TimerExpired(r).0) == Some((address, pdu))
  {
    SendsFrame(sender, address, pdu);
    BurstReceived(receiver, Frame(address, pdu));
    var r := ReceiveBytes(TimerExpired(receiver).0, Frame(address, pdu));
    ReceiveIff(TimerExpired(r).0, address, pdu);
  }
}
