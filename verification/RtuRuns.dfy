/** Modbus RTU over whole runs: what a pause announces after any input, and how a send ends. */
module RtuRuns {
  import opened RtuModel
  import opened Wrappers

  // ----- what comes in -----------------------------------------------------------------------------

  datatype Input = Byte(b: bv8) | Pause

  // What an ideal listener knows: nothing before the first pause, then the bytes since the last one.
  datatype Heard = Nothing | Burst(s: seq<bv8>)

  function Hear(h: Heard, i: Input): Heard {
    match i
    case Pause => Burst([])
    case Byte(b) => if h.Burst? then Burst(h.s + [b]) else h
  }

  function HearAll(h: Heard, inputs: seq<Input>): Heard
    decreases |inputs|
  {
    if inputs == [] then h else HearAll(Hear(h, inputs[0]), inputs[1..])
  }

  function Receives(p: Port, i: Input): Port {
    match i
    case Byte(b) => ReceiveByte(p, b)
    case Pause => TimerExpired(p).0
  }

  function ReceivesAll(p: Port, inputs: seq<Input>): Port
    decreases |inputs|
  {
    if inputs == [] then p else ReceivesAll(Receives(p, inputs[0]), inputs[1..])
  }

  // The states of the port stand for what the listener knows, and the buffer holds the burst.
  ghost predicate Knows(p: Port, h: Heard) {
    && Sound(p)
    && match h
       case Nothing => p.rcv.RxInit?
       case Burst(s) =>
         if s == [] then p.rcv.RxIdle?
         else if |s| <= MB_SER_PDU_SIZE_MAX then p.rcv.RxRcv? && p.pos == |s| && p.buf[..p.pos] == s
         else p.rcv.RxError?
  }

  lemma KnowsNext(p: Port, h: Heard, i: Input)
    requires Knows(p, h)
    ensures Knows(Receives(p, i), Hear(h, i))
  {
    var q := Receives(p, i);
    if i.Byte? && h.Burst? && q.rcv.RxRcv? {
      assert q.buf[..q.pos] == p.buf[..q.pos - 1] + [i.b];
      assert h.s == [] ==> p.buf[..0] == [];
    }
  }

  lemma {:induction false} KnowsAll(p: Port, h: Heard, inputs: seq<Input>)
    requires Knows(p, h)
    ensures Knows(ReceivesAll(p, inputs), HearAll(h, inputs))
    decreases |inputs|
  {
    hide Knows, Receives, Hear;
    if inputs != [] {
      KnowsNext(p, h, inputs[0]);
      KnowsAll(Receives(p, inputs[0]), Hear(h, inputs[0]), inputs[1..]);
    }
  }

  // After any bytes and pauses since eMBRTUStart: the first pause announces that the port is ready, whatever
  // came before it; a later one announces a frame exactly if 1 to 256 bytes have come since the one before,
  // which then are the buffer; and no pause announces anything else.
  lemma PauseAnnounces(p: Port, inputs: seq<Input>)
    requires Sound(p) && p.rcv.RxInit?
    ensures var q, h := ReceivesAll(p, inputs), HearAll(Nothing, inputs);
            && Sound(q)
            && (TimerExpired(q).1 == Ready <==> Pause !in inputs)
            && (TimerExpired(q).1 == FrameReceived <==> h.Burst? && 1 <= |h.s| <= MB_SER_PDU_SIZE_MAX)
            && (TimerExpired(q).1 == FrameReceived ==> q.buf[..q.pos] == h.s)
            && TimerExpired(q).1 != FrameSent && TimerExpired(q).0 == q.(rcv := RxIdle)
  {
    KnowsAll(p, Nothing, inputs);
    HeardSince(Nothing, inputs);
  }

  lemma {:induction false} HeardSince(h: Heard, inputs: seq<Input>)
    ensures HearAll(h, inputs).Nothing? <==> h.Nothing? && Pause !in inputs
    decreases |inputs|
  {
    if inputs != [] {
      HeardSince(Hear(h, inputs[0]), inputs[1..]);
    }
  }

  // ----- what goes out -----------------------------------------------------------------------------

  // A send is refused, and changes nothing, exactly while something is coming in or has spoilt the line.
  lemma RefusedIff(p: Port, address: bv8, length: nat)
    requires Sound(p) && length + 3 <= MB_SER_PDU_SIZE_MAX
    ensures Send(p, address, length).1.None? <==> !p.rcv.RxIdle?
    ensures Send(p, address, length).1.None? ==> Send(p, address, length).0 == p
  {
  }

  // The port after k calls of the transmitter.
  function Called(p: Port, k: nat): Port
    decreases k
  {
    if k == 0 then p else TransmitByte(Called(p, k - 1)).0
  }

  lemma {:induction false} CalledAt(p: Port, k: nat)
    requires Sound(p) && p.snd.TxXmit?
    ensures Called(p, k) == if k <= p.count then p.(cur := p.cur + k, count := p.count - k)
                            else p.(cur := p.cur + p.count, count := 0, snd := TxIdle)
    decreases k
  {
    if k > 0 {
      CalledAt(p, k - 1);
    }
  }

  // After the first byte, each call puts out the next byte of the frame and announces nothing; the one after
  // the last byte announces that the frame has been sent, and later ones do nothing.
  lemma SendEnds(p: Port, address: bv8, pdu: seq<bv8>, k: nat)
    requires Sound(p) && p.rcv.RxIdle? && |pdu| + 3 <= MB_SER_PDU_SIZE_MAX && p.buf[1..|pdu| + 1] == pdu
    ensures var q := Called(Send(p, address, |pdu|).0, k);
            var (r, byte, event) := TransmitByte(q);
            && (k < |pdu| + 2 ==> byte == Some(Frame(address, pdu)[k + 1]) && event == NoEvent && r.snd.TxXmit?)
            && (k == |pdu| + 2 ==> byte == None && event == FrameSent && r.snd.TxIdle?)
            && (k > |pdu| + 2 ==> byte == None && event == NoEvent && r == q)
  {
    hide Frame, Send, Called, Sound;
    SendStarts(p, address, pdu);
    CalledAt(Send(p, address, |pdu|).0, k);
  }

  lemma SendStarts(p: Port, address: bv8, pdu: seq<bv8>)
    requires Sound(p) && p.rcv.RxIdle? && |pdu| + 3 <= MB_SER_PDU_SIZE_MAX && p.buf[1..|pdu| + 1] == pdu
    ensures var q := Send(p, address, |pdu|).0;
            && Sound(q) && q.snd.TxXmit? && q.cur == 1 && q.count == |pdu| + 2 && |q.buf| >= |pdu| + 3
            && forall i :: 1 <= i < |pdu| + 3 ==> q.buf[i] == Frame(address, pdu)[i]
  {
    SendsFrame(p, address, pdu);
    var q := Send(p, address, |pdu|).0;
    TransmitsBuffer(q);
    hide Frame, Transmitted, Send;
    var f := Frame(address, pdu);
    assert f[1..] == q.buf[1..|pdu| + 3];
    forall i | 1 <= i < |pdu| + 3 ensures q.buf[i] == f[i] {
      assert f[1..][i - 1] == q.buf[1..|pdu| + 3][i - 1];
    }
  }
}
