/** Modbus ASCII over whole runs: which characters announce a frame, and that a send ends once. */
module AsciiRuns {
  import opened AsciiModel
  import opened Wrappers

  // ----- what comes in -----------------------------------------------------------------------------

  // The characters since the last colon, if no carriage return is among them and they are not too many for
  // the buffer, two for a byte.
  function Body(h: seq<bv8>): Option<seq<bv8>> {
    if h == [] then None
    else
      var c := h[|h| - 1];
      if c == COLON then Some([])
      else if c == MB_ASCII_DEFAULT_CR then None
      else
        var b := Body(h[..|h| - 1]);
        if b.Some? && |b.value| < 2 * MB_SER_PDU_SIZE_MAX then Some(b.value + [c]) else None
  }

  // The bytes that they give.
  function Unhex(b: seq<bv8>): (r: seq<bv8>)
    ensures |r| == |b| / 2
  {
    if |b| < 2 then [] else [Join(Up(CharToBin(b[0])), CharToBin(b[1]))] + Unhex(b[2..])
  }

  lemma {:induction false} UnhexMore(b: seq<bv8>, c: bv8, d: bv8)
    requires |b| % 2 == 0
    ensures Unhex(b + [c, d]) == Unhex(b) + [Join(Up(CharToBin(c)), CharToBin(d))]
  {
    hide Join, Up, CharToBin;
    if b == [] {
      assert b + [c, d] == [c, d];
    } else {
      assert (b + [c, d])[2..] == b[2..] + [c, d];
      UnhexMore(b[2..], c, d);
    }
  }

  // The body of a frame has been received as far as b.
  ghost predicate Inside(p: Port, b: seq<bv8>) {
    && p.pos == |b| / 2 && (p.high <==> |b| % 2 == 0)
    && |p.buf| == MB_SER_PDU_SIZE_MAX && p.pos <= MB_SER_PDU_SIZE_MAX && |b| <= 2 * MB_SER_PDU_SIZE_MAX
    && p.buf[..p.pos] == Unhex(b[..2 * (|b| / 2)])
    && (!p.high ==> p.buf[p.pos] == Up(CharToBin(b[|b| - 1])))
  }

  // The states of the port stand for what has come in.
  ghost predicate Knows(p: Port, h: seq<bv8>) {
    && Sound(p)
    && (p.rcv.RxRcv? <==> Body(h).Some?)
    && (p.rcv.RxWaitEof? <==> h != [] && h[|h| - 1] == MB_ASCII_DEFAULT_CR && Body(h[..|h| - 1]).Some?)
    && (p.rcv.RxRcv? ==> Inside(p, Body(h).value))
    && (p.rcv.RxWaitEof? ==> Inside(p, Body(h[..|h| - 1]).value))
  }

  lemma InsideMore(p: Port, b: seq<bv8>, c: bv8)
    requires Sound(p) && p.rcv.RxRcv? && Inside(p, b) && c != COLON && c != MB_ASCII_DEFAULT_CR
    ensures var q := ReceiveChar(p, c).0;
            if |b| < 2 * MB_SER_PDU_SIZE_MAX then q.rcv.RxRcv? && Inside(q, b + [c]) else q.rcv.RxIdle?
  {
    hide Join, Up, CharToBin, Unhex;
    var q := ReceiveChar(p, c).0;
    if |b| < 2 * MB_SER_PDU_SIZE_MAX {
      if |b| % 2 == 0 {
        assert (b + [c])[..|b|] == b == b[..2 * (|b| / 2)];
        assert q.buf[..q.pos] == p.buf[..p.pos];
      } else {
        var e := b[..|b| - 1];
        assert e == b[..2 * (|b| / 2)] && b + [c] == e + [b[|b| - 1], c];
        assert (b + [c])[..2 * ((|b| + 1) / 2)] == b + [c];
        UnhexMore(e, b[|b| - 1], c);
        assert q.buf[..q.pos] == p.buf[..p.pos] + [q.buf[p.pos]];
      }
    }
  }

  lemma NothingInside(p: Port)
    requires |p.buf| == MB_SER_PDU_SIZE_MAX && p.pos == 0 && p.high
    ensures Inside(p, [])
  {
  }

  lemma BodyNext(h: seq<bv8>, c: bv8)
    ensures Body(h + [c]) == if c == COLON then Some([]) else if c == MB_ASCII_DEFAULT_CR then None
                             else if Body(h).Some? && |Body(h).value| < 2 * MB_SER_PDU_SIZE_MAX
                                  then Some(Body(h).value + [c]) else None
    ensures (h + [c])[..|h|] == h
    ensures h != [] && h[|h| - 1] == MB_ASCII_DEFAULT_CR ==> Body(h).None?
  {
    assert (h + [c])[..|h|] == h;
  }

  lemma KnowsNext(p: Port, h: seq<bv8>, c: bv8)
    requires Knows(p, h)
    ensures Knows(ReceiveChar(p, c).0, h + [c])
  {
    hide Body, Inside, Join, Up, CharToBin;
    BodyNext(h, c);
    ReceiveSound(p, c);
    var q := ReceiveChar(p, c).0;
    if c == COLON {
      NothingInside(q);
    } else if p.rcv.RxRcv? && c != MB_ASCII_DEFAULT_CR {
      InsideMore(p, Body(h).value, c);
    } else if p.rcv.RxRcv? {
      SameInside(p, q, Body(h).value);
    }
  }

  lemma SameInside(p: Port, q: Port, b: seq<bv8>)
    requires Inside(p, b) && q == p.(rcv := q.rcv)
    ensures Inside(q, b)
  {
  }

  lemma {:induction false} KnowsAll(p: Port, h: seq<bv8>, s: seq<bv8>)
    requires Knows(p, h)
    ensures Knows(ReceiveChars(p, s), h + s)
    decreases |s|
  {
    hide Knows, ReceiveChar;
    if s == [] {
      assert h + s == h;
    } else {
      KnowsNext(p, h, s[0]);
      KnowsAll(ReceiveChar(p, s[0]).0, h + [s[0]], s[1..]);
      assert h + [s[0]] + s[1..] == h + s;
    }
  }

  // From a receiver at rest, as every start and every pause of a second leaves it: of all the characters that
  // may come, the one that announces a frame is a line feed right after a carriage return that ends a colon
  // and no more characters than fit; and the buffer then holds the bytes that these characters give.
  lemma AnnouncedIff(p: Port, h: seq<bv8>, c: bv8)
    requires Sound(p) && p.rcv.RxIdle?
    ensures var q := ReceiveChars(p, h);
            && (ReceiveChar(q, c).1 == FrameReceived
                <==> && c == MB_ASCII_DEFAULT_LF && h != [] && h[|h| - 1] == MB_ASCII_DEFAULT_CR
                     && Body(h[..|h| - 1]).Some?)
            && (ReceiveChar(q, c).1 == FrameReceived ==>
                  var b := Body(h[..|h| - 1]).value;
                  var r := ReceiveChar(q, c).0;
                  && r.pos == |b| / 2 <= |r.buf| && r.buf[..r.pos] == Unhex(b[..2 * (|b| / 2)]) && r.rcv.RxIdle?)
            && ReceiveChar(q, c).1 != FrameSent
  {
    hide Body, Unhex, Join, Up, CharToBin, ReceiveChars, Sound;
    AtRestKnows(p);
    KnowsAll(p, [], h);
    assert [] + h == h;
  }

  lemma AtRestKnows(p: Port)
    requires Sound(p) && p.rcv.RxIdle?
    ensures Knows(p, [])
  {
  }

  // A pause puts the receiver at rest, in whatever state it was: what came before is forgotten.
  lemma PauseForgets(p: Port)
    requires Sound(p)
    ensures TimerExpired(p).rcv.RxIdle? && Sound(TimerExpired(p)) && TimerExpired(p) == p.(rcv := RxIdle)
  {
  }

  // What Body says of the characters: a colon, none of the two that end or restart a frame, and the rest.
  lemma {:induction false} BodyIff(h: seq<bv8>, b: seq<bv8>)
    ensures Body(h) == Some(b)
            <==> && |b| + 1 <= |h| && |b| <= 2 * MB_SER_PDU_SIZE_MAX
                 && h[|h| - |b| - 1..] == [COLON] + b && COLON !in b && MB_ASCII_DEFAULT_CR !in b
  {
    if h != [] {
      var t, c := h[..|h| - 1], h[|h| - 1];
      if b == [] {
        assert h[|h| - 1..] == [c];
      } else {
        var d := b[..|b| - 1];
        BodyIff(t, d);
        assert b == d + [b[|b| - 1]];
        if |b| + 1 <= |h| {
          assert h[|h| - |b| - 1..] == t[|t| - |d| - 1..] + [c];
          assert [COLON] + b == ([COLON] + d) + [b[|b| - 1]];
        }
      }
    }
  }

  // ----- what goes out -----------------------------------------------------------------------------

  // A send is refused, and changes nothing, exactly while a frame is coming in.
  lemma RefusedIff(p: Port, address: bv8, length: nat)
    requires |p.buf| == MB_SER_PDU_SIZE_MAX && length + 2 <= MB_SER_PDU_SIZE_MAX
    ensures Send(p, address, length).1 <==> p.rcv.RxIdle?
    ensures !Send(p, address, length).1 ==> Send(p, address, length).0 == p
  {
  }

  // How often a run announces that a frame has been sent.
  function Announced(p: Port, inputs: seq<Input>): nat
    decreases |inputs|
  {
    if inputs == [] then 0
    else
      (if inputs[0].TransmitInput? && p.tx && TransmitChar(p).2 == FrameSent then 1 else 0)
      + Announced(Occurs(p, inputs[0]), inputs[1..])
  }

  // A send that is under way has one announcement to come.
  function ToCome(p: Port): nat {
    if p.snd.TxIdle? then 0 else 1
  }

  lemma {:induction false} AnnouncesOnce(p: Port, inputs: seq<Input>)
    requires FromLine(inputs)
    ensures Announced(p, inputs) + ToCome(Run(p, inputs)) == ToCome(p)
    decreases |inputs|
  {
    if inputs != [] {
      OccursOnce(p, inputs[0]);
      hide Occurs, ToCome, TransmitChar;
      AnnouncesOnce(Occurs(p, inputs[0]), inputs[1..]);
    }
  }

  lemma OccursOnce(p: Port, i: Input)
    requires i.CharInput? || i.TransmitInput? || i.PauseInput?
    ensures (if i.TransmitInput? && p.tx && TransmitChar(p).2 == FrameSent then 1 else 0) + ToCome(Occurs(p, i))
         == ToCome(p)
  {
    hide BinToChar, HighNibble, LowNibble, CharToBin, Up, Join;
  }

  // Whatever arrives meanwhile: the end of a send is announced once, when the whole frame has gone out, and
  // the receiver is then enabled again and the transmitter is not.
  lemma SentOnce(p: Port, address: bv8, pdu: seq<bv8>, inputs: seq<Input>)
    requires Sound(p) && Apart(p) && p.rcv.RxIdle? && |pdu| + 2 <= MB_SER_PDU_SIZE_MAX && p.buf[1..|pdu| + 1] == pdu
    requires FromLine(inputs)
    ensures var q := Occurs(p, SendInput(address, |pdu|));
            && Announced(q, inputs) <= 1
            && (Announced(q, inputs) == 1 <==> Run(q, inputs).snd.TxIdle?)
            && (Announced(q, inputs) == 1 ==>
                  Put(q, inputs) == Frame(address, pdu) + [MB_ASCII_DEFAULT_LF] && Run(q, inputs).rx)
  {
    var q := Occurs(p, SendInput(address, |pdu|));
    SendUndisturbed(p, address, pdu, inputs);
    assert ToCome(q) == 1 && Listens(q);
    hide Occurs, Run, Announced, Put, Frame, Send;
    AnnouncesOnce(q, inputs);
    RunListens(q, inputs);
  }

  // The receiver is enabled whenever nothing is being sent.
  predicate Listens(p: Port) {
    p.snd.TxIdle? ==> p.rx
  }

  lemma {:induction false} RunListens(p: Port, inputs: seq<Input>)
    requires Listens(p) && FromLine(inputs)
    ensures Listens(Run(p, inputs))
    decreases |inputs|
  {
    if inputs != [] {
      OccursListens(p, inputs[0]);
      hide Occurs, Listens;
      RunListens(Occurs(p, inputs[0]), inputs[1..]);
    }
  }

  lemma OccursListens(p: Port, i: Input)
    requires Listens(p) && (i.CharInput? || i.TransmitInput? || i.PauseInput?)
    ensures Listens(Occurs(p, i))
  {
    hide BinToChar, HighNibble, LowNibble, CharToBin, Up, Join;
  }

  // ----- a port that has been stopped --------------------------------------------------------------

  predicate Deaf(p: Port) {
    !p.rx && !p.tx
  }

  lemma {:induction false} DeafStays(p: Port, inputs: seq<Input>)
    requires Deaf(p) && FromLine(inputs)
    ensures Put(p, inputs) == [] && Deaf(Run(p, inputs))
    ensures Run(p, inputs).buf == p.buf && Run(p, inputs).pos == p.pos && Run(p, inputs).snd == p.snd
    decreases |inputs|
  {
    if inputs != [] {
      assert inputs[0] in inputs;
      DeafStays(Occurs(p, inputs[0]), inputs[1..]);
    }
  }

  // Until the port is started again, or is told to send, nothing goes out and nothing is received.
  lemma StoppedIsSilent(p: Port, inputs: seq<Input>)
    requires FromLine(inputs)
    ensures var q := Occurs(p, StopInput);
            && Put(q, inputs) == [] && Deaf(Run(q, inputs))
            && Run(q, inputs).buf == p.buf && Run(q, inputs).pos == p.pos && Run(q, inputs).snd == p.snd
  {
    DeafStays(Occurs(p, StopInput), inputs);
    hide Run, Put;
  }
}
