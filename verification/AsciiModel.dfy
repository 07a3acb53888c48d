/** Modbus ASCII framing: printing and parsing undo each other. */
module AsciiModel {
  import opened Wrappers

  const MB_SER_PDU_SIZE_MIN: nat := 3
  const MB_SER_PDU_SIZE_MAX: nat := 256
  const COLON: bv8 := 0x3A
  const MB_ASCII_DEFAULT_CR: bv8 := 0x0D
  const MB_ASCII_DEFAULT_LF: bv8 := 0x0A

  // ----- characters ------------------------------------------------------------------------------

  function CharToBin(c: bv8): bv8 {
    if 0x30 <= c <= 0x39 then c - 0x30 else if 0x41 <= c <= 0x46 then c - 0x41 + 0x0A else 0xFF
  }

  function BinToChar(b: bv8): bv8 {
    if b <= 0x09 then 0x30 + b else if b <= 0x0F then b - 0x0A + 0x41 else 0x30
  }

  function HighNibble(b: bv8): bv8 {
    b >> 4
  }

  function LowNibble(b: bv8): bv8 {
    b & 0x0F
  }

  function Up(b: bv8): bv8 {
    b << 4
  }

  function Join(a: bv8, b: bv8): bv8 {
    a | b
  }

  // The two characters of a byte give the byte, and are none of the characters that frame a message.
  lemma HexRoundTrip(b: bv8)
    ensures Join(Up(CharToBin(BinToChar(HighNibble(b)))), CharToBin(BinToChar(LowNibble(b)))) == b
  {
  }

  lemma HexPlain(b: bv8)
    ensures BinToChar(b) != COLON && BinToChar(b) != MB_ASCII_DEFAULT_CR
  {
  }

  // ----- the longitudinal redundancy check -------------------------------------------------------

  function Sum(s: seq<bv8>): bv8 {
    if s == [] then 0 else Plus(Sum(s[..|s| - 1]), s[|s| - 1])
  }

  function Plus(a: bv8, b: bv8): bv8 {
    a + b
  }

  function Negate(a: bv8): bv8 {
    0 - a
  }

  function Lrc(s: seq<bv8>): bv8 {
    Negate(Sum(s))
  }

  lemma NegateCancels(a: bv8, x: bv8)
    ensures Negate(Plus(a, x)) == 0 <==> x == Negate(a)
  {
  }

  // One more byte makes the check zero exactly if it is the check itself.
  lemma LrcResidualIff(s: seq<bv8>, x: bv8)
    ensures Lrc(s + [x]) == 0 <==> x == Lrc(s)
  {
    assert (s + [x])[..|s|] == s;
    NegateCancels(Sum(s), x);
    hide Negate, Plus;
  }

  // ----- the port --------------------------------------------------------------------------------

  datatype RcvState = RxIdle | RxRcv | RxWaitEof
  datatype SndState = TxIdle | TxStart | TxData | TxEnd | TxNotify
  datatype Event = FrameReceived | FrameSent | NoEvent

  // The static variables of mbascii.c, of which high is eBytePos, which both directions use; and which
  // of the two interrupts of the serial line are enabled.
  datatype Port = Port(snd: SndState, rcv: RcvState, buf: seq<bv8>, cur: nat, count: nat, pos: nat, high: bool,
                       rx: bool, tx: bool)

  // vMBPortSerialEnable
  function Enable(p: Port, rx: bool, tx: bool): Port {
    p.(rx := rx, tx := tx)
  }

  predicate Sound(p: Port) {
    && |p.buf| == MB_SER_PDU_SIZE_MAX && p.pos <= MB_SER_PDU_SIZE_MAX
    && (p.rcv.RxRcv? && !p.high ==> p.pos < MB_SER_PDU_SIZE_MAX)
    && p.cur + p.count <= MB_SER_PDU_SIZE_MAX
  }

  // xMBASCIIReceiveFSM, for one character.
  function ReceiveChar(p: Port, c: bv8): (Port, Event) {
    match p.rcv
    case RxIdle => (if c == COLON then p.(pos := 0, high := true, rcv := RxRcv) else p, NoEvent)
    case RxWaitEof =>
      if c == MB_ASCII_DEFAULT_LF then (p.(rcv := RxIdle), FrameReceived)
      else if c == COLON then (p.(pos := 0, high := true, rcv := RxRcv), NoEvent)
      else (p.(rcv := RxIdle), NoEvent)
    case RxRcv =>
      if c == COLON then (p.(pos := 0, high := true), NoEvent)
      else if c == MB_ASCII_DEFAULT_CR then (p.(rcv := RxWaitEof), NoEvent)
      else if p.high then
        if p.pos < MB_SER_PDU_SIZE_MAX && p.pos < |p.buf|
        then (p.(buf := p.buf[p.pos := Up(CharToBin(c))], high := false), NoEvent) else (p.(rcv := RxIdle), NoEvent)
      else
        if p.pos < |p.buf|
        then (p.(buf := p.buf[p.pos := Join(p.buf[p.pos], CharToBin(c))], pos := p.pos + 1, high := true), NoEvent)
        else (p, NoEvent)
  }

  // xMBASCIITimerT1SExpired
  function TimerExpired(p: Port): Port {
    if p.rcv.RxIdle? then p else p.(rcv := RxIdle)
  }

  function ReceiveChars(p: Port, s: seq<bv8>): Port
    decreases |s|
  {
    if s == [] then p else ReceiveChars(ReceiveChar(p, s[0]).0, s[1..])
  }

  // eMBASCIIReceive
  function Receive(p: Port): Option<(bv8, seq<bv8>)>
    requires Sound(p)
  {
    if p.pos >= MB_SER_PDU_SIZE_MIN && Lrc(p.buf[..p.pos]) == 0
    then Some((p.buf[0], p.buf[1..p.pos - 1])) else None
  }

  // No character moves the position beyond the buffer.
  lemma ReceiveSound(p: Port, c: bv8)
    requires Sound(p)
    ensures Sound(ReceiveChar(p, c).0)
  {
  }

  lemma {:induction false} HistorySound(p: Port, s: seq<bv8>)
    requires Sound(p)
    ensures Sound(ReceiveChars(p, s)) && ReceiveChars(p, s).pos <= MB_SER_PDU_SIZE_MAX
    decreases |s|
  {
    if s != [] {
      ReceiveSound(p, s[0]);
      hide ReceiveChar;
      HistorySound(ReceiveChar(p, s[0]).0, s[1..]);
    }
  }

  lemma {:induction false} ReceiveAppend(p: Port, s: seq<bv8>, t: seq<bv8>)
    ensures ReceiveChars(p, s + t) == ReceiveChars(ReceiveChars(p, s), t)
    decreases |s|
  {
    hide ReceiveChar;
    if s == [] {
      assert s + t == t;
    } else {
      assert (s + t)[1..] == s[1..] + t;
      ReceiveAppend(ReceiveChar(p, s[0]).0, s[1..], t);
    }
  }

  // ----- frames ----------------------------------------------------------------------------------

  function Hex(s: seq<bv8>): seq<bv8> {
    if s == [] then [] else [BinToChar(HighNibble(s[0])), BinToChar(LowNibble(s[0]))] + Hex(s[1..])
  }

  // Address, PDU and check.
  function Checked(address: bv8, pdu: seq<bv8>): (r: seq<bv8>)
    ensures |r| == |pdu| + 2
  {
    [address] + pdu + [Lrc([address] + pdu)]
  }

  // The characters of a frame, up to the carriage return.
  function Frame(address: bv8, pdu: seq<bv8>): seq<bv8> {
    [COLON] + Hex(Checked(address, pdu)) + [MB_ASCII_DEFAULT_CR]
  }

  lemma ReceivesByte(p: Port, x: bv8)
    requires Sound(p) && p.rcv.RxRcv? && p.high && p.pos < MB_SER_PDU_SIZE_MAX
    ensures var q := ReceiveChar(ReceiveChar(p, BinToChar(HighNibble(x))).0, BinToChar(LowNibble(x))).0;
            q == p.(buf := p.buf[p.pos := x], pos := p.pos + 1)
  {
    HexRoundTrip(x);
    HexPlain(HighNibble(x));
    HexPlain(LowNibble(x));
    hide HighNibble, LowNibble, BinToChar, CharToBin, Up, Join;
    var q := ReceiveChar(p, BinToChar(HighNibble(x))).0;
    assert q.buf[p.pos := x] == p.buf[p.pos := x];
  }

  lemma {:induction false} ReceivesHex(p: Port, s: seq<bv8>)
    requires Sound(p) && p.rcv.RxRcv? && p.high && p.pos + |s| <= MB_SER_PDU_SIZE_MAX
    ensures var q := ReceiveChars(p, Hex(s));
            && Sound(q) && q.rcv.RxRcv? && q.high && q.pos == p.pos + |s| && q.buf[..q.pos] == p.buf[..p.pos] + s
    decreases |s|
  {
    hide HighNibble, LowNibble, BinToChar, ReceiveChar, ReceiveChars;
    if s == [] {
      ReceivesNone(p);
      assert p.buf[..p.pos] + s == p.buf[..p.pos];
    } else {
      var a, b := BinToChar(HighNibble(s[0])), BinToChar(LowNibble(s[0]));
      ReceivesByte(p, s[0]);
      var q := p.(buf := p.buf[p.pos := s[0]], pos := p.pos + 1);
      TwoChars(p, a, b, Hex(s[1..]));
      ReceivesHex(q, s[1..]);
      Grown(p.buf, p.pos, s);
    }
  }

  lemma Grown(buf: seq<bv8>, pos: nat, s: seq<bv8>)
    requires pos < |buf| && s != []
    ensures buf[pos := s[0]][..pos + 1] + s[1..] == buf[..pos] + s
  {
  }

  lemma ReceivesNone(p: Port)
    ensures ReceiveChars(p, []) == p && Hex([]) == []
  {
  }

  lemma TwoChars(p: Port, a: bv8, b: bv8, s: seq<bv8>)
    ensures ReceiveChars(p, [a, b] + s) == ReceiveChars(ReceiveChar(ReceiveChar(p, a).0, b).0, s)
  {
    hide ReceiveChar;
    assert ([a, b] + s)[1..] == [b] + s && ([b] + s)[1..] == s;
  }

  // Whatever the receiver has seen before, a frame that fits is in the buffer when its carriage
  // return has come, and the line feed announces it.
  lemma FrameArrives(p: Port, address: bv8, pdu: seq<bv8>)
    requires Sound(p) && |pdu| + 2 <= MB_SER_PDU_SIZE_MAX
    ensures var q := ReceiveChars(p, Frame(address, pdu));
            && Sound(q) && q.rcv.RxWaitEof? && q.buf[..q.pos] == Checked(address, pdu)
            && ReceiveChar(q, MB_ASCII_DEFAULT_LF) == (q.(rcv := RxIdle), FrameReceived)
  {
    var s := Checked(address, pdu);
    var p1 := ReceiveChar(p, COLON).0;
    assert p1 == p.(pos := 0, high := true, rcv := RxRcv);
    assert ReceiveChars(p, [COLON]) == p1;
    ReceivesHex(p1, s);
    var p2 := ReceiveChars(p1, Hex(s));
    assert p1.buf[..0] + s == s;
    assert ReceiveChars(p2, [MB_ASCII_DEFAULT_CR]) == p2.(rcv := RxWaitEof);
    hide ReceiveChar, Hex, Checked, Lrc;
    ReceiveAppend(p, [COLON], Hex(s));
    ReceiveAppend(p, [COLON] + Hex(s), [MB_ASCII_DEFAULT_CR]);
  }

  // ----- sending ---------------------------------------------------------------------------------

  // eMBASCIISend for a PDU of length bytes in buf; false for MB_EIO.
  function Send(p: Port, address: bv8, length: nat): (Port, bool)
    requires |p.buf| == MB_SER_PDU_SIZE_MAX && length + 2 <= MB_SER_PDU_SIZE_MAX
  {
    if p.rcv.RxIdle? then
      var b := p.buf[0 := address];
      var q := p.(buf := b[length + 1 := Lrc(b[..length + 1])], snd := TxStart, cur := 0, count := length + 2);
      (Enable(q, false, true), true)
    else (p, false)
  }

  // xMBASCIITransmitFSM, called when the line can take another character.
  function TransmitChar(p: Port): (Port, Option<bv8>, Event) {
    match p.snd
    case TxStart => (p.(snd := TxData, high := true), Some(COLON), NoEvent)
    case TxData =>
      if p.count > 0 && p.cur < |p.buf| then
        if p.high then (p.(high := false), Some(BinToChar(HighNibble(p.buf[p.cur]))), NoEvent)
        else
          (p.(cur := p.cur + 1, high := true, count := p.count - 1),
           Some(BinToChar(LowNibble(p.buf[p.cur]))), NoEvent)
      else (p.(snd := TxEnd), Some(MB_ASCII_DEFAULT_CR), NoEvent)
    case TxEnd => (p.(snd := TxNotify), Some(MB_ASCII_DEFAULT_LF), NoEvent)
    case TxNotify => (Enable(p.(snd := TxIdle), true, false), None, FrameSent)
    case TxIdle => (Enable(p, true, false), None, NoEvent)
  }

  // How many calls are left until the transmitter is idle.
  function CallsLeft(p: Port): nat {
    match p.snd
    case TxStart => 2 * p.count + 4
    case TxData => 2 * p.count + (if p.high || p.count == 0 then 3 else 2)
    case TxEnd => 2
    case TxNotify => 1
    case TxIdle => 0
  }

  // All that goes out until then.
  function Transmitted(p: Port): seq<bv8>
    decreases CallsLeft(p)
  {
    if p.snd.TxIdle? then []
    else
      var (q, c, e) := TransmitChar(p);
      (if c.Some? then [c.value] else []) + Transmitted(q)
  }

  lemma TransmitsEnd(p: Port)
    requires p.snd.TxData? && p.count == 0
    ensures Transmitted(p) == [MB_ASCII_DEFAULT_CR, MB_ASCII_DEFAULT_LF]
  {
    hide HighNibble, LowNibble, BinToChar;
    var q := p.(snd := TxEnd);
    assert Transmitted(q.(snd := TxNotify)) == [];
    assert Transmitted(q) == [MB_ASCII_DEFAULT_LF];
  }

  lemma TransmitsByte(p: Port)
    requires Sound(p) && p.snd.TxData? && p.high && p.count > 0
    ensures var r := p.(cur := p.cur + 1, count := p.count - 1);
            Transmitted(p) == [BinToChar(HighNibble(p.buf[p.cur])), BinToChar(LowNibble(p.buf[p.cur]))] + Transmitted(r)
  {
    hide HighNibble, LowNibble, BinToChar;
    var q := p.(high := false);
    assert TransmitChar(p).0 == q && TransmitChar(q).0 == p.(cur := p.cur + 1, count := p.count - 1);
    assert Transmitted(p) == [BinToChar(HighNibble(p.buf[p.cur]))] + Transmitted(q);
  }

  lemma {:induction false} TransmitsHex(p: Port)
    requires Sound(p) && p.snd.TxData? && p.high
    ensures Transmitted(p) == Hex(p.buf[p.cur..p.cur + p.count]) + [MB_ASCII_DEFAULT_CR, MB_ASCII_DEFAULT_LF]
    decreases p.count
  {
    hide HighNibble, LowNibble, BinToChar, Transmitted;
    var s := p.buf[p.cur..p.cur + p.count];
    if p.count > 0 {
      var r := p.(cur := p.cur + 1, count := p.count - 1);
      TransmitsByte(p);
      TransmitsHex(r);
      assert s[0] == p.buf[p.cur] && s[1..] == p.buf[r.cur..r.cur + r.count];
    } else {
      TransmitsEnd(p);
      assert s == [];
    }
  }

  // The line carries the frame and a line feed.
  lemma SendsFrame(p: Port, address: bv8, pdu: seq<bv8>)
    requires Sound(p) && p.rcv.RxIdle? && |pdu| + 2 <= MB_SER_PDU_SIZE_MAX && p.buf[1..|pdu| + 1] == pdu
    ensures var (q, ok) := Send(p, address, |pdu|);
            ok && Transmitted(q) == Frame(address, pdu) + [MB_ASCII_DEFAULT_LF]
  {
    hide Lrc, Hex, BinToChar;
    var n := |pdu|;
    var q := Send(p, address, n).0;
    var b := p.buf[0 := address];
    assert b[..n + 1] == [address] + pdu;
    assert q.buf[0..n + 2] == Checked(address, pdu);
    var r := TransmitChar(q).0;
    assert Transmitted(q) == [COLON] + Transmitted(r);
    TransmitsHex(r);
  }

  // ----- both ------------------------------------------------------------------------------------

  lemma PartsAre(s: seq<bv8>, x: bv8, address: bv8, pdu: seq<bv8>)
    requires s != []
    ensures s + [x] == Checked(address, pdu) <==> s[0] == address && s[1..] == pdu && x == Lrc(s)
  {
    hide Lrc;
    var body := [address] + pdu;
    if s + [x] == Checked(address, pdu) {
      assert s == (s + [x])[..|s|] == Checked(address, pdu)[..|pdu| + 1] == body;
      assert x == (s + [x])[|s|] && body[1..] == pdu;
    } else if s[0] == address && s[1..] == pdu {
      assert s == body;
    }
  }

  // Exactly what has a correct check is accepted, and taken apart as it was put together.
  lemma ReceiveIff(p: Port, address: bv8, pdu: seq<bv8>)
    requires Sound(p) && pdu != []
    ensures Receive(p) == Some((address, pdu)) <==> p.buf[..p.pos] == Checked(address, pdu)
  {
    hide Lrc, ReceiveChar;
    if p.pos >= MB_SER_PDU_SIZE_MIN {
      var a, t, x := p.buf[0], p.buf[1..p.pos - 1], p.buf[p.pos - 1];
      assert p.buf[..p.pos] == [a] + t + [x];
      LrcResidualIff([a] + t, x);
      PartsAre([a] + t, x, address, pdu);
    }
  }

  // From any state of the receiver and whatever it has seen before: the characters that a sender puts
  // on the line for a PDU of 1 to 253 bytes give the same address and PDU.
  lemma RoundTrip(sender: Port, receiver: Port, history: seq<bv8>, address: bv8, pdu: seq<bv8>)
    requires Sound(sender) && Sound(receiver) && sender.rcv.RxIdle? && 1 <= |pdu| <= 253
    requires sender.buf[1..|pdu| + 1] == pdu
    ensures Transmitted(Send(sender, address, |pdu|).0) == Frame(address, pdu) + [MB_ASCII_DEFAULT_LF]
    ensures var q := ReceiveChars(ReceiveChars(receiver, history), Frame(address, pdu));
            var (r, event) := ReceiveChar(q, MB_ASCII_DEFAULT_LF);
            event == FrameReceived && Sound(r) && Receive(r) == Some((address, pdu))
  {
    hide Lrc, Hex, BinToChar, ReceiveChar;
    SendsFrame(sender, address, pdu);
    HistorySound(receiver, history);
    FrameArrives(ReceiveChars(receiver, history), address, pdu);
    var q := ReceiveChars(ReceiveChars(receiver, history), Frame(address, pdu));
    ReceiveIff(q.(rcv := RxIdle), address, pdu);
  }

  // ----- both directions share one flag ----------------------------------------------------------

  // eMBASCIIStart and eMBASCIIStop
  function Start(p: Port): Port {
    Enable(p, true, false).(rcv := RxIdle)
  }

  function Stop(p: Port): Port {
    Enable(p, false, false)
  }

  // What may happen, in any order.
  datatype Input = StartInput | StopInput | SendInput(address: bv8, length: nat)
                 | CharInput(c: bv8) | TransmitInput | PauseInput

  // A character that arrives and a line that is free interrupt only if that interrupt is enabled.
  function Occurs(p: Port, i: Input): Port {
    match i
    case StartInput => Start(p)
    case StopInput => Stop(p)
    case SendInput(address, length) =>
      if |p.buf| == MB_SER_PDU_SIZE_MAX && length + 2 <= MB_SER_PDU_SIZE_MAX then Send(p, address, length).0 else p
    case CharInput(c) => if p.rx then ReceiveChar(p, c).0 else p
    case TransmitInput => if p.tx then TransmitChar(p).0 else p
    case PauseInput => TimerExpired(p)
  }

  function Run(p: Port, inputs: seq<Input>): Port
    decreases |inputs|
  {
    if inputs == [] then p else Run(Occurs(p, inputs[0]), inputs[1..])
  }

  // At most one direction is enabled, and the transmitter only while no frame is coming in.
  predicate Apart(p: Port) {
    !(p.rx && p.tx) && (p.tx ==> p.rcv.RxIdle?)
  }

  lemma OccursKeeps(p: Port, i: Input)
    requires Sound(p) && Apart(p)
    ensures Sound(Occurs(p, i)) && Apart(Occurs(p, i))
  {
    hide Lrc, BinToChar, HighNibble, LowNibble, CharToBin, Up, Join;
  }

  lemma {:induction false} RunKeeps(p: Port, inputs: seq<Input>)
    requires Sound(p) && Apart(p)
    ensures Sound(Run(p, inputs)) && Apart(Run(p, inputs))
    decreases |inputs|
  {
    hide Sound, Apart, Occurs;
    if inputs != [] {
      OccursKeeps(p, inputs[0]);
      RunKeeps(Occurs(p, inputs[0]), inputs[1..]);
    }
  }

  // The static variables before the port is started.
  function Unused(buf: seq<bv8>): Port {
    Port(TxIdle, RxIdle, buf, 0, 0, 0, true, false, false)
  }

  // Over every run of starts, stops, sends, characters, transmissions and pauses: the position is within
  // the buffer, and so is the place of a second half that is awaited; and what xMBASCIITransmitFSM
  // asserts, that no frame is coming in, is so whenever it can be called.
  lemma NeverBehindBuffer(buf: seq<bv8>, inputs: seq<Input>)
    requires |buf| == MB_SER_PDU_SIZE_MAX
    ensures var p := Run(Unused(buf), inputs);
            && |p.buf| == MB_SER_PDU_SIZE_MAX && p.pos <= MB_SER_PDU_SIZE_MAX
            && (p.rcv.RxRcv? && !p.high ==> p.pos < MB_SER_PDU_SIZE_MAX)
            && p.cur + p.count <= MB_SER_PDU_SIZE_MAX
            && (p.tx ==> p.rcv.RxIdle? && !p.rx)
  {
    RunKeeps(Unused(buf), inputs);
    hide Run;
  }

  // ----- when the receiver finds the sender at rest ----------------------------------------------

  // What xMBASCIIReceiveFSM asserts, whenever it can be called.
  predicate Alone(p: Port) {
    p.rx ==> p.snd.TxIdle?
  }

  // A start after a stop that has cut off a transmission, whose state stays.
  predicate Resumes(p: Port, i: Input) {
    i.StartInput? && !p.snd.TxIdle?
  }

  lemma OccursAloneIff(p: Port, i: Input)
    requires Sound(p) && Apart(p) && Alone(p)
    ensures Alone(Occurs(p, i)) <==> !Resumes(p, i)
  {
    hide Lrc, BinToChar, HighNibble, LowNibble, CharToBin, Up, Join;
  }

  // In every state of the run.
  predicate AlwaysAlone(p: Port, inputs: seq<Input>)
    decreases |inputs|
  {
    Alone(p) && (inputs == [] || AlwaysAlone(Occurs(p, inputs[0]), inputs[1..]))
  }

  predicate NeverResumes(p: Port, inputs: seq<Input>)
    decreases |inputs|
  {
    inputs == [] || (!Resumes(p, inputs[0]) && NeverResumes(Occurs(p, inputs[0]), inputs[1..]))
  }

  // Over every run: exactly if the port is never started again in the middle of a transmission.
  lemma {:induction false} AlwaysAloneIff(p: Port, inputs: seq<Input>)
    requires Sound(p) && Apart(p) && Alone(p)
    ensures AlwaysAlone(p, inputs) <==> NeverResumes(p, inputs)
    decreases |inputs|
  {
    hide Sound, Apart, Alone, Occurs, Resumes;
    if inputs != [] {
      OccursAloneIff(p, inputs[0]);
      OccursKeeps(p, inputs[0]);
      if Resumes(p, inputs[0]) {
        assert !AlwaysAlone(Occurs(p, inputs[0]), inputs[1..]);
      } else {
        AlwaysAloneIff(Occurs(p, inputs[0]), inputs[1..]);
      }
    }
  }

  // ----- a send that is under way ----------------------------------------------------------------

  // What goes out in a run.
  function Put(p: Port, inputs: seq<Input>): seq<bv8>
    decreases |inputs|
  {
    if inputs == [] then []
    else
      var c := if inputs[0].TransmitInput? && p.tx then TransmitChar(p).1 else None;
      (if c.Some? then [c.value] else []) + Put(Occurs(p, inputs[0]), inputs[1..])
  }

  // Nothing but characters, pauses and interrupts of the transmitter.
  predicate FromLine(inputs: seq<Input>) {
    forall i :: i in inputs ==> i.CharInput? || i.TransmitInput? || i.PauseInput?
  }

  // The transmitter is enabled for as long as there is something to send.
  predicate Sends(p: Port) {
    p.tx || p.snd.TxIdle?
  }

  lemma OccursSends(p: Port, i: Input)
    requires Sound(p) && Apart(p) && Sends(p) && (i.CharInput? || i.TransmitInput? || i.PauseInput?)
    ensures var q := Occurs(p, i);
            var c := if i.TransmitInput? && p.tx then TransmitChar(p).1 else None;
            Sends(q) && (if c.Some? then [c.value] else []) + Transmitted(q) == Transmitted(p)
  {
    hide BinToChar, HighNibble, LowNibble, CharToBin, Up, Join;
    if p.tx && !i.TransmitInput? {
      assert Occurs(p, i) == p;
    }
  }

  // Whatever arrives meanwhile: what has gone out and what is left are together what the send puts out.
  lemma {:induction false} SendGoesOn(p: Port, inputs: seq<Input>)
    requires Sound(p) && Apart(p) && Sends(p) && FromLine(inputs)
    ensures Put(p, inputs) + Transmitted(Run(p, inputs)) == Transmitted(p)
    decreases |inputs|
  {
    hide Sound, Apart, Sends, Occurs, Transmitted, TransmitChar;
    if inputs != [] {
      OccursKeeps(p, inputs[0]);
      OccursSends(p, inputs[0]);
      SendGoesOn(Occurs(p, inputs[0]), inputs[1..]);
    }
  }

  // The frame goes out in order, and has gone out once the sender is at rest, whatever characters are on
  // the line and whenever the transmitter is free in between.
  lemma SendUndisturbed(p: Port, address: bv8, pdu: seq<bv8>, inputs: seq<Input>)
    requires Sound(p) && Apart(p) && p.rcv.RxIdle? && |pdu| + 2 <= MB_SER_PDU_SIZE_MAX && p.buf[1..|pdu| + 1] == pdu
    requires FromLine(inputs)
    ensures var q := Occurs(p, SendInput(address, |pdu|));
            var line := Frame(address, pdu) + [MB_ASCII_DEFAULT_LF];
            Put(q, inputs) <= line && (Run(q, inputs).snd.TxIdle? ==> Put(q, inputs) == line)
  {
    SendsFrame(p, address, pdu);
    OccursKeeps(p, SendInput(address, |pdu|));
    var q := Occurs(p, SendInput(address, |pdu|));
    assert Sends(q);
    hide Frame, Lrc, Put, Run, Occurs;
    SendGoesOn(q, inputs);
  }
}
