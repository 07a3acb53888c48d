/** The ASCII port of mbascii.c: its static variables and the functions that change them. */
module Ascii {
  import opened AsciiModel
  import opened Wrappers

  class AsciiPort {
    var eSndState: SndState
    var eRcvState: RcvState
    const ucASCIIBuf: array<bv8>
    var pucSndBufferCur: nat
    var usSndBufferCount: nat
    var usRcvBufferPos: nat
    // eBytePos: true for BYTE_HIGH_NIBBLE.
    var highNibble: bool
    // Which interrupts of the serial line are enabled: USART_IT_RXNE and USART_IT_TC.
    var rxEnabled: bool
    var txEnabled: bool

    ghost predicate Valid()
      reads this, ucASCIIBuf
    {
      Sound(State()) && Apart(State())
    }

    ghost function State(): Port
      reads this, ucASCIIBuf
    {
      Port(eSndState, eRcvState, ucASCIIBuf[..], pucSndBufferCur, usSndBufferCount, usRcvBufferPos, highNibble,
           rxEnabled, txEnabled)
    }

    constructor ()
      ensures Valid() && fresh(ucASCIIBuf) && State() == Unused(ucASCIIBuf[..])
    {
      eSndState, eRcvState, ucASCIIBuf := TxIdle, RxIdle, new bv8[MB_SER_PDU_SIZE_MAX];
      pucSndBufferCur, usSndBufferCount, usRcvBufferPos, highNibble := 0, 0, 0, true;
      rxEnabled, txEnabled := false, false;
    }

    method vMBPortSerialEnable(xRxEnable: bool, xTxEnable: bool)
      modifies `rxEnabled, `txEnabled
      ensures State() == Enable(old(State()), xRxEnable, xTxEnable)
    {
      rxEnabled := xRxEnable;
      txEnabled := xTxEnable;
    }

    method eMBASCIIStart()
      requires Valid()
      modifies `rxEnabled, `txEnabled, `eRcvState
      ensures Valid() && State() == Start(old(State()))
    {
      vMBPortSerialEnable(true, false);
      eRcvState := RxIdle;
    }

    method eMBASCIIStop()
      requires Valid()
      modifies `rxEnabled, `txEnabled
      ensures Valid() && State() == Stop(old(State()))
    {
      vMBPortSerialEnable(false, false);
    }

    method prvucMBLRC(n: nat) returns (ucLRC: bv8)
      requires n <= ucASCIIBuf.Length
      ensures ucLRC == Lrc(ucASCIIBuf[..n])
    {
      hide Plus, Negate;
      ucLRC := 0;
      for k := 0 to n
        invariant ucLRC == Sum(ucASCIIBuf[..k])
      {
        assert ucASCIIBuf[..k + 1][..k] == ucASCIIBuf[..k];
        ucLRC := Plus(ucLRC, ucASCIIBuf[k]);
      }
      ucLRC := Negate(ucLRC);
    }

    // Called by the interrupt, when it is enabled.
    method xMBASCIIReceiveFSM(ucByte: bv8) returns (event: Event)
      requires Valid()
      modifies `eRcvState, `usRcvBufferPos, `highNibble, ucASCIIBuf
      ensures (State(), event) == ReceiveChar(old(State()), ucByte)
      ensures rxEnabled ==> Valid() && State() == Occurs(old(State()), CharInput(ucByte))
    {
      hide CharToBin, Up, Join;
      event := NoEvent;
      match eRcvState
      case RxRcv =>
        if ucByte == COLON {
          highNibble := true;
          usRcvBufferPos := 0;
        } else if ucByte == MB_ASCII_DEFAULT_CR {
          eRcvState := RxWaitEof;
        } else {
          var ucResult := CharToBin(ucByte);
          if highNibble {
            if usRcvBufferPos < MB_SER_PDU_SIZE_MAX {
              ucASCIIBuf[usRcvBufferPos] := Up(ucResult);
              highNibble := false;
            } else {
              eRcvState := RxIdle;
            }
          } else {
            ucASCIIBuf[usRcvBufferPos] := Join(ucASCIIBuf[usRcvBufferPos], ucResult);
            usRcvBufferPos := usRcvBufferPos + 1;
            highNibble := true;
          }
        }
      case RxWaitEof =>
        if ucByte == MB_ASCII_DEFAULT_LF {
          eRcvState := RxIdle;
          event := FrameReceived;
        } else if ucByte == COLON {
          highNibble := true;
          usRcvBufferPos := 0;
          eRcvState := RxRcv;
        } else {
          eRcvState := RxIdle;
        }
      case RxIdle =>
        if ucByte == COLON {
          usRcvBufferPos := 0;
          highNibble := true;
          eRcvState := RxRcv;
        }
    }

    method eMBASCIIReceive() returns (frame: Option<(bv8, seq<bv8>)>)
      requires Valid()
      ensures frame == Receive(State())
    {
      hide Lrc;
      frame := None;
      assert ucASCIIBuf[..][..usRcvBufferPos] == ucASCIIBuf[..usRcvBufferPos];
      if usRcvBufferPos >= MB_SER_PDU_SIZE_MIN {
        var lrc := prvucMBLRC(usRcvBufferPos);
        if lrc == 0 {
          frame := Some((ucASCIIBuf[0], ucASCIIBuf[1..usRcvBufferPos - 1]));
          assert ucASCIIBuf[..][1..usRcvBufferPos - 1] == ucASCIIBuf[1..usRcvBufferPos - 1];
        }
      }
    }

    method eMBASCIISend(ucSlaveAddress: bv8, usLength: nat) returns (ok: bool)
      requires Valid() && usLength + 2 <= MB_SER_PDU_SIZE_MAX
      modifies this, ucASCIIBuf
      ensures (State(), ok) == Send(old(State()), ucSlaveAddress, usLength)
      ensures Valid()
    {
      hide Lrc;
      ok := false;
      if eRcvState.RxIdle? {
        pucSndBufferCur := 0;
        usSndBufferCount := 1;
        ucASCIIBuf[pucSndBufferCur] := ucSlaveAddress;
        usSndBufferCount := usSndBufferCount + usLength;
        var usLRC := prvucMBLRC(usSndBufferCount);
        assert ucASCIIBuf[..][..usSndBufferCount] == ucASCIIBuf[..usSndBufferCount];
        ucASCIIBuf[usSndBufferCount] := usLRC;
        usSndBufferCount := usSndBufferCount + 1;
        eSndState := TxStart;
        vMBPortSerialEnable(false, true);
        ok := true;
      }
    }

    // Called by the interrupt, when it is enabled.
    method xMBASCIITransmitFSM() returns (put: Option<bv8>, event: Event)
      requires Valid()
      modifies `eSndState, `pucSndBufferCur, `usSndBufferCount, `highNibble, `rxEnabled, `txEnabled
      ensures (State(), put, event) == TransmitChar(old(State()))
      ensures old(txEnabled) ==> Valid() && State() == Occurs(old(State()), TransmitInput)
    {
      hide BinToChar, HighNibble, LowNibble;
      put, event := None, NoEvent;
      match eSndState
      case TxStart =>
        put := Some(COLON);
        eSndState := TxData;
        highNibble := true;
      case TxData =>
        if usSndBufferCount > 0 {
          if highNibble {
            put := Some(BinToChar(HighNibble(ucASCIIBuf[pucSndBufferCur])));
            highNibble := false;
          } else {
            put := Some(BinToChar(LowNibble(ucASCIIBuf[pucSndBufferCur])));
            pucSndBufferCur := pucSndBufferCur + 1;
            highNibble := true;
            usSndBufferCount := usSndBufferCount - 1;
          }
        } else {
          put := Some(MB_ASCII_DEFAULT_CR);
          eSndState := TxEnd;
        }
      case TxEnd =>
        put := Some(MB_ASCII_DEFAULT_LF);
        eSndState := TxNotify;
      case TxNotify =>
        eSndState := TxIdle;
        event := FrameSent;
        vMBPortSerialEnable(true, false);
        eSndState := TxIdle;
      case TxIdle =>
        vMBPortSerialEnable(true, false);
    }

    method xMBASCIITimerT1SExpired()
      requires Valid()
      modifies `eRcvState
      ensures Valid() && State() == TimerExpired(old(State()))
    {
      eRcvState := RxIdle;
    }
  }
}
