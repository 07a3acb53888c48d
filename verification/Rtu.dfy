/** The RTU port of mbrtu.c: its static variables and the functions that change them. */
module Rtu {
  import opened Crc
  import opened RtuModel
  import opened Wrappers

  class RtuPort {
    var eSndState: SndState
    var eRcvState: RcvState
    const ucRTUBuf: array<bv8>
    var pucSndBufferCur: nat
    var usSndBufferCount: nat
    var usRcvBufferPos: nat

    ghost predicate Valid()
      reads this, ucRTUBuf
    {
      Sound(State())
    }

    ghost function State(): Port
      reads this, ucRTUBuf
    {
      Port(eSndState, eRcvState, ucRTUBuf[..], pucSndBufferCur, usSndBufferCount, usRcvBufferPos)
    }

    // eMBRTUStart
    constructor ()
      ensures Valid() && fresh(ucRTUBuf) && eRcvState.RxInit? && eSndState.TxIdle?
    {
      eSndState, eRcvState, ucRTUBuf := TxIdle, RxInit, new bv8[MB_SER_PDU_SIZE_MAX];
      pucSndBufferCur, usSndBufferCount, usRcvBufferPos := 0, 0, 0;
    }

    method xMBRTUReceiveFSM(ucByte: bv8)
      requires Valid()
      modifies `eRcvState, `usRcvBufferPos, ucRTUBuf
      ensures Valid() && State() == ReceiveByte(old(State()), ucByte)
    {
      match eRcvState
      case RxInit =>
      case RxError =>
      case RxIdle =>
        usRcvBufferPos := 0;
        ucRTUBuf[usRcvBufferPos] := ucByte;
        usRcvBufferPos := usRcvBufferPos + 1;
        eRcvState := RxRcv;
      case RxRcv =>
        if usRcvBufferPos < MB_SER_PDU_SIZE_MAX {
          ucRTUBuf[usRcvBufferPos] := ucByte;
          usRcvBufferPos := usRcvBufferPos + 1;
        } else {
          eRcvState := RxError;
        }
    }

    method xMBRTUTimerT35Expired() returns (event: Event)
      modifies `eRcvState
      ensures (State(), event) == TimerExpired(old(State()))
    {
      event := NoEvent;
      match eRcvState {
        case RxInit => event := Ready;
        case RxRcv => event := FrameReceived;
        case _ =>
      }
      eRcvState := RxIdle;
    }

    method eMBRTUReceive() returns (frame: Option<(bv8, seq<bv8>)>)
      requires Valid()
      ensures frame == Receive(State())
    {
      hide Check;
      frame := None;
      if usRcvBufferPos >= MB_SER_PDU_SIZE_MIN {
        var crc := usMBCRC16(ucRTUBuf[..usRcvBufferPos]);
        if crc == 0 {
          frame := Some((ucRTUBuf[0], ucRTUBuf[1..usRcvBufferPos - 2]));
          assert ucRTUBuf[..][1..usRcvBufferPos - 2] == ucRTUBuf[1..usRcvBufferPos - 2];
        }
      }
      assert ucRTUBuf[..][..usRcvBufferPos] == ucRTUBuf[..usRcvBufferPos];
    }

    // The PDU lies in the buffer behind the place for the address.
    method eMBRTUSend(ucSlaveAddress: bv8, usLength: nat) returns (byte: Option<bv8>)
      requires Valid() && usLength + 3 <= MB_SER_PDU_SIZE_MAX
      modifies this, ucRTUBuf
      ensures Valid() && (State(), byte) == Send(old(State()), ucSlaveAddress, usLength)
    {
      hide Check, LowByte, HighByte;
      byte := None;
      if eRcvState.RxIdle? {
        pucSndBufferCur := 0;
        usSndBufferCount := 1;
        ucRTUBuf[pucSndBufferCur] := ucSlaveAddress;
        usSndBufferCount := usSndBufferCount + usLength;
        var usCRC16 := usMBCRC16(ucRTUBuf[..usSndBufferCount]);
        assert ucRTUBuf[..][..usSndBufferCount] == ucRTUBuf[..usSndBufferCount];
        ucRTUBuf[usSndBufferCount] := LowByte(usCRC16);
        usSndBufferCount := usSndBufferCount + 1;
        ucRTUBuf[usSndBufferCount] := HighByte(usCRC16);
        usSndBufferCount := usSndBufferCount + 1;
        eSndState := TxXmit;
        byte := Some(ucRTUBuf[pucSndBufferCur]);
        pucSndBufferCur := pucSndBufferCur + 1;
        usSndBufferCount := usSndBufferCount - 1;
      }
    }

    method xMBRTUTransmitFSM() returns (byte: Option<bv8>, event: Event)
      requires Valid()
      modifies `eSndState, `pucSndBufferCur, `usSndBufferCount
      ensures Valid() && (State(), byte, event) == TransmitByte(old(State()))
    {
      byte, event := None, NoEvent;
      match eSndState
      case TxIdle =>
      case TxXmit =>
        if usSndBufferCount != 0 {
          byte := Some(ucRTUBuf[pucSndBufferCur]);
          pucSndBufferCur := pucSndBufferCur + 1;
          usSndBufferCount := usSndBufferCount - 1;
        } else {
          event := FrameSent;
          eSndState := TxIdle;
        }
    }
  }
}
