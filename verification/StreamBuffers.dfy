/** The stream buffer of stream_buffer.c: its copies in two pieces do what the steps of StreamModel do. */
module StreamBuffers {
  import opened StreamModel
  import opened StreamSends

  class StreamBuffer_t {
    var xTail: nat
    var xHead: nat
    const xLength: nat
    const pucBuffer: array<byte>
    const isMessageBuffer: bool

    ghost predicate Valid()
      reads this, pucBuffer
    {
      xLength == pucBuffer.Length && xTail < xLength && xHead < xLength
    }

    constructor (length: nat, message: bool)
      requires length > 0
      ensures Valid() && fresh(pucBuffer) && xHead == xTail == 0 && xLength == length && isMessageBuffer == message
    {
      xLength := length;
      pucBuffer := new byte[length];
      xTail, xHead, isMessageBuffer := 0, 0, message;
    }

    method xStreamBufferSpacesAvailable() returns (xSpace: int)
      requires Valid()
      ensures xSpace == Spaces(xLength, xTail, xHead)
    {
      xSpace := 0;
      var again := true;
      while again
        invariant !again ==> xSpace == xLength + xTail - xHead
        decreases again
      {
        var xOriginalTail := xTail;
        xSpace := xLength + xTail;
        xSpace := xSpace - xHead;
        // Nothing runs in between here; StreamModel has the two reads as separate steps.
        again := xOriginalTail != xTail;
      }
      xSpace := xSpace - 1;
      if xSpace >= xLength {
        xSpace := xSpace - xLength;
      }
    }

    method prvBytesInBuffer() returns (xCount: int)
      requires Valid()
      ensures xCount == Bytes(xLength, xTail, xHead)
    {
      xCount := xLength + xHead;
      xCount := xCount - xTail;
      if xCount >= xLength {
        xCount := xCount - xLength;
      }
    }

    method prvWriteBytesToBuffer(data: seq<byte>, head: nat) returns (xNextHead: nat)
      requires Valid() && head < xLength && |data| <= xLength
      modifies pucBuffer
      ensures pucBuffer[..] == Filled(old(pucBuffer[..]), head, data, |data|)
      ensures xNextHead == Around(head + |data|, xLength) && xNextHead < xLength
    {
      ghost var before := pucBuffer[..];
      var xFirstLength := if xLength - head < |data| then xLength - head else |data|;
      for i := 0 to xFirstLength
        invariant pucBuffer[..] == Filled(before, head, data, i)
      {
        pucBuffer[head + i] := data[i];
      }
      if |data| > xFirstLength {
        for i := xFirstLength to |data|
          invariant pucBuffer[..] == Filled(before, head, data, i)
        {
          pucBuffer[i - xFirstLength] := data[i];
        }
      }
      xNextHead := head + |data|;
      if xNextHead >= xLength {
        xNextHead := xNextHead - xLength;
      }
    }

    method prvReadBytesFromBuffer(xCount: nat, tail: nat) returns (data: seq<byte>, xNextTail: nat)
      requires Valid() && tail < xLength && xCount <= xLength
      ensures data == Taken(pucBuffer[..], tail, xCount)
      ensures xNextTail == Around(tail + xCount, xLength) && xNextTail < xLength
    {
      var xFirstLength := if xLength - tail < xCount then xLength - tail else xCount;
      data := [];
      for i := 0 to xFirstLength
        invariant data == Taken(pucBuffer[..], tail, i)
      {
        data := data + [pucBuffer[tail + i]];
      }
      if xCount > xFirstLength {
        for i := xFirstLength to xCount
          invariant data == Taken(pucBuffer[..], tail, i)
        {
          data := data + [pucBuffer[i - xFirstLength]];
        }
      }
      xNextTail := tail + xCount;
      if xNextTail >= xLength {
        xNextTail := xNextTail - xLength;
      }
    }

    // The whole of the writer's work: of a stream the bytes that fit, a message with its length in front if
    // both fit, and one write of xHead if any data were written.
    method prvWriteMessageToBuffer(data: seq<byte>, xSpace: nat) returns (xReturn: nat)
      requires Valid() && |data| < 0x1_0000_0000 && xSpace < xLength
      modifies `xHead, pucBuffer
      ensures Valid() && xReturn <= |data|
      ensures xReturn == if !isMessageBuffer then Min(|data|, xSpace)
                         else if |data| + sbBYTES_TO_STORE_MESSAGE_LENGTH <= xSpace then |data| else 0
      ensures var written := if !isMessageBuffer then data[..xReturn]
                             else if |data| + sbBYTES_TO_STORE_MESSAGE_LENGTH <= xSpace then Frame(data) else [];
              && |written| <= xLength
              && pucBuffer[..] == Filled(old(pucBuffer[..]), old(xHead), written, |written|)
              && xHead == if xReturn == 0 then old(xHead) else Around(old(xHead) + |written|, xLength)
    {
      hide Filled, LengthBytes;
      ghost var before := pucBuffer[..];
      FilledNone(before, xHead, []);
      var xNextHead := xHead;
      var xRequiredSpace := |data| + sbBYTES_TO_STORE_MESSAGE_LENGTH;
      var toWrite := data;
      assert data[..|data|] == data;
      if isMessageBuffer {
        if xSpace >= xRequiredSpace {
          xNextHead := prvWriteBytesToBuffer(LengthBytes(|data|), xNextHead);
          FilledChain(before, xHead, LengthBytes(|data|), data, |data|);
          FilledChain(before, xHead, LengthBytes(|data|), data, 0);
          FilledNone(pucBuffer[..], xNextHead, data);
        } else {
          toWrite := [];
        }
      } else if xSpace < |data| {
        toWrite := data[..xSpace];
      }
      if toWrite != [] {
        xHead := prvWriteBytesToBuffer(toWrite, xNextHead);
      }
      xReturn := |toWrite|;
    }

    // The whole of the reader's work, for available bytes: the length of a message first, then the
    // bytes, and one write of xTail if there were any.
    method prvReadMessageFromBuffer(room: nat, available: nat) returns (data: seq<byte>)
      requires Valid() && available < xLength && (isMessageBuffer ==> available > sbBYTES_TO_STORE_MESSAGE_LENGTH)
      modifies `xTail
      ensures Valid()
      ensures var offset := if isMessageBuffer then sbBYTES_TO_STORE_MESSAGE_LENGTH else 0;
              var next := if !isMessageBuffer then room
                          else var n := LengthOf(Taken(pucBuffer[..], old(xTail), sbBYTES_TO_STORE_MESSAGE_LENGTH));
                               if n > room then 0 else n;
              var count := if next < available - offset then next else available - offset;
              && data == Taken(pucBuffer[..], Around(old(xTail) + offset, xLength), count)
              && xTail == if count == 0 then old(xTail)
                          else Around(Around(old(xTail) + offset, xLength) + count, xLength)
    {
      hide Taken, LengthOf;
      var xNextTail := xTail;
      var xBytesAvailable := available;
      var xNextMessageLength := room;
      if isMessageBuffer {
        var prefix;
        prefix, xNextTail := prvReadBytesFromBuffer(sbBYTES_TO_STORE_MESSAGE_LENGTH, xNextTail);
        xNextMessageLength := LengthOf(prefix);
        xBytesAvailable := xBytesAvailable - sbBYTES_TO_STORE_MESSAGE_LENGTH;
        if xNextMessageLength > room {
          xNextMessageLength := 0;
        }
      }
      var xCount := if xNextMessageLength < xBytesAvailable then xNextMessageLength else xBytesAvailable;
      data := [];
      if xCount != 0 {
        data, xTail := prvReadBytesFromBuffer(xCount, xNextTail);
      }
    }

    // The ring holds these bytes.
    ghost predicate Stores(pending: seq<byte>)
      reads this, pucBuffer
    {
      Valid() && Holds(pucBuffer[..], xTail, xHead, pending)
    }

    // A call without a block time: what was stored is followed by what was accepted, and no more than
    // what was free then is accepted.
    method xStreamBufferSendFromISR(data: seq<byte>, ghost pending: seq<byte>) returns (xReturn: nat)
      requires Stores(pending) && |data| < 0x1_0000_0000
      modifies `xHead, pucBuffer
      ensures !isMessageBuffer ==> xReturn == Min(|data|, xLength - 1 - |pending|) && Stores(pending + data[..xReturn])
      ensures isMessageBuffer ==>
                if data != [] && |data| + sbBYTES_TO_STORE_MESSAGE_LENGTH <= xLength - 1 - |pending|
                then xReturn == |data| && Stores(pending + Frame(data)) else xReturn == 0 && Stores(pending)
    {
      ghost var before := pucBuffer[..];
      SpacesExact(before, xTail, xHead, pending);
      var xSpace := xStreamBufferSpacesAvailable();
      xReturn := prvWriteMessageToBuffer(data, xSpace);
      ghost var written := if !isMessageBuffer then data[..xReturn]
                           else if |data| + sbBYTES_TO_STORE_MESSAGE_LENGTH <= xSpace then Frame(data) else [];
      hide Filled, Holds, Frame, Spaces, Bytes;
      FilledHolds(before, xTail, old(xHead), pending, written);
      assert pending + [] == pending;
    }

    // The bytes that were stored first, or the first message if the caller has room for it, and what is left.
    method xStreamBufferReceiveFromISR(room: nat, ghost pending: seq<byte>, ghost ms: seq<seq<byte>>)
      returns (data: seq<byte>)
      requires Stores(pending) && (isMessageBuffer ==> MessagesOk(pending, ms))
      modifies `xTail
      ensures !isMessageBuffer ==>
                var n := Min(room, |pending|); data == pending[..n] && Stores(pending[n..])
      ensures isMessageBuffer ==>
                if ms != [] && |ms[0]| <= room
                then data == ms[0] && exists left :: Stores(left) && MessagesOk(left, ms[1..])
                else data == [] && Stores(pending)
    {
      hide Holds, Taken, LengthOf, MessagesOk, Bytes, Spaces, Around;
      SpacesExact(pucBuffer[..], xTail, xHead, pending);
      data := [];
      var xBytesAvailable := prvBytesInBuffer();
      var xBytesToStoreMessageLength := if isMessageBuffer then sbBYTES_TO_STORE_MESSAGE_LENGTH else 0;
      if isMessageBuffer {
        MessageBytes(pending, ms);
      }
      if xBytesAvailable > xBytesToStoreMessageLength {
        if isMessageBuffer {
          MessageRead(pucBuffer[..], xTail, xHead, pending, ms);
        } else {
          StreamRead(pucBuffer[..], xTail, xHead, pending, Min(room, |pending|));
        }
        data := prvReadMessageFromBuffer(room, xBytesAvailable);
      }
    }
  }
}
