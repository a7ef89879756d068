/** The circular byte buffer of FreeRTOS/stream_buffer.c, proved to be a sequence of bytes, and
    as a message buffer a sequence of messages. */
module StreamBuffers {
  import opened Common
  import opened StreamBytes

  class StreamBuffer {
    const buffer: array<byte>      // pucBuffer
    var head: nat                  // xHead
    var tail: nat                  // xTail
    const isMessageBuffer: bool    // ucFlags
    ghost var messages: seq<Message>

    ghost predicate Valid()
      reads this
    {
      LENGTH_BYTES + 1 < buffer.Length <= MAX_LENGTH && head < buffer.Length && tail < buffer.Length
    }

    /** The unread bytes. */
    ghost function Contents(): (s: seq<byte>)
      requires Valid()
      reads this, buffer
    {
      Region(buffer[..], tail, Distance(buffer.Length, tail, head))
    }

    /** A message buffer holds whole messages between calls. */
    ghost predicate Framed()
      requires Valid()
      reads this, buffer
    {
      Contents() == Wire(messages)
    }

    /** xStreamBufferGenericCreate: one byte more than asked for. */
    constructor (size: nat, messages: bool)
      requires LENGTH_BYTES < size < MAX_LENGTH
      ensures Valid() && fresh(buffer) && Contents() == [] && isMessageBuffer == messages
      ensures Framed() && this.messages == []
      ensures buffer.Length == size + 1
    {
      buffer := new byte[size + 1](_ => 0);
      head := 0;
      tail := 0;
      isMessageBuffer := messages;
      this.messages := [];
    }

    /** prvBytesInBuffer. */
    method BytesInBuffer() returns (count: nat)
      requires Valid()
      ensures count == |Contents()|
    {
      count := buffer.Length + head;
      count := count - tail;
      if count >= buffer.Length {
        count := count - buffer.Length;
      }
    }

    /** xStreamBufferSpacesAvailable. */
    method SpacesAvailable() returns (space: nat)
      requires Valid()
      ensures space + |Contents()| == buffer.Length - 1
    {
      space := buffer.Length + tail;
      space := space - head;
      space := space - 1;
      if space >= buffer.Length {
        space := space - buffer.Length;
      }
    }

    /** The memcpy calls of prvWriteBytesToBuffer. */
    method CopyIn(at: nat, src: seq<byte>)
      requires at + |src| <= buffer.Length
      modifies buffer
      ensures buffer[..] == Patched(old(buffer[..]), at, src)
    {
      var i := 0;
      while i < |src|
        invariant 0 <= i <= |src|
        invariant buffer[..] == old(buffer[..at]) + src[..i] + old(buffer[at + i..])
      {
        buffer[at + i] := src[i];
        i := i + 1;
      }
      assert src[..i] == src;
    }

    /** prvWriteBytesToBuffer. */
    method WriteBytes(data: seq<byte>)
      requires Valid() && 0 < |data| && |Contents()| + |data| < buffer.Length
      modifies this`head, buffer
      ensures Valid() && Contents() == old(Contents()) + data
    {
      hide Written, Region, Distance, Patched;
      ghost var before := buffer[..];
      var nextHead := head;
      var firstLength := Min(buffer.Length - nextHead, |data|);
      CopyIn(nextHead, data[..firstLength]);
      if |data| > firstLength {
        CopyIn(0, data[firstLength..]);
        TwoCopies(before, nextHead, data);
      } else {
        assert data[..firstLength] == data;
        OneCopy(before, nextHead, data);
      }
      nextHead := nextHead + |data|;
      if nextHead >= buffer.Length {
        nextHead := nextHead - buffer.Length;
      }
      Appended(before, tail, head, data);
      head := nextHead;
    }

    /** prvReadBytesFromBuffer. */
    method ReadBytes(maxCount: nat, bytesAvailable: nat) returns (data: seq<byte>)
      requires Valid() && bytesAvailable <= |Contents()|
      modifies this`tail
      ensures Valid() && data == old(Contents())[..Min(bytesAvailable, maxCount)]
      ensures Contents() == old(Contents())[Min(bytesAvailable, maxCount)..]
    {
      var count := Min(bytesAvailable, maxCount);
      data := [];
      if count > 0 {
        var nextTail := tail;
        ghost var n := |Contents()|;
        var firstLength := Min(buffer.Length - nextTail, count);
        data := buffer[nextTail..nextTail + firstLength];
        if count > firstLength {
          data := data + buffer[..count - firstLength];
        }
        nextTail := nextTail + count;
        if nextTail >= buffer.Length {
          nextTail := nextTail - buffer.Length;
        }
        RegionPrefix(buffer[..], tail, count, n);
        assert data == Region(buffer[..], tail, count);
        RegionDrops(buffer[..], tail, count, n);
        AheadAgain(buffer.Length, tail, count, n - count);
        DistanceIs(buffer.Length, Ahead(buffer.Length, tail, count), n - count);
        tail := nextTail;
      }
    }

    /** prvWriteMessageToBuffer: as much of a stream as fits, a message whole or not at all. */
    method WriteMessage(data: seq<byte>, space: nat, requiredSpace: nat) returns (written: nat)
      requires Valid() && 0 < |data| < MAX_LENGTH && space + |Contents()| < buffer.Length
      requires requiredSpace == |data| + if isMessageBuffer then LENGTH_BYTES else 0
      modifies this`head, buffer
      ensures Valid()
      ensures written == if !isMessageBuffer then Min(|data|, space) else if space >= requiredSpace then |data| else 0
      ensures Contents() == old(Contents())
                            + if !isMessageBuffer then data[..written]
                              else if written > 0 then Frame(data) else []
    {
      hide Region, Distance, EncodeLength;
      ghost var was := Contents();
      var shouldWrite, count := false, |data|;
      if space == 0 {
      } else if !isMessageBuffer {
        shouldWrite := true;
        count := Min(|data|, space);
      } else if space >= requiredSpace {
        shouldWrite := true;
        WriteBytes(EncodeLength(|data|));
      }
      if shouldWrite {
        WriteBytes(data[..count]);
        written := count;
        if isMessageBuffer {
          assert data[..count] == data;
          assert Contents() == (was + EncodeLength(|data|)) + data == was + Frame(data);
        }
      } else {
        written := 0;
      }
    }

    /** prvReadMessageFromBuffer: a message that is longer than the reader's room stays. */
    method ReadMessage(room: nat, bytesAvailable: nat) returns (data: seq<byte>)
      requires Valid() && bytesAvailable <= |Contents()|
      requires isMessageBuffer ==> bytesAvailable > LENGTH_BYTES
      modifies this`tail
      ensures Valid()
      ensures !isMessageBuffer ==>
                data == old(Contents())[..Min(bytesAvailable, room)]
                && Contents() == old(Contents())[Min(bytesAvailable, room)..]
      ensures isMessageBuffer ==>
                var n := DecodeLength(old(Contents())[..LENGTH_BYTES]);
                if n > room then data == [] && Contents() == old(Contents())
                else var k := LENGTH_BYTES + Min(bytesAvailable - LENGTH_BYTES, n);
                     data == old(Contents())[LENGTH_BYTES..k] && Contents() == old(Contents())[k..]
    {
      hide Region, Distance;
      var available, next := bytesAvailable, room;
      if isMessageBuffer {
        var originalTail := tail;
        ghost var was := Contents();
        var length := ReadBytes(LENGTH_BYTES, available);
        available := available - LENGTH_BYTES;
        next := DecodeLength(length);
        if next > room {
          tail := originalTail;
          next := 0;
          assert Contents() == was;
        }
      }
      data := ReadBytes(next, available);
    }

    /** xStreamBufferSendFromISR, and xStreamBufferSend without a wait, on a message buffer. */
    method SendMessage(m: Message) returns (sent: bool)
      requires Valid() && isMessageBuffer && Framed()
      modifies this`head, this`messages, buffer
      ensures Valid() && Framed()
      ensures sent <==> old(|Contents()|) + LENGTH_BYTES + |m| < buffer.Length
      ensures messages == if sent then old(messages) + [m] else old(messages)
    {
      hide Region, Distance, Frame;
      var space := SpacesAvailable();
      var written := WriteMessage(m, space, |m| + LENGTH_BYTES);
      sent := written > 0;
      if sent {
        WireAppend(messages, m);
        messages := messages + [m];
      }
    }

    /** xStreamBufferReceiveFromISR, and xStreamBufferReceive without a wait, on a message buffer:
        messages come out whole and in the order in which they went in. */
    method ReceiveMessage(room: nat) returns (data: seq<byte>)
      requires Valid() && isMessageBuffer && Framed()
      modifies this`tail, this`messages
      ensures Valid() && Framed()
      ensures old(messages) == [] || |old(messages)[0]| > room ==> data == [] && messages == old(messages)
      ensures old(messages) != [] && |old(messages)[0]| <= room ==>
                data == old(messages)[0] && messages == old(messages)[1..]
    {
      hide Region, Distance, Frame;
      var available := BytesInBuffer();
      data := [];
      if messages != [] {
        FirstMessage(messages);
      }
      if available > LENGTH_BYTES {
        data := ReadMessage(room, available);
        if data != [] {
          messages := messages[1..];
        }
      }
    }
  }

  /** A buffer with src copied in at index i. */
  function Patched(buf: seq<byte>, i: nat, src: seq<byte>): (r: seq<byte>)
    requires i + |src| <= |buf|
    ensures |r| == |buf|
  {
    buf[..i] + src + buf[i + |src|..]
  }

  /** A circular buffer with data written from index i on. */
  function Written(buf: seq<byte>, i: nat, data: seq<byte>): (r: seq<byte>)
    requires i < |buf| && |data| < |buf|
    ensures |r| == |buf|
  {
    seq(|buf|, j requires 0 <= j < |buf| =>
      if Distance(|buf|, i, j) < |data| then data[Distance(|buf|, i, j)] else buf[j])
  }

  /** Data written from the head on is behind the contents. */
  lemma Appended(buf: seq<byte>, tail: nat, head: nat, data: seq<byte>)
    requires tail < |buf| && head < |buf| && Distance(|buf|, tail, head) + |data| < |buf|
    ensures Region(Written(buf, head, data), tail, Distance(|buf|, tail, Ahead(|buf|, head, |data|)))
         == Region(buf, tail, Distance(|buf|, tail, head)) + data
  {
    hide Written, Region;
    var n := Distance(|buf|, tail, head);
    AheadAgain(|buf|, tail, n, |data|);
    DistanceIs(|buf|, tail, n + |data|);
    WrittenExtends(buf, tail, n, data);
  }

  lemma OneCopy(buf: seq<byte>, i: nat, data: seq<byte>)
    requires i + |data| <= |buf| && 0 < |data| < |buf|
    ensures Patched(buf, i, data) == Written(buf, i, data)
  {
  }

  /** A copy up to the end of the buffer and one from its start. */
  lemma TwoCopies(buf: seq<byte>, i: nat, data: seq<byte>)
    requires i < |buf| < i + |data| && |data| < |buf|
    ensures var first := |buf| - i;
            Patched(Patched(buf, i, data[..first]), 0, data[first..]) == Written(buf, i, data)
  {
  }

  lemma WrittenExtends(buf: seq<byte>, tail: nat, n: nat, data: seq<byte>)
    requires tail < |buf| && n + |data| < |buf|
    ensures Region(Written(buf, Ahead(|buf|, tail, n), data), tail, n + |data|) == Region(buf, tail, n) + data
  {
    var len, i := |buf|, Ahead(|buf|, tail, n);
    var r := Region(Written(buf, i, data), tail, n + |data|);
    forall k | 0 <= k < n + |data|
      ensures r[k] == (Region(buf, tail, n) + data)[k]
    {
      if k >= n {
        AheadAgain(len, tail, n, k - n);
        DistanceIs(len, i, k - n);
      } else {
        AheadAgain(len, i, len - n, k);
      }
    }
  }
}
