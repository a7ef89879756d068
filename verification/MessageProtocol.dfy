/** One writer and one reader of a message buffer (FreeRTOS/stream_buffer.c), interleaved at every
    byte copied and at every update of xHead and xTail.

    Neither side excludes the other: the writer owns xHead, the reader owns xTail, and each acts on
    one earlier look at the other's index. */
module MessageProtocol {
  import opened Common
  import opened StreamBytes

  /** The writer copies the length, publishes it, copies the data and publishes that. */
  datatype Writer =
    | Idle
    | WritingLength(m: Message, done: nat)
    | WritingData(m: Message, done: nat)

  datatype Reader =
    | Resting
    | ReadingLength(available: nat, room: nat, got: seq<byte>)
    | ReadingData(count: nat, got: seq<byte>)
    | TooSmall(original: nat)   // the message does not fit; about to put xTail back

  datatype Sys = Sys(
    buf: seq<byte>,
    head: nat,
    tail: nat,
    writer: Writer,
    reader: Reader,
    accepted: seq<Message>,     // history: what the writer was allowed to write
    received: seq<seq<byte>>,   // history: what the reader returned
    at: nat)                    // history: how many bytes the reader has consumed for good

  datatype Event =
    | Send(m: Message)
    | WriteByte
    | PublishHead
    | Receive(room: nat)
    | ReadByte
    | PublishTail
    | Restore

  predicate Shape(s: Sys) {
    LENGTH_BYTES + 1 < |s.buf| <= MAX_LENGTH && s.head < |s.buf| && s.tail < |s.buf|
  }

  predicate Enabled(s: Sys, ev: Event) {
    && Shape(s)
    && match ev
       case Send(_) => s.writer.Idle?
       case WriteByte => (s.writer.WritingLength? && s.writer.done < LENGTH_BYTES)
                         || (s.writer.WritingData? && s.writer.done < |s.writer.m| < |s.buf|)
       case PublishHead => (s.writer.WritingLength? && s.writer.done == LENGTH_BYTES)
                           || (s.writer.WritingData? && s.writer.done == |s.writer.m| < |s.buf|)
       case Receive(_) => s.reader.Resting?
       case ReadByte => (s.reader.ReadingLength? && |s.reader.got| < LENGTH_BYTES)
                        || (s.reader.ReadingData? && |s.reader.got| < s.reader.count < |s.buf|)
       case PublishTail => (s.reader.ReadingLength? && |s.reader.got| == LENGTH_BYTES < s.reader.available)
                           || (s.reader.ReadingData? && |s.reader.got| == s.reader.count < |s.buf|)
       case Restore => s.reader.TooSmall?
  }

  function Step(s: Sys, ev: Event): (r: Sys)
    requires Enabled(s, ev)
  {
    var len := |s.buf|;
    match ev
    case Send(m) =>
      if Spaces(len, s.tail, s.head) >= |m| + LENGTH_BYTES
      then s.(writer := WritingLength(m, 0), accepted := s.accepted + [m])
      else s
    case WriteByte =>
      var k := s.writer.done;
      var x := if s.writer.WritingLength? then EncodeLength(|s.writer.m|)[k] else s.writer.m[k];
      s.(buf := s.buf[Ahead(len, s.head, k) := x], writer := s.writer.(done := k + 1))
    case PublishHead =>
      if s.writer.WritingLength?
      then s.(head := Ahead(len, s.head, LENGTH_BYTES), writer := WritingData(s.writer.m, 0))
      else s.(head := Ahead(len, s.head, |s.writer.m|), writer := Idle)
    case Receive(room) =>
      var available := Distance(len, s.tail, s.head);
      if available > LENGTH_BYTES then s.(reader := ReadingLength(available, room, [])) else s
    case ReadByte =>
      s.(reader := s.reader.(got := s.reader.got + [s.buf[Ahead(len, s.tail, |s.reader.got|)]]))
    case PublishTail =>
      var k := |s.reader.got|;
      if s.reader.ReadingLength? then
        var n := DecodeLength(s.reader.got);
        var a := s.(tail := Ahead(len, s.tail, k));
        if n > s.reader.room then a.(reader := TooSmall(s.tail))
        else a.(reader := ReadingData(Min(s.reader.available - LENGTH_BYTES, n), []), at := s.at + k)
      else
        s.(tail := Ahead(len, s.tail, k), at := s.at + k, reader := Resting, received := s.received + [s.reader.got])
    case Restore => s.(tail := s.reader.original, reader := Resting)
  }

  // ---------- the invariant ----------

  /** Bytes copied behind xHead but not published. */
  function Staged(w: Writer): (n: nat) {
    if w.Idle? then 0 else w.done
  }

  /** Bytes of the current frame that xHead does not cover yet. */
  function Pending(w: Writer): (n: nat) {
    match w
    case Idle => 0
    case WritingLength(m, _) => LENGTH_BYTES + |m|
    case WritingData(m, _) => |m|
  }

  /** The tail to which the reader is committed. */
  function Base(s: Sys): (i: nat) {
    if s.reader.TooSmall? then s.reader.original else s.tail
  }

  predicate Formed(s: Sys) {
    && Shape(s) && Base(s) < |s.buf|
    && match s.writer
       case Idle => true
       case WritingLength(m, done) => done <= LENGTH_BYTES
       case WritingData(m, done) => done <= |m|
  }

  function Unread(s: Sys): (n: nat)
    requires Formed(s)
  {
    Distance(|s.buf|, Base(s), s.head)
  }

  /** The frame being written fits, even should the reader put xTail back. */
  predicate Fits(s: Sys)
    requires Formed(s)
  {
    Unread(s) + Pending(s.writer) < |s.buf|
  }

  /** The buffer ends with the frame being written. */
  predicate WriterOk(s: Sys)
    requires Formed(s)
  {
    && (!s.writer.Idle? ==> s.accepted != [] && s.accepted[|s.accepted| - 1] == s.writer.m)
    && s.at + Unread(s) + Pending(s.writer) == |Wire(s.accepted)|
  }

  /** From the reader's base on, the buffer holds the wire, staged bytes included. */
  predicate ContentOk(s: Sys)
    requires Formed(s) && Fits(s) && WriterOk(s)
  {
    Region(s.buf, Base(s), Unread(s) + Staged(s.writer))
      == Wire(s.accepted)[s.at..s.at + Unread(s) + Staged(s.writer)]
  }

  /** The next message has been published, data and all. */
  predicate NextIsComplete(s: Sys)
    requires Formed(s)
  {
    && |s.received| < |s.accepted|
    && |Wire(s.accepted[..|s.received| + 1])| <= s.at + Unread(s)
  }

  predicate ReaderOk(s: Sys)
    requires Formed(s)
  {
    var r := |s.received|;
    && r <= |s.accepted| && s.received == s.accepted[..r]
    && match s.reader
       case Resting => s.at == |Wire(s.accepted[..r])|
       case ReadingLength(available, _, got) =>
         && s.at == |Wire(s.accepted[..r])| && NextIsComplete(s)
         && |got| <= LENGTH_BYTES && got == EncodeLength(|s.accepted[r]|)[..|got|]
         && LENGTH_BYTES + |s.accepted[r]| <= available
       case ReadingData(count, got) =>
         && NextIsComplete(s)
         && s.at == |Wire(s.accepted[..r])| + LENGTH_BYTES
         && count == |s.accepted[r]| && |got| <= count && got == s.accepted[r][..|got|]
       case TooSmall(original) =>
         && s.at == |Wire(s.accepted[..r])| && NextIsComplete(s)
         && s.tail == Ahead(|s.buf|, original, LENGTH_BYTES)
  }

  predicate Inv(s: Sys) {
    Formed(s) && Fits(s) && WriterOk(s) && ContentOk(s) && ReaderOk(s)
  }

  /** The one condition on the schedule: while the reader has moved xTail over the length of a
      message that does not fit and not yet put it back, the writer must not count on those bytes. */
  predicate Roomy(s: Sys, ev: Event) {
    ev.Send? && Shape(s) && s.reader.TooSmall? ==>
      var space := Spaces(|s.buf|, s.tail, s.head);
      space >= |ev.m| + LENGTH_BYTES ==> space >= |ev.m| + LENGTH_BYTES + LENGTH_BYTES
  }
}
