/** The messages received are a prefix of those accepted, in every interleaving. */
module MessageRuns {
  import opened Common
  import opened StreamBytes
  import opened MessageProtocol

  lemma DistanceSplit(len: nat, i: nat, k: nat, head: nat)
    requires i < len && head < len && k <= Distance(len, i, head)
    ensures Distance(len, Ahead(len, i, k), head) == Distance(len, i, head) - k
  {
  }

  lemma PrefixStays(s: Sys, m: Message, k: nat)
    requires k <= |s.accepted|
    ensures (s.accepted + [m])[..k] == s.accepted[..k]
  {
  }

  // ---------- the writer ----------

  lemma AcceptKeepsReader(s: Sys, m: Message)
    requires Formed(s) && ReaderOk(s) && s.writer.Idle?
    ensures var r := s.(writer := WritingLength(m, 0), accepted := s.accepted + [m]); Formed(r) && ReaderOk(r)
  {
    hide Distance, Wire, Ahead, EncodeLength;
    PrefixStays(s, m, |s.received|);
    if |s.received| < |s.accepted| {
      PrefixStays(s, m, |s.received| + 1);
    }
  }

  lemma AcceptKeepsInv(s: Sys, m: Message)
    requires Inv(s) && s.writer.Idle? && Unread(s) + LENGTH_BYTES + |m| < |s.buf|
    ensures Inv(s.(writer := WritingLength(m, 0), accepted := s.accepted + [m]))
  {
    hide Distance, Region, Ahead, Frame, ReaderOk, EncodeLength;
    var r := s.(writer := WritingLength(m, 0), accepted := s.accepted + [m]);
    WireAppend(s.accepted, m);
    AcceptKeepsReader(s, m);
    assert Wire(r.accepted)[s.at..s.at + Unread(s)] == Wire(s.accepted)[s.at..s.at + Unread(s)];
  }

  /** The space the writer sees, measured from the reader's base. */
  lemma SpaceSeen(s: Sys)
    requires Inv(s)
    ensures Spaces(|s.buf|, s.tail, s.head)
         == |s.buf| - 1 - Unread(s) + if s.reader.TooSmall? then LENGTH_BYTES else 0
  {
    if s.reader.TooSmall? {
      WholeFrame(s);
      DistanceSplit(|s.buf|, s.reader.original, LENGTH_BYTES, s.head);
    }
  }

  /** A message that is complete lies wholly between the reader's base and xHead. */
  lemma WholeFrame(s: Sys)
    requires Formed(s) && ReaderOk(s) && NextIsComplete(s)
    ensures var k := if s.reader.ReadingData? then |s.accepted[|s.received|]|
                     else LENGTH_BYTES + |s.accepted[|s.received|]|;
            k <= Unread(s)
  {
    hide Distance, Wire;
    FrameAt(s.accepted, |s.received|);
  }

  /** Accepting a message keeps the invariant exactly when the schedule is roomy: in particular
      always, unless the reader is putting xTail back. */
  lemma SendKeepsInvIff(s: Sys, m: Message)
    requires Inv(s) && Enabled(s, Send(m))
    ensures Inv(Step(s, Send(m))) <==> Roomy(s, Send(m))
  {
    hide Distance, Region, Ahead, Frame, ContentOk, WriterOk, ReaderOk;
    SpaceSeen(s);
    if Unread(s) + LENGTH_BYTES + |m| < |s.buf| {
      AcceptKeepsInv(s, m);
    }
  }

  lemma LastFrame(s: Sys)
    requires Inv(s) && !s.writer.Idle?
    ensures var w := Wire(s.accepted);
            && s.at + Unread(s) + Pending(s.writer) == |w| >= |s.writer.m| + LENGTH_BYTES
            && w[|w| - |s.writer.m| - LENGTH_BYTES..] == Frame(s.writer.m)
  {
  }

  /** The byte the writer copies next. */
  function NextByte(s: Sys): (x: byte)
    requires Enabled(s, WriteByte)
  {
    if s.writer.WritingLength? then EncodeLength(|s.writer.m|)[s.writer.done] else s.writer.m[s.writer.done]
  }

  lemma NextByteIs(s: Sys)
    requires Inv(s) && Enabled(s, WriteByte)
    ensures var p := s.at + Unread(s) + s.writer.done;
            p < |Wire(s.accepted)| && NextByte(s) == Wire(s.accepted)[p]
  {
    hide Distance, Region, Wire, ReaderOk, ContentOk;
    var w, m, p := Wire(s.accepted), s.writer.m, s.at + Unread(s) + s.writer.done;
    LastFrame(s);
    var start := |w| - |m| - LENGTH_BYTES;
    assert w[start..][p - start] == w[p];
    assert Frame(m)[p - start] == NextByte(s);
  }

  /** The byte lands right behind what the reader may still read. */
  lemma WrittenContent(s: Sys)
    requires Inv(s) && Enabled(s, WriteByte)
    ensures Formed(Step(s, WriteByte)) && Fits(Step(s, WriteByte)) && WriterOk(Step(s, WriteByte))
    ensures ContentOk(Step(s, WriteByte))
  {
    hide Distance, Region, Ahead, Wire, ReaderOk, EncodeLength;
    var n, k, w := Unread(s), s.writer.done, Wire(s.accepted);
    NextByteIs(s);
    AheadAgain(|s.buf|, Base(s), n, k);
    RegionExtends(s.buf, Base(s), n + k, NextByte(s));
    assert w[s.at..s.at + n + k] + [w[s.at + n + k]] == w[s.at..s.at + n + k + 1];
  }

  lemma WriteByteKeepsInv(s: Sys)
    requires Inv(s) && Enabled(s, WriteByte)
    ensures Inv(Step(s, WriteByte))
  {
    hide Distance, Region, Ahead, Wire, EncodeLength, ContentOk, WriterOk;
    WrittenContent(s);
  }

  lemma PublishHeadKeepsInv(s: Sys)
    requires Inv(s) && Enabled(s, PublishHead)
    ensures Inv(Step(s, PublishHead))
  {
    hide Distance, Region, Ahead, Wire;
    var len, n, k := |s.buf|, Unread(s), s.writer.done;
    AheadAgain(len, Base(s), n, k);
    DistanceIs(len, Base(s), n + k);
    assert Unread(Step(s, PublishHead)) == n + k;
  }

  // ---------- the reader ----------

  lemma LastLength(ms: seq<Message>)
    requires ms != []
    ensures |Wire(ms)| == |Wire(ms[..|ms| - 1])| + LENGTH_BYTES + |ms[|ms| - 1]|
  {
  }

  /** More than a length is in the buffer only when the whole next message is: xHead stands behind
      a whole frame or behind the length of the last one. */
  lemma MoreThanALength(s: Sys)
    requires Inv(s) && s.reader.Resting? && Unread(s) > LENGTH_BYTES
    ensures NextIsComplete(s)
  {
    hide Distance, Region, ContentOk, Ahead, Wire;
    var r, n := |s.received|, |s.accepted|;
    assert s.accepted[..n] == s.accepted;
    assert r < n;
    FrameAt(s.accepted, r);
    if !s.writer.Idle? {
      var front := s.accepted[..n - 1];
      LastLength(s.accepted);
      assert r < n - 1;
      WirePrefix(front, r + 1);
      assert front[..r + 1] == s.accepted[..r + 1];
    }
  }

  lemma ReceiveKeepsInv(s: Sys, room: nat)
    requires Inv(s) && Enabled(s, Receive(room))
    ensures Inv(Step(s, Receive(room)))
  {
    hide Distance, Region, Wire;
    if Unread(s) > LENGTH_BYTES {
      MoreThanALength(s);
      FrameAt(s.accepted, |s.received|);
      WholeFrame(s);
    }
  }

  lemma UnreadAt(s: Sys, k: nat)
    requires Formed(s) && Fits(s) && WriterOk(s) && ContentOk(s) && !s.reader.TooSmall?
    requires k < Unread(s) + Staged(s.writer)
    ensures s.at + k < |Wire(s.accepted)| && s.buf[Ahead(|s.buf|, s.tail, k)] == Wire(s.accepted)[s.at + k]
  {
    hide Distance, Wire, Ahead;
    assert Region(s.buf, s.tail, Unread(s) + Staged(s.writer))[k] == Wire(s.accepted)[s.at + k];
  }

  /** What the reader finds at position k of the message it is reading. */
  lemma ByteRead(s: Sys, k: nat)
    requires Inv(s) && NextIsComplete(s) && !s.reader.TooSmall?
    requires k < if s.reader.ReadingData? then |s.accepted[|s.received|]| else LENGTH_BYTES
    ensures k < |s.buf|
    ensures s.buf[Ahead(|s.buf|, s.tail, k)]
         == if s.reader.ReadingData? then s.accepted[|s.received|][k] else EncodeLength(|s.accepted[|s.received|]|)[k]
  {
    hide Distance, Wire, Ahead, EncodeLength, ContentOk, Region;
    var r := |s.received|;
    WholeFrame(s);
    FrameAt(s.accepted, r);
    UnreadAt(s, k);
    var a := |Wire(s.accepted[..r])|;
    var frame := Wire(s.accepted)[a..|Wire(s.accepted[..r + 1])|];
    assert frame[s.at - a + k] == Wire(s.accepted)[s.at + k];
  }

  lemma ReadByteKeepsInv(s: Sys)
    requires Inv(s) && Enabled(s, ReadByte)
    ensures Inv(Step(s, ReadByte))
  {
    hide Distance, Region, Wire, Ahead;
    ByteRead(s, |s.reader.got|);
  }

  /** xTail moves over k bytes for good. */
  lemma TailMoves(s: Sys, k: nat)
    requires Inv(s) && k <= Unread(s) && !s.reader.TooSmall?
    ensures var t := Ahead(|s.buf|, s.tail, k);
            && Distance(|s.buf|, t, s.head) == Unread(s) - k
            && Region(s.buf, t, Unread(s) - k + Staged(s.writer))
               == Wire(s.accepted)[s.at + k..s.at + Unread(s) + Staged(s.writer)]
  {
    hide Wire, Region, Distance, Ahead, ReaderOk;
    var n := Unread(s) + Staged(s.writer);
    DistanceSplit(|s.buf|, s.tail, k, s.head);
    RegionDrops(s.buf, s.tail, k, n);
    assert Wire(s.accepted)[s.at..s.at + n][k..] == Wire(s.accepted)[s.at + k..s.at + n];
  }

  lemma LengthIsRight(s: Sys)
    requires Inv(s) && Enabled(s, PublishTail) && s.reader.ReadingLength?
    ensures DecodeLength(s.reader.got) == |s.accepted[|s.received|]|
  {
    hide Distance, Region, Wire, Ahead, EncodeLength, DecodeLength, ContentOk;
    LengthRoundTrip(|s.accepted[|s.received|]|);
    assert s.reader.got == EncodeLength(|s.accepted[|s.received|]|);
  }

  lemma TooLongKeepsInv(s: Sys)
    requires Inv(s) && Enabled(s, PublishTail) && s.reader.ReadingLength?
    requires DecodeLength(s.reader.got) > s.reader.room
    ensures Inv(Step(s, PublishTail))
  {
    hide Distance, Region, Wire, Ahead, EncodeLength, DecodeLength;
  }

  lemma LengthReadKeepsInv(s: Sys)
    requires Inv(s) && Enabled(s, PublishTail) && s.reader.ReadingLength?
    requires DecodeLength(s.reader.got) <= s.reader.room
    ensures Inv(Step(s, PublishTail))
  {
    hide Distance, Region, Wire, Ahead, EncodeLength, DecodeLength;
    LengthIsRight(s);
    WholeFrame(s);
    TailMoves(s, LENGTH_BYTES);
  }

  lemma DataReadKeepsInv(s: Sys)
    requires Inv(s) && Enabled(s, PublishTail) && s.reader.ReadingData?
    ensures Inv(Step(s, PublishTail))
  {
    hide Distance, Region, Wire, Ahead;
    var r := |s.received|;
    assert s.reader.got == s.accepted[r];
    assert s.accepted[..r + 1] == s.accepted[..r] + [s.accepted[r]];
    FrameAt(s.accepted, r);
    WholeFrame(s);
    TailMoves(s, |s.accepted[r]|);
  }

  lemma RestoreKeepsInv(s: Sys)
    requires Inv(s) && Enabled(s, Restore)
    ensures Inv(Step(s, Restore))
  {
    hide Distance, Region, Wire, Ahead;
  }

  lemma ReaderIsReading(s: Sys)
    requires Enabled(s, PublishTail)
    ensures s.reader.ReadingData? || (s.reader.ReadingLength? && |s.reader.got| == LENGTH_BYTES)
  {
  }

  // ---------- every step ----------

  lemma StepKeepsInv(s: Sys, ev: Event)
    requires Inv(s) && Enabled(s, ev) && Roomy(s, ev)
    ensures Inv(Step(s, ev))
  {
    hide Step, Enabled, Inv, Roomy;
    match ev
    case Send(m) => SendKeepsInvIff(s, m);
    case WriteByte => WriteByteKeepsInv(s);
    case PublishHead => PublishHeadKeepsInv(s);
    case Receive(room) => ReceiveKeepsInv(s, room);
    case ReadByte => ReadByteKeepsInv(s);
    case PublishTail =>
      ReaderIsReading(s);
      if s.reader.ReadingData? {
        DataReadKeepsInv(s);
      } else if DecodeLength(s.reader.got) > s.reader.room {
        TooLongKeepsInv(s);
      } else {
        LengthReadKeepsInv(s);
      }
    case Restore => RestoreKeepsInv(s);
  }

  /** A new message buffer. */
  predicate Created(s: Sys) {
    && Shape(s) && s.head == s.tail == 0 && s.writer.Idle? && s.reader.Resting?
    && s.accepted == [] && s.received == [] && s.at == 0
  }

  ghost predicate Run(states: seq<Sys>, evs: seq<Event>) {
    && |states| == |evs| + 1 && Created(states[0])
    && (forall i :: 0 <= i < |evs| ==>
          Enabled(states[i], evs[i]) && Roomy(states[i], evs[i]) && states[i + 1] == Step(states[i], evs[i]))
  }

  lemma {:induction false} RunKeepsInv(states: seq<Sys>, evs: seq<Event>, i: nat)
    requires Run(states, evs) && i < |states|
    ensures Inv(states[i])
  {
    hide Step, Enabled, Roomy;
    if i == 0 {
      assert states[0].received == states[0].accepted[..0];
    } else {
      hide Inv;
      RunKeepsInv(states, evs, i - 1);
      StepKeepsInv(states[i - 1], evs[i - 1]);
    }
  }

  /** In every state of every run the messages received are exactly the first ones accepted, each
      whole; and when both sides are at rest and the buffer is empty, they are all of them. */
  lemma MessagesArePrefix(states: seq<Sys>, evs: seq<Event>, i: nat)
    requires Run(states, evs) && i < |states|
    ensures var s := states[i];
            && |s.received| <= |s.accepted| && s.received == s.accepted[..|s.received|]
            && (s.writer.Idle? && s.reader.Resting? && s.head == s.tail ==> s.received == s.accepted)
  {
    hide Step, Enabled, Roomy, Region, ContentOk;
    RunKeepsInv(states, evs, i);
    var s := states[i];
    if s.writer.Idle? && s.reader.Resting? && s.head == s.tail && |s.received| < |s.accepted| {
      FrameAt(s.accepted, |s.received|);
    }
  }

  /** A message is accepted exactly when it fits with its length behind the bytes that are unread, as the
      writer sees them: the length of a message that is being put back counts as free. */
  lemma SendIsAcceptedIff(s: Sys, m: Message)
    requires Inv(s) && Enabled(s, Send(m))
    ensures var seen := Unread(s) - if s.reader.TooSmall? then LENGTH_BYTES else 0;
            if seen + LENGTH_BYTES + |m| < |s.buf| then Step(s, Send(m)).accepted == s.accepted + [m]
            else Step(s, Send(m)) == s
  {
    hide Inv, Distance;
    SpaceSeen(s);
  }

  /** A reader at rest starts to read exactly when the whole next message is in the buffer. */
  lemma ReceiveStartsIff(s: Sys, room: nat)
    requires Inv(s) && Enabled(s, Receive(room))
    ensures Step(s, Receive(room)).reader.ReadingLength? <==> NextIsComplete(s)
    ensures !NextIsComplete(s) ==> Step(s, Receive(room)) == s
  {
    hide Distance, Region, Wire, Ahead, ContentOk;
    if Unread(s) > LENGTH_BYTES {
      MoreThanALength(s);
    }
    if NextIsComplete(s) {
      WholeFrame(s);
    }
  }

  /** And it delivers that message exactly when it fits the room that the caller offered; otherwise the
      message stays. */
  lemma DeliversIff(s: Sys)
    requires Inv(s) && Enabled(s, PublishTail) && s.reader.ReadingLength?
    ensures var (r, n) := (Step(s, PublishTail), |s.received|);
            && n < |s.accepted| && r.accepted == s.accepted && r.received == s.received
            && (r.reader.ReadingData? <==> |s.accepted[n]| <= s.reader.room)
            && (r.reader.TooSmall? <==> |s.accepted[n]| > s.reader.room)
  {
    hide Distance, Region, Wire, Ahead, EncodeLength, DecodeLength, ContentOk, WriterOk;
    LengthIsRight(s);
  }

  /** Whenever the reader is past its first look, the message it is reading has been published to
      its last byte, and every byte it has copied is a byte of that message. */
  lemma ReaderSeesWholeMessages(states: seq<Sys>, evs: seq<Event>, i: nat)
    requires Run(states, evs) && i < |states| && !states[i].reader.Resting?
    ensures var s := states[i];
            && Formed(s) && NextIsComplete(s)
            && (s.reader.ReadingLength? ==> s.reader.got <= EncodeLength(|s.accepted[|s.received|]|))
            && (s.reader.ReadingData? ==>
                  s.reader.count == |s.accepted[|s.received|]| && s.reader.got <= s.accepted[|s.received|])
  {
    hide Step, Enabled, Roomy, Region, ContentOk, Created;
    RunKeepsInv(states, evs, i);
  }

  // ---------- a schedule that is not roomy ----------

  /** A run of the steps of evs leads from s to r. */
  predicate Leads(s: Sys, evs: seq<Event>, r: Sys)
    decreases evs
  {
    if evs == [] then s == r else Enabled(s, evs[0]) && Leads(Step(s, evs[0]), evs[1..], r)
  }

  lemma {:induction false} LeadsOn(s: Sys, evs: seq<Event>, r: Sys, more: seq<Event>, t: Sys)
    requires Leads(s, evs, r) && Leads(r, more, t)
    ensures Leads(s, evs + more, t)
    decreases evs
  {
    if evs == [] {
      assert evs + more == more;
    } else {
      LeadsOn(Step(s, evs[0]), evs[1..], r, more, t);
      assert (evs + more)[1..] == evs[1..] + more;
    }
  }

  /** The writer's own steps, and the reader's putting xTail back. */
  predicate Finishing(evs: seq<Event>) {
    forall i :: 0 <= i < |evs| ==> evs[i].WriteByte? || evs[i].PublishHead? || evs[i].Restore?
  }

  /** Unread and unpublished bytes make w, or would if a whole buffer of them had not gone under. */
  predicate Owes(s: Sys, w: nat) {
    Formed(s) && (Unread(s) + Pending(s.writer) == w || Unread(s) + Pending(s.writer) + |s.buf| == w)
  }

  /** What publishing k bytes makes of the distance: it may go once round the buffer. */
  lemma HeadMoves(len: nat, tail: nat, head: nat, k: nat)
    requires tail < len && head < len && k <= len
    ensures var (d, e) := (Distance(len, tail, head), Distance(len, tail, Ahead(len, head, k)));
            e == d + k || e + len == d + k
  {
  }

  lemma PublishOwes(s: Sys, w: nat)
    requires Owes(s, w) && w < 2 * |s.buf| && Enabled(s, PublishHead)
    ensures Owes(Step(s, PublishHead), w)
  {
    hide Distance, Ahead;
    HeadMoves(|s.buf|, Base(s), s.head, s.writer.done);
  }

  lemma StepOwes(s: Sys, ev: Event, w: nat)
    requires Owes(s, w) && w < 2 * |s.buf| && Enabled(s, ev) && Finishing([ev])
    ensures Owes(Step(s, ev), w)
    ensures var r := Step(s, ev); r.accepted == s.accepted && r.at == s.at && |r.buf| == |s.buf|
  {
    hide Distance, Ahead;
    assert [ev][0] == ev;
    if ev.PublishHead? {
      PublishOwes(s, w);
    }
  }

  lemma {:induction false} RunOwes(s: Sys, evs: seq<Event>, r: Sys, w: nat)
    requires Owes(s, w) && w < 2 * |s.buf| && Finishing(evs) && Leads(s, evs, r)
    ensures Owes(r, w) && r.accepted == s.accepted && r.at == s.at && |r.buf| == |s.buf|
    decreases evs
  {
    hide Step, Enabled, Owes;
    if evs != [] {
      assert Finishing([evs[0]]) && Finishing(evs[1..]);
      StepOwes(s, evs[0], w);
      RunOwes(Step(s, evs[0]), evs[1..], r, w);
    }
  }

  /** What an accepted message comes to, however the writer's steps and the reader's putting back of
      xTail are interleaved: when the writer is done, every byte accepted and not yet consumed is in
      the buffer, exactly when the schedule was roomy; otherwise a whole buffer of them is gone. */
  lemma AcceptedBytesStayIff(s: Sys, m: Message, evs: seq<Event>, r: Sys)
    requires Inv(s) && Enabled(s, Send(m)) && Spaces(|s.buf|, s.tail, s.head) >= |m| + LENGTH_BYTES
    requires Leads(Step(s, Send(m)), evs, r) && Finishing(evs) && r.writer.Idle?
    ensures Formed(r)
    ensures Roomy(s, Send(m)) ==> r.at + Unread(r) == |Wire(r.accepted)|
    ensures !Roomy(s, Send(m)) ==> r.at + Unread(r) == |Wire(r.accepted)| - |s.buf|
  {
    hide Leads, Distance, Region, Ahead, Frame, ContentOk, ReaderOk;
    SpaceSeen(s);
    WireAppend(s.accepted, m);
    var w := Unread(s) + LENGTH_BYTES + |m|;
    RunOwes(Step(s, Send(m)), evs, r, w);
  }

  /** Two messages of one byte fill a buffer of twelve bytes up to one; a reader without room has
      moved xTail over the first length and is about to put it back. */
  function NoRoom(): (s: Sys) {
    Sys([1, 0, 0, 0, 7, 1, 0, 0, 0, 8, 0, 0], 10, 4, Idle, TooSmall(0), [[7], [8]], [], 0)
  }

  lemma NoRoomWire()
    ensures Wire(NoRoom().accepted) == [1, 0, 0, 0, 7, 1, 0, 0, 0, 8]
    ensures |Wire(NoRoom().accepted[..0])| == 0 && |Wire(NoRoom().accepted[..1])| == 5
  {
    var ms := NoRoom().accepted;
    assert ms[..0] == [];
    assert ms[..1] == [[7]] && [[7]][..0] == [];
    assert Frame([7]) == [1, 0, 0, 0, 7] && Frame([8]) == [1, 0, 0, 0, 8];
    assert Wire([[7]]) == Wire([]) + Frame([7]);
    assert Wire(ms) == Wire(ms[..1]) + Frame([8]);
  }

  lemma NoRoomRegion()
    ensures Region(NoRoom().buf, 0, 10) == [1, 0, 0, 0, 7, 1, 0, 0, 0, 8]
  {
  }

  lemma NoRoomInv()
    ensures Inv(NoRoom())
  {
    hide Wire, Region, EncodeLength;
    NoRoomWire();
    NoRoomRegion();
  }

  /** The third message, its length written over the first four bytes of the buffer's end and start. */
  function LengthWritten(): (s: Sys) {
    NoRoom().(buf := [0, 0, 0, 0, 7, 1, 0, 0, 0, 8, 1, 0], writer := WritingLength([9], 4),
              accepted := [[7], [8], [9]])
  }

  function Ruined(): (s: Sys) {
    Sys([0, 0, 9, 0, 7, 1, 0, 0, 0, 8, 1, 0], 3, 0, Idle, Resting, [[7], [8], [9]], [], 0)
  }

  /** The writer's state once it has written k bytes of the length. */
  function OverBy(buf: seq<byte>, k: nat): (s: Sys) {
    NoRoom().(buf := buf, writer := WritingLength([9], k), accepted := [[7], [8], [9]])
  }

  lemma LengthStarts()
    ensures Leads(NoRoom(), [Send([9]), WriteByte, WriteByte], OverBy([1, 0, 0, 0, 7, 1, 0, 0, 0, 8, 1, 0], 2))
  {
    var s1 := Step(NoRoom(), Send([9]));
    assert s1 == OverBy(NoRoom().buf, 0);
    var s2 := Step(s1, WriteByte);
    var s3 := Step(s2, WriteByte);
    assert s3.buf == [1, 0, 0, 0, 7, 1, 0, 0, 0, 8, 1, 0];
    assert Leads(s2, [WriteByte], s3);
    assert Leads(s1, [WriteByte, WriteByte], s3);
  }

  lemma LengthEnds()
    ensures Leads(OverBy([1, 0, 0, 0, 7, 1, 0, 0, 0, 8, 1, 0], 2), [WriteByte, WriteByte], LengthWritten())
  {
    var s1 := OverBy([1, 0, 0, 0, 7, 1, 0, 0, 0, 8, 1, 0], 2);
    var s2 := Step(s1, WriteByte);
    var s3 := Step(s2, WriteByte);
    assert s3.buf == LengthWritten().buf;
    assert Leads(s2, [WriteByte], s3);
  }

  lemma LengthGoesOver()
    ensures Leads(NoRoom(), [Send([9]), WriteByte, WriteByte] + [WriteByte, WriteByte], LengthWritten())
  {
    hide Leads;
    LengthStarts();
    LengthEnds();
    LeadsOn(NoRoom(), [Send([9]), WriteByte, WriteByte], OverBy([1, 0, 0, 0, 7, 1, 0, 0, 0, 8, 1, 0], 2),
            [WriteByte, WriteByte], LengthWritten());
  }

  lemma DataGoesOver()
    ensures Leads(LengthWritten(), [PublishHead, WriteByte, PublishHead, Restore], Ruined())
  {
    var s1 := Step(LengthWritten(), PublishHead);
    var s2 := Step(s1, WriteByte);
    var s3 := Step(s2, PublishHead);
    assert s2.buf == Ruined().buf;
    assert Leads(s3, [Restore], Ruined());
    assert Leads(s2, [PublishHead, Restore], Ruined());
    assert Leads(s1, [WriteByte, PublishHead, Restore], Ruined());
  }

  /** A new buffer of twelve bytes. */
  function Empty(): (s: Sys) {
    Sys([0, 0, 0, 0, 0, 0, 0, 0, 0, 0, 0, 0], 0, 0, Idle, Resting, [], [], 0)
  }

  function OneIn(): (s: Sys) {
    Sys([1, 0, 0, 0, 7, 0, 0, 0, 0, 0, 0, 0], 5, 0, Idle, Resting, [[7]], [], 0)
  }

  function TwoIn(): (s: Sys) {
    NoRoom().(tail := 0, reader := Resting)
  }

  const LENGTH_IN := [WriteByte, WriteByte, WriteByte, WriteByte]
  const DATA_IN := [PublishHead, WriteByte, PublishHead]
  const SEND_ONE := LENGTH_IN + DATA_IN

  /** The length of a message of one byte goes in. */
  lemma LengthGoesIn(s: Sys, x: byte, r: Sys)
    requires Shape(s) && s.writer.Idle? && Spaces(|s.buf|, s.tail, s.head) >= 5 && s.head + 5 < |s.buf|
    requires r == s.(buf := s.buf[..s.head] + [1, 0, 0, 0] + s.buf[s.head + 4..], writer := WritingLength([x], 4),
                     accepted := s.accepted + [[x]])
    ensures Leads(s, [Send([x])] + LENGTH_IN, r)
  {
    assert EncodeLength(1) == [1, 0, 0, 0];
    var s1 := Step(s, Send([x]));
    var s2 := Step(s1, WriteByte);
    var s3 := Step(s2, WriteByte);
    var s4 := Step(s3, WriteByte);
    var s5 := Step(s4, WriteByte);
    assert s5.buf == r.buf;
    assert Leads(s4, [WriteByte], r);
    assert Leads(s3, [WriteByte, WriteByte], r);
    assert Leads(s2, [WriteByte, WriteByte, WriteByte], r);
    assert Leads(s1, LENGTH_IN, r);
    assert ([Send([x])] + LENGTH_IN)[1..] == LENGTH_IN;
  }

  lemma DataGoesIn(s: Sys, x: byte, r: Sys)
    requires Shape(s) && s.writer == WritingLength([x], 4) && s.head + 5 < |s.buf|
    requires r == s.(buf := s.buf[..s.head + 4] + [x] + s.buf[s.head + 5..], head := s.head + 5, writer := Idle)
    ensures Leads(s, DATA_IN, r)
  {
    var s1 := Step(s, PublishHead);
    var s2 := Step(s1, WriteByte);
    assert s2.buf == r.buf;
    assert Leads(s2, [PublishHead], r);
    assert Leads(s1, [WriteByte, PublishHead], r);
  }

  /** A message of one byte goes in. */
  lemma OneByteGoesIn(s: Sys, x: byte, r: Sys)
    requires Shape(s) && s.writer.Idle? && Spaces(|s.buf|, s.tail, s.head) >= 5 && s.head + 5 < |s.buf|
    requires r == s.(buf := s.buf[..s.head] + [1, 0, 0, 0, x] + s.buf[s.head + 5..], head := s.head + 5,
                     accepted := s.accepted + [[x]])
    ensures Leads(s, [Send([x])] + SEND_ONE, r)
  {
    hide Leads, Spaces;
    var a := s.(buf := s.buf[..s.head] + [1, 0, 0, 0] + s.buf[s.head + 4..], writer := WritingLength([x], 4),
                accepted := s.accepted + [[x]]);
    LengthGoesIn(s, x, a);
    assert r.buf == a.buf[..s.head + 4] + [x] + a.buf[s.head + 5..];
    DataGoesIn(a, x, r);
    LeadsOn(s, [Send([x])] + LENGTH_IN, a, DATA_IN, r);
    assert [Send([x])] + LENGTH_IN + DATA_IN == [Send([x])] + SEND_ONE;
  }

  const LOOK := [Receive(0), ReadByte, ReadByte, ReadByte, ReadByte, PublishTail]

  lemma ReaderLooks()
    ensures Leads(TwoIn(), LOOK, NoRoom())
  {
    var s1 := Step(TwoIn(), Receive(0));
    var s2 := Step(s1, ReadByte);
    var s3 := Step(s2, ReadByte);
    var s4 := Step(s3, ReadByte);
    var s5 := Step(s4, ReadByte);
    assert s5.reader.got == [1, 0, 0, 0];
    assert Step(s5, PublishTail) == NoRoom();
    assert Leads(s5, [PublishTail], NoRoom());
    assert Leads(s4, [ReadByte, PublishTail], NoRoom());
    assert Leads(s3, [ReadByte, ReadByte, PublishTail], NoRoom());
    assert Leads(s2, [ReadByte, ReadByte, ReadByte, PublishTail], NoRoom());
    assert Leads(s1, [ReadByte, ReadByte, ReadByte, ReadByte, PublishTail], NoRoom());
  }

  /** The state in question is reached from a new buffer. */
  lemma NoRoomIsReached()
    ensures Created(Empty())
    ensures Leads(Empty(), [Send([7])] + SEND_ONE + ([Send([8])] + SEND_ONE) + LOOK, NoRoom())
  {
    hide Leads;
    OneByteGoesIn(Empty(), 7, OneIn());
    OneByteGoesIn(OneIn(), 8, TwoIn());
    ReaderLooks();
    LeadsOn(Empty(), [Send([7])] + SEND_ONE, OneIn(), [Send([8])] + SEND_ONE, TwoIn());
    LeadsOn(Empty(), [Send([7])] + SEND_ONE + ([Send([8])] + SEND_ONE), TwoIn(), LOOK, NoRoom());
  }

  /** A third message is accepted on the strength of the four bytes that are put back: its length
      and data go over the first length, and with xTail restored three bytes are left of the three
      messages that were accepted. */
  lemma MessagesCanBeLost()
    ensures Created(Empty())
    ensures Leads(Empty(), [Send([7])] + SEND_ONE + ([Send([8])] + SEND_ONE) + LOOK, NoRoom())
    ensures Inv(NoRoom()) && Enabled(NoRoom(), Send([9])) && !Roomy(NoRoom(), Send([9]))
    ensures Leads(NoRoom(), [Send([9]), WriteByte, WriteByte] + [WriteByte, WriteByte]
                            + [PublishHead, WriteByte, PublishHead, Restore], Ruined())
    ensures Ruined().received == [] && |Ruined().accepted| == 3
    ensures Distance(|Ruined().buf|, Ruined().tail, Ruined().head) == 3
  {
    hide Leads, Inv;
    NoRoomIsReached();
    NoRoomInv();
    LengthGoesOver();
    DataGoesOver();
    LeadsOn(NoRoom(), [Send([9]), WriteByte, WriteByte] + [WriteByte, WriteByte], LengthWritten(),
            [PublishHead, WriteByte, PublishHead, Restore], Ruined());
  }
}
