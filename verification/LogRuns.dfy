/** The receive callback and the log task of User/app_ch340.c, interleaved at every byte copied and
    at every update of a shared counter. */
module LogRuns {
  import opened Common
  import opened Ticks
  import opened LogRing

  datatype Producer = Waiting | Copying(chunk: Chunk, done: nat)

  datatype Consumer = Looking | Counting(len: nat) | Passing(len: nat)

  datatype Sys = Sys(
    ring: seq<byte>,
    pRead: Tick,
    pWrite: Tick,
    rxTotal: Tick,
    armed: bool,
    producer: Producer,
    consumer: Consumer,
    accepted: seq<byte>,   // history: the bytes of all chunks that were not dropped
    consumed: nat)         // history: how many of them p_read has passed

  datatype Event =
    | Callback(chunk: Chunk)
    | CopyByte
    | Publish
    | Look
    | Count
    | Pass

  predicate Enabled(s: Sys, ev: Event) {
    && |s.ring| == LOG_BUFF_SIZE
    && match ev
       case Callback(_) => s.armed && s.producer.Waiting?
       case CopyByte => s.producer.Copying? && s.producer.done < |s.producer.chunk|
       case Publish => s.producer.Copying? && s.producer.done == |s.producer.chunk|
       case Look => s.consumer.Looking?
       case Count => s.consumer.Counting?
       case Pass => s.consumer.Passing?
  }

  /** Where byte k of the chunk goes: the first memcpy ends at the end of the ring. */
  function Target(s: Sys, k: nat): (i: nat)
    requires s.producer.Copying? && k < |s.producer.chunk|
    ensures i < LOG_BUFF_SIZE
  {
    var off, size := Masked(s.pWrite), |s.producer.chunk|;
    var first := if off + size > LOG_BUFF_SIZE - 1 then LOG_BUFF_SIZE - off else size;
    if k < first then off + k else k - first
  }

  function Step(s: Sys, ev: Event): (r: Sys)
    requires Enabled(s, ev)
  {
    match ev
    case Callback(chunk) =>
      if Wrap(Wrap(s.pWrite - s.pRead) + |chunk|) >= LOG_BUFF_SIZE then s.(armed := false)
      else s.(armed := false, producer := Copying(chunk, 0))
    case CopyByte =>
      var k := s.producer.done;
      s.(ring := s.ring[Target(s, k) := s.producer.chunk[k]], producer := s.producer.(done := k + 1))
    case Publish =>
      s.(pWrite := Wrap(s.pWrite + |s.producer.chunk|), accepted := s.accepted + s.producer.chunk,
         producer := Waiting, armed := true)
    case Look =>
      var len := Wrap(s.pWrite - s.pRead);
      if len > 0 then s.(consumer := Counting(len)) else s
    case Count => s.(rxTotal := Wrap(s.rxTotal + s.consumer.len), consumer := Passing(s.consumer.len))
    case Pass =>
      s.(pRead := Wrap(s.pRead + s.consumer.len), consumed := s.consumed + s.consumer.len, consumer := Looking)
  }

  // ---------- the invariant ----------

  /** The accepted bytes and those of the chunk being copied. */
  function Log(s: Sys): (l: seq<byte>) {
    s.accepted + if s.producer.Copying? then s.producer.chunk else []
  }

  function Copied(s: Sys): (n: nat) {
    |s.accepted| + if s.producer.Copying? then s.producer.done else 0
  }

  ghost predicate Inv(s: Sys) {
    && |s.ring| == LOG_BUFF_SIZE
    && s.consumed <= |s.accepted| && |Log(s)| < s.consumed + LOG_BUFF_SIZE
    && s.pRead == Wrap(s.consumed) && s.pWrite == Wrap(|s.accepted|)
    && Copied(s) <= |Log(s)| && (s.producer.Copying? ==> !s.armed)
    && Intact(s.ring, Log(s), s.consumed, Copied(s))
    && (!s.consumer.Looking? ==> s.consumed + s.consumer.len <= |s.accepted|)
    && s.rxTotal == Wrap(s.consumed + if s.consumer.Passing? then s.consumer.len else 0)
  }

  lemma TargetIsNext(s: Sys)
    requires Inv(s) && Enabled(s, CopyByte)
    ensures Target(s, s.producer.done) == Masked(Copied(s))
  {
    MaskSurvivesWrap(|s.accepted|);
    MaskedAhead(|s.accepted|, s.producer.done);
  }

  lemma CallbackKeepsInv(s: Sys, chunk: Chunk)
    requires Inv(s) && Enabled(s, Callback(chunk))
    ensures Inv(Step(s, Callback(chunk)))
  {
    UnreadCount(|s.accepted|, s.consumed);
    var r := Step(s, Callback(chunk));
    forall p | s.consumed <= p < |s.accepted|
      ensures r.ring[Masked(p)] == Log(r)[p]
    {
      assert Log(s)[p] == s.accepted[p];
    }
  }

  lemma CopyByteKeepsInv(s: Sys)
    requires Inv(s) && Enabled(s, CopyByte)
    ensures Inv(Step(s, CopyByte))
  {
    hide Masked, Target;
    TargetIsNext(s);
    WriteBehind(s.ring, Log(s), s.consumed, Copied(s));
    assert Log(s)[Copied(s)] == s.producer.chunk[s.producer.done];
  }

  lemma PublishKeepsInv(s: Sys)
    requires Inv(s) && Enabled(s, Publish)
    ensures Inv(Step(s, Publish))
  {
    hide Masked;
    var r := Step(s, Publish);
    assert Log(r) == Log(s);
    SumWraps(|s.accepted|, |s.producer.chunk|);
  }

  lemma LookAndCountKeepInv(s: Sys, ev: Event)
    requires Inv(s) && Enabled(s, ev) && (ev.Look? || ev.Count?)
    ensures Inv(Step(s, ev))
  {
    hide Masked, Intact, Wrap;
    UnreadCount(|s.accepted|, s.consumed);
    if ev.Count? {
      SumWraps(s.consumed, s.consumer.len);
    }
  }

  lemma PassKeepsInv(s: Sys)
    requires Inv(s) && Enabled(s, Pass)
    ensures Inv(Step(s, Pass))
  {
    hide Masked, Wrap;
    SumWraps(s.consumed, s.consumer.len);
  }

  lemma StepKeepsInv(s: Sys, ev: Event)
    requires Inv(s) && Enabled(s, ev)
    ensures Inv(Step(s, ev))
  {
    hide Inv, Step, Enabled;
    match ev
    case Callback(chunk) => CallbackKeepsInv(s, chunk);
    case CopyByte => CopyByteKeepsInv(s);
    case Publish => PublishKeepsInv(s);
    case Pass => PassKeepsInv(s);
    case _ => LookAndCountKeepInv(s, ev);
  }

  // ---------- runs ----------

  ghost predicate Created(s: Sys) {
    && |s.ring| == LOG_BUFF_SIZE && s.pRead == s.pWrite == s.rxTotal == 0
    && s.producer.Waiting? && s.consumer.Looking? && s.accepted == [] && s.consumed == 0
  }

  ghost predicate Run(states: seq<Sys>, evs: seq<Event>) {
    && |states| == |evs| + 1 && Created(states[0])
    && (forall i :: 0 <= i < |evs| ==> Enabled(states[i], evs[i]) && states[i + 1] == Step(states[i], evs[i]))
  }

  lemma {:induction false} RunKeepsInv(states: seq<Sys>, evs: seq<Event>, i: nat)
    requires Run(states, evs) && i < |states|
    ensures Inv(states[i])
  {
    hide Step, Enabled;
    if i > 0 {
      hide Inv;
      RunKeepsInv(states, evs, i - 1);
      StepKeepsInv(states[i - 1], evs[i - 1]);
    }
  }

  /** The unread bytes as the log task would read them, from p_read on. */
  ghost function Unread(s: Sys): (r: seq<byte>)
    requires |s.ring| == LOG_BUFF_SIZE
  {
    seq(Wrap(s.pWrite - s.pRead), k requires 0 <= k => s.ring[Masked(s.pRead + k)])
  }

  /** In every interleaving, however often the counters wrap: the counters' difference stays below
      the size of the ring, and from p_read on the ring holds exactly the last accepted bytes, in
      order. */
  lemma UnreadIsTheLastAccepted(states: seq<Sys>, evs: seq<Event>, i: nat)
    requires Run(states, evs) && i < |states|
    ensures var s := states[i];
            && |s.ring| == LOG_BUFF_SIZE && |Unread(s)| == Wrap(s.pWrite - s.pRead) < LOG_BUFF_SIZE
            && |Unread(s)| <= |s.accepted| && Unread(s) == s.accepted[|s.accepted| - |Unread(s)|..]
  {
    hide Step, Enabled, Created;
    RunKeepsInv(states, evs, i);
    var s := states[i];
    UnreadCount(|s.accepted|, s.consumed);
    forall k | 0 <= k < |Unread(s)|
      ensures Unread(s)[k] == s.accepted[s.consumed + k]
    {
      SumWraps(s.consumed, k);
      MaskSurvivesWrap(s.consumed + k);
      MaskSurvivesWrap(s.pRead + k);
      assert Log(s)[s.consumed + k] == s.accepted[s.consumed + k];
    }
  }

  /** At the top of the log task's loop, the bytes counted and the bytes unread are all the bytes
      accepted, modulo 2^32. */
  lemma NothingIsUncounted(states: seq<Sys>, evs: seq<Event>, i: nat)
    requires Run(states, evs) && i < |states| && states[i].consumer.Looking?
    ensures var s := states[i]; Wrap(s.rxTotal + Wrap(s.pWrite - s.pRead)) == Wrap(|s.accepted|)
  {
    hide Step, Enabled, Created, Intact;
    RunKeepsInv(states, evs, i);
    var s := states[i];
    UnreadCount(|s.accepted|, s.consumed);
    SumWraps(s.consumed, |s.accepted| - s.consumed);
  }

  /** A dropped chunk is the last one: the callback that drops it starts no further receive, so
      nothing is accepted afterwards, even once the log task has emptied the ring. */
  lemma {:induction false} DropEndsReception(states: seq<Sys>, evs: seq<Event>, d: nat, i: nat)
    requires Run(states, evs) && d < i < |states| && evs[d].Callback?
    requires Wrap(Wrap(states[d].pWrite - states[d].pRead) + |evs[d].chunk|) >= LOG_BUFF_SIZE
    ensures !states[i].armed && states[i].producer.Waiting? && states[i].accepted == states[d].accepted
    decreases i
  {
    hide Created, Target, Masked;
    if i > d + 1 {
      DropEndsReception(states, evs, d, i - 1);
      assert Enabled(states[i - 1], evs[i - 1]);
    } else {
      assert Enabled(states[d], evs[d]);
    }
  }

  /** A chunk is taken exactly when it and the unread bytes together are fewer than the ring has
      places. */
  lemma ChunkIsTakenIff(s: Sys, chunk: Chunk)
    requires Inv(s) && Enabled(s, Callback(chunk))
    ensures Step(s, Callback(chunk)).producer.Copying? <==> |s.accepted| - s.consumed + |chunk| < LOG_BUFF_SIZE
  {
    UnreadCount(|s.accepted|, s.consumed);
  }

  ghost predicate Drops(s: Sys, ev: Event) {
    ev.Callback? && Inv(s) && Enabled(s, ev) && !Step(s, ev).producer.Copying?
  }

  /** Reception goes on as long as nothing is dropped: between chunks the next receive is armed in every
      run, once it was armed at first, if and only if no chunk has been dropped so far. */
  lemma {:induction false} ArmedUnlessDropped(states: seq<Sys>, evs: seq<Event>, i: nat)
    requires Run(states, evs) && states[0].armed && i < |states| && states[i].producer.Waiting?
    ensures states[i].armed <==> forall d :: 0 <= d < i ==> !Drops(states[d], evs[d])
  {
    ArmedOrCopying(states, evs, i);
  }

  lemma {:induction false} ArmedOrCopying(states: seq<Sys>, evs: seq<Event>, i: nat)
    requires Run(states, evs) && states[0].armed && i < |states|
    ensures states[i].armed || states[i].producer.Copying? <==> forall d :: 0 <= d < i ==> !Drops(states[d], evs[d])
    decreases i
  {
    hide Created, Target, Masked, Inv;
    RunKeepsInv(states, evs, i);
    if i > 0 {
      ArmedOrCopying(states, evs, i - 1);
      RunKeepsInv(states, evs, i - 1);
      assert Enabled(states[i - 1], evs[i - 1]);
    }
  }

  /** The log task passes over all that is unread, as soon as there is anything. */
  lemma LookSeesAll(s: Sys)
    requires Inv(s) && Enabled(s, Look)
    ensures Step(s, Look).consumer
         == if s.consumed == |s.accepted| then Looking else Counting(|s.accepted| - s.consumed)
  {
    UnreadCount(|s.accepted|, s.consumed);
  }
}
