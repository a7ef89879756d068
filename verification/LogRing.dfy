/** The receive log of User/app_ch340.c: a ring of 2^20 bytes between the USB receive callback and
    the log task, indexed by two free-running 32-bit counters. */
module LogRing {
  import opened Common
  import opened Ticks

  const LOG_BUFF_SIZE: nat := 0x10_0000
  const RECV_BUFF_SIZE: nat := 128

  type Chunk = c: seq<byte> | |c| <= RECV_BUFF_SIZE witness []

  /** A free-running index and the code's mask. */
  function Masked(p: nat): (i: nat)
    ensures i < LOG_BUFF_SIZE
  {
    p % LOG_BUFF_SIZE
  }

  /** The wrap of the counter does not disturb the mask: 2^20 divides 2^32. */
  lemma MaskSurvivesWrap(n: nat)
    ensures Masked(Wrap(n)) == Masked(n)
  {
    assert n == TICKS * (n / TICKS) + Wrap(n);
    assert TICKS == LOG_BUFF_SIZE * 4096;
    assert n == LOG_BUFF_SIZE * (4096 * (n / TICKS)) + Wrap(n);
  }

  lemma MaskedAhead(p: nat, k: nat)
    requires k < LOG_BUFF_SIZE
    ensures Masked(p + k) == if Masked(p) + k < LOG_BUFF_SIZE then Masked(p) + k else Masked(p) + k - LOG_BUFF_SIZE
  {
  }

  lemma MaskedApart(p: nat, q: nat)
    requires p < q < p + LOG_BUFF_SIZE
    ensures Masked(p) != Masked(q)
  {
  }

  /** The difference of the counters is the difference of the true positions. */
  lemma UnreadCount(written: nat, read: nat)
    requires read <= written < read + TICKS
    ensures Wrap(Wrap(written) - Wrap(read)) == written - read
  {
    WrapOrder(read, written);
  }

  lemma SumWraps(n: nat, k: nat)
    ensures Wrap(Wrap(n) + k) == Wrap(n + k)
  {
    TrueTime(n);
  }

  /** The ring holds bytes lo..hi of the log. */
  ghost predicate Intact(ring: seq<byte>, log: seq<byte>, lo: nat, hi: nat)
    requires |ring| == LOG_BUFF_SIZE && hi <= |log|
  {
    forall p :: lo <= p < hi ==> ring[Masked(p)] == log[p]
  }

  lemma IntactAppend(ring: seq<byte>, log: seq<byte>, chunk: seq<byte>, lo: nat)
    requires |ring| == LOG_BUFF_SIZE && Intact(ring, log, lo, |log|)
    ensures Intact(ring, log + chunk, lo, |log|)
  {
  }

  lemma IntactEmpty(ring: seq<byte>, log: seq<byte>)
    requires |ring| == LOG_BUFF_SIZE
    ensures Intact(ring, log, |log|, |log|)
  {
  }

  /** A byte written behind the last one leaves the unread ones alone. */
  lemma WriteBehind(ring: seq<byte>, log: seq<byte>, lo: nat, hi: nat)
    requires |ring| == LOG_BUFF_SIZE && lo <= hi < |log| && hi < lo + LOG_BUFF_SIZE
    requires Intact(ring, log, lo, hi)
    ensures Intact(ring[Masked(hi) := log[hi]], log, lo, hi + 1)
  {
    forall p | lo <= p < hi
      ensures Masked(p) != Masked(hi)
    {
      MaskedApart(p, hi);
    }
  }

  class LogBuffer {
    const ring: array<byte>          // buf->buffer_base
    var pRead: Tick                  // p_read
    var pWrite: Tick                 // p_write
    var rxTotal: Tick                // rx_total_num
    var armed: bool                  // a USB receive is under way
    ghost var accepted: seq<byte>    // every byte accepted so far
    ghost var consumed: nat          // how many of them the log task has passed

    ghost predicate Valid()
      reads this, ring
    {
      && ring.Length == LOG_BUFF_SIZE
      && consumed <= |accepted| < consumed + LOG_BUFF_SIZE
      && pRead == Wrap(consumed) && pWrite == Wrap(|accepted|)
      && Intact(ring[..], accepted, consumed, |accepted|)
    }

    /** new_CH340_Application, and the first receive of the running application. */
    constructor ()
      ensures Valid() && fresh(ring) && accepted == [] && consumed == 0 && rxTotal == 0 && armed
    {
      ring := new byte[LOG_BUFF_SIZE](_ => 0);
      pRead := 0;
      pWrite := 0;
      rxTotal := 0;
      armed := true;
      accepted := [];
      consumed := 0;
    }

    /** One of the two memcpy calls of the callback: chunk bytes from..to to ring index `at` on. */
    method CopyIn(at: nat, chunk: Chunk, from: nat, to: nat)
      requires Valid() && from <= to <= |chunk| && at + (to - from) <= LOG_BUFF_SIZE
      requires |accepted| + |chunk| < consumed + LOG_BUFF_SIZE
      requires from < to ==> at == Masked(|accepted| + from)
      requires Intact(ring[..], accepted + chunk, consumed, |accepted| + from)
      modifies ring
      ensures Intact(ring[..], accepted + chunk, consumed, |accepted| + to)
    {
      var k := from;
      while k < to
        invariant from <= k <= to
        invariant Intact(ring[..], accepted + chunk, consumed, |accepted| + k)
      {
        MaskedAhead(|accepted| + from, k - from);
        WriteBehind(ring[..], accepted + chunk, consumed, |accepted| + k);
        ring[at + (k - from)] := chunk[k];
        k := k + 1;
      }
    }

    /** The one or two memcpy calls of the callback. */
    method CopyChunk(chunk: Chunk)
      requires Valid() && |accepted| + |chunk| < consumed + LOG_BUFF_SIZE
      modifies ring
      ensures Intact(ring[..], accepted + chunk, consumed, |accepted| + |chunk|)
    {
      hide Masked, Intact;
      MaskSurvivesWrap(|accepted|);
      var off := Masked(pWrite);
      IntactAppend(ring[..], accepted, chunk, consumed);
      MaskedAhead(|accepted|, 0);
      if off + |chunk| > LOG_BUFF_SIZE - 1 {
        var len := LOG_BUFF_SIZE - off;
        CopyIn(off, chunk, 0, len);
        MaskedAhead(|accepted|, len);
        CopyIn(0, chunk, len, |chunk|);
      } else {
        CopyIn(off, chunk, 0, |chunk|);
      }
    }

    /** USBH_CDC_ReceiveCallback with `chunk` in recv_buf.  A chunk that does not fit is dropped,
        and then no further receive is started. */
    method ReceiveCallback(chunk: Chunk) returns (taken: bool)
      requires Valid() && armed
      modifies this`pWrite, this`armed, this`accepted, ring
      ensures Valid() && armed == taken
      ensures taken <==> old(|accepted|) - consumed + |chunk| < LOG_BUFF_SIZE
      ensures accepted == if taken then old(accepted) + chunk else old(accepted)
    {
      hide Masked, Intact;
      UnreadCount(|accepted|, consumed);
      SumWraps(|accepted|, |chunk|);
      armed := false;
      if Wrap(Wrap(pWrite - pRead) + |chunk|) >= LOG_BUFF_SIZE {
        return false;
      }
      CopyChunk(chunk);
      pWrite := Wrap(pWrite + |chunk|);
      accepted := accepted + chunk;
      armed := true;
      taken := true;
    }

    /** One round of the loop of LOG_Task with nothing in between: everything unread is counted and
        passed. */
    method LogRound()
      requires Valid()
      modifies this`pRead, this`rxTotal, this`consumed
      ensures Valid() && consumed == |accepted|
      ensures rxTotal == Wrap(old(rxTotal) + |accepted| - old(consumed))
    {
      hide Masked, Intact;
      UnreadCount(|accepted|, consumed);
      SumWraps(consumed, |accepted| - consumed);
      IntactEmpty(ring[..], accepted);
      var len := Wrap(pWrite - pRead);
      if len > 0 {
        rxTotal := Wrap(rxTotal + len);
        pRead := Wrap(pRead + len);
        consumed := consumed + len;
      }
    }
  }
}
