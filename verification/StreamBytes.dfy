/** Index arithmetic and message framing of FreeRTOS/stream_buffer.c. */
module StreamBytes {
  import opened Common

  /** The largest buffer for which the code's size arithmetic cannot wrap in 32 bits. */
  const MAX_LENGTH: nat := 0x8000_0000

  /** sbBYTES_TO_STORE_MESSAGE_LENGTH. */
  const LENGTH_BYTES: nat := 4

  function Min(a: nat, b: nat): (m: nat) {
    if a <= b then a else b
  }

  // ---------- indices ----------

  /** The index k places ahead of i; the code subtracts the length once when it is reached. */
  function Ahead(len: nat, i: nat, k: nat): (j: nat)
    requires i < len && k <= len
    ensures j < len
  {
    if i + k >= len then i + k - len else i + k
  }

  /** prvBytesInBuffer. */
  function Distance(len: nat, tail: nat, head: nat): (n: nat)
    requires tail < len && head < len
    ensures n < len && Ahead(len, tail, n) == head
  {
    var count := len + head - tail;
    if count >= len then count - len else count
  }

  /** xStreamBufferSpacesAvailable. */
  function Spaces(len: nat, tail: nat, head: nat): (n: nat)
    requires tail < len && head < len
    ensures n == len - 1 - Distance(len, tail, head)
  {
    var space := len + tail - head - 1;
    if space >= len then space - len else space
  }

  lemma DistanceIs(len: nat, tail: nat, n: nat)
    requires tail < len && n < len
    ensures Distance(len, tail, Ahead(len, tail, n)) == n
  {
  }

  lemma AheadAgain(len: nat, i: nat, j: nat, k: nat)
    requires i < len && j + k <= len
    ensures Ahead(len, Ahead(len, i, j), k) == Ahead(len, i, j + k)
  {
  }

  lemma AheadApart(len: nat, i: nat, j: nat, k: nat)
    requires i < len && j < k < len
    ensures Ahead(len, i, j) != Ahead(len, i, k)
  {
  }

  /** n elements of a circular buffer, from index i on. */
  function Region<T>(buf: seq<T>, i: nat, n: nat): (r: seq<T>)
    requires i < |buf| && n <= |buf|
    ensures |r| == n && forall k :: 0 <= k < n ==> r[k] == buf[Ahead(|buf|, i, k)]
  {
    seq(n, k requires 0 <= k < n => buf[Ahead(|buf|, i, k)])
  }

  /** A byte written right behind a region extends it. */
  lemma RegionExtends<T>(buf: seq<T>, i: nat, n: nat, x: T)
    requires i < |buf| && n < |buf|
    ensures Region(buf[Ahead(|buf|, i, n) := x], i, n + 1) == Region(buf, i, n) + [x]
  {
    forall k | 0 <= k < n
      ensures Ahead(|buf|, i, k) != Ahead(|buf|, i, n)
    {
      AheadApart(|buf|, i, k, n);
    }
  }

  lemma RegionDrops<T>(buf: seq<T>, i: nat, j: nat, n: nat)
    requires i < |buf| && j <= n <= |buf|
    ensures Region(buf, Ahead(|buf|, i, j), n - j) == Region(buf, i, n)[j..]
  {
    forall k | 0 <= k < n - j
      ensures Ahead(|buf|, Ahead(|buf|, i, j), k) == Ahead(|buf|, i, j + k)
    {
      AheadAgain(|buf|, i, j, k);
    }
  }

  lemma RegionPrefix<T>(buf: seq<T>, i: nat, j: nat, n: nat)
    requires i < |buf| && j <= n <= |buf|
    ensures Region(buf, i, j) == Region(buf, i, n)[..j]
  {
  }

  // ---------- framing ----------

  /** A size_t as it lies in memory, least significant byte first. */
  function EncodeLength(n: nat): (r: seq<byte>)
    requires n < 0x1_0000_0000
    ensures |r| == LENGTH_BYTES
  {
    [n % 256, n / 256 % 256, n / 65536 % 256, n / 16777216]
  }

  function DecodeLength(r: seq<byte>): (n: nat)
    requires |r| == LENGTH_BYTES
    ensures n < 0x1_0000_0000
  {
    (r[0] as int) + 256 * (r[1] as int) + 65536 * (r[2] as int) + 16777216 * (r[3] as int)
  }

  lemma LengthRoundTrip(n: nat)
    requires n < 0x1_0000_0000
    ensures DecodeLength(EncodeLength(n)) == n
  {
    var a, b, c := n / 256, n / 65536, n / 16777216;
    assert n == 256 * a + n % 256;
    assert b == a / 256 && a == 256 * b + a % 256;
    assert c == b / 256 && b == 256 * c + b % 256;
  }

  type Message = m: seq<byte> | 0 < |m| < MAX_LENGTH witness [0]

  /** A message in the buffer: its length, then its bytes. */
  function Frame(m: Message): (r: seq<byte>)
    ensures |r| == LENGTH_BYTES + |m|
  {
    EncodeLength(|m|) + m
  }

  /** All bytes of a sequence of messages. */
  function Wire(ms: seq<Message>): (r: seq<byte>)
    decreases ms
  {
    if ms == [] then [] else Wire(ms[..|ms| - 1]) + Frame(ms[|ms| - 1])
  }

  lemma WireAppend(ms: seq<Message>, m: Message)
    ensures Wire(ms + [m]) == Wire(ms) + Frame(m)
  {
    assert (ms + [m])[..|ms|] == ms;
  }

  /** The bytes of the first messages come first. */
  lemma {:induction false} WirePrefix(ms: seq<Message>, k: nat)
    requires k <= |ms|
    ensures |Wire(ms[..k])| <= |Wire(ms)|
    ensures Wire(ms)[..|Wire(ms[..k])|] == Wire(ms[..k])
    decreases |ms|
  {
    if k == |ms| {
      assert ms[..k] == ms;
    } else {
      var front := ms[..|ms| - 1];
      WirePrefix(front, k);
      assert front[..k] == ms[..k];
      assert Wire(ms)[..|Wire(front)|] == Wire(front);
    }
  }

  /** Message k lies between the bytes of the first k and the first k + 1 messages. */
  lemma FrameAt(ms: seq<Message>, k: nat)
    requires k < |ms|
    ensures |Wire(ms[..k + 1])| == |Wire(ms[..k])| + LENGTH_BYTES + |ms[k]| <= |Wire(ms)|
    ensures Wire(ms)[|Wire(ms[..k])|..|Wire(ms[..k + 1])|] == Frame(ms[k])
  {
    WirePrefix(ms, k + 1);
    assert ms[..k + 1] == ms[..k] + [ms[k]];
    WireAppend(ms[..k], ms[k]);
    var a, b, w := |Wire(ms[..k])|, |Wire(ms[..k + 1])|, Wire(ms);
    assert w[a..b] == w[..b][a..];
  }

  /** Framing is unambiguous: whoever reads a length and then that many bytes gets the first
      message back, and the rest is the wire of the other messages. */
  lemma {:induction false} FirstMessage(ms: seq<Message>)
    requires ms != []
    ensures var w := Wire(ms);
            && |w| >= LENGTH_BYTES && DecodeLength(w[..LENGTH_BYTES]) == |ms[0]|
            && |w| >= LENGTH_BYTES + |ms[0]|
            && w[LENGTH_BYTES..LENGTH_BYTES + |ms[0]|] == ms[0]
            && w[LENGTH_BYTES + |ms[0]|..] == Wire(ms[1..])
    decreases |ms|
  {
    LengthRoundTrip(|ms[0]|);
    var w := Wire(ms);
    if |ms| == 1 {
      assert Wire(ms[..0]) == [];
      assert w == Frame(ms[0]);
      assert ms[1..] == [];
    } else {
      var front, last := ms[..|ms| - 1], ms[|ms| - 1];
      FirstMessage(front);
      assert w[..LENGTH_BYTES] == Wire(front)[..LENGTH_BYTES];
      assert w[LENGTH_BYTES..LENGTH_BYTES + |ms[0]|] == Wire(front)[LENGTH_BYTES..LENGTH_BYTES + |ms[0]|];
      assert ms[1..] == front[1..] + [last];
      WireAppend(front[1..], last);
      assert w[LENGTH_BYTES + |ms[0]|..] == Wire(front)[LENGTH_BYTES + |ms[0]|..] + Frame(last);
    }
  }
}
