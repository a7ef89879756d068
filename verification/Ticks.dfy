/** The 32-bit tick clock of the kernel.

    `TickType_t` is a 32-bit unsigned integer.  Everywhere below a "true time" is an unbounded
    number of ticks since start-up, and the kernel only ever sees `Wrap` of it. */
module Ticks {

  const TICKS: int := 0x1_0000_0000

  type Tick = t: int | 0 <= t < TICKS

  /** portMAX_DELAY for 32-bit ticks. */
  const MAX_DELAY: Tick := 0xFFFF_FFFF

  /** C's conversion to an unsigned 32-bit value. */
  function Wrap(n: int): (t: Tick) {
    n % TICKS
  }

  /** How often the tick count has wrapped at true time n. */
  function Epoch(n: nat): (e: nat) {
    n / TICKS
  }

  /** The true time of wrapped value v in epoch e. */
  function InEpoch(e: nat, v: Tick): (n: nat) {
    e * TICKS + v
  }

  lemma EpochOf(e: nat, v: Tick)
    ensures Epoch(InEpoch(e, v)) == e && Wrap(InEpoch(e, v)) == v
  {
  }

  lemma TrueTime(n: nat)
    ensures n == InEpoch(Epoch(n), Wrap(n))
  {
  }

  /** A moment c at or before n, and less than one wrap old, shows in the wrapped values: the
      clock has wrapped since exactly when the newer value is the smaller one. */
  lemma WrapOrder(c: nat, n: nat)
    requires c <= n < c + TICKS
    ensures Wrap(n - c) == n - c == Wrap(Wrap(n) - Wrap(c))
    ensures if Wrap(n) < Wrap(c) then Epoch(n) == Epoch(c) + 1 else Epoch(n) == Epoch(c)
  {
    TrueTime(c);
    TrueTime(n);
  }
}
