/** Block times: vTaskSetTimeOutState and xTaskCheckForTimeOut, the retry loop that every blocking
    queue call builds on them, and the wake decision of vTaskDelayUntil. */
module Timeouts {
  import opened Ticks

  /** The test of xTaskCheckForTimeOut for a finite wait, on the values the kernel keeps. */
  predicate Expired(overflowsOnEntering: Tick, entered: Tick, wait: Tick, overflows: Tick, tick: Tick) {
    || (overflows != overflowsOnEntering && tick >= entered)
    || Wrap(tick - entered) >= wait
  }

  ghost predicate ExpiredAt(e: nat, wait: Tick, n: nat) {
    Expired(Wrap(Epoch(e)), Wrap(e), wait, Wrap(Epoch(n)), Wrap(n))
  }

  /** The elapsed time the kernel sees is never more than the true one. */
  lemma ElapsedIsLess(e: nat, n: nat)
    requires e <= n
    ensures Wrap(Wrap(n) - Wrap(e)) == Wrap(n - e) <= n - e
  {
    TrueTime(e);
    TrueTime(n);
  }

  /** A timeout is never reported early, however long ago the last check was. */
  lemma NeverEarly(e: nat, n: nat, wait: Tick)
    requires e <= n && ExpiredAt(e, wait, n)
    ensures n >= e + wait
  {
    ElapsedIsLess(e, n);
    if Wrap(Epoch(n)) != Wrap(Epoch(e)) && Wrap(n) >= Wrap(e) {
      TrueTime(e);
      TrueTime(n);
    }
  }

  /** For one wait, the answer is right within 2^32 ticks, or when it is that the wait is over. */
  lemma RightForOneWait(e: nat, n: nat, wait: Tick)
    requires e <= n
    ensures (ExpiredAt(e, wait, n) <==> n >= e + wait) <==> n < e + TICKS || ExpiredAt(e, wait, n)
  {
    ElapsedIsLess(e, n);
    if ExpiredAt(e, wait, n) {
      NeverEarly(e, n, wait);
    }
    if n < e + TICKS {
      WrapOrder(e, n);
    }
  }

  /** When exactly the two clock readings let the check be right, whatever the wait: the check comes
      less than 2^32 ticks after the start; or the overflow count differs and the tick count is not
      below the one at the start; or they are so far apart, modulo 2^32, that every finite wait is
      over. */
  lemma ExactIff(e: nat, n: nat)
    requires e <= n
    ensures (forall wait: Tick | wait < MAX_DELAY :: ExpiredAt(e, wait, n) <==> n >= e + wait)
       <==> (n < e + TICKS || (Wrap(Epoch(n)) != Wrap(Epoch(e)) && Wrap(n) >= Wrap(e)) || Wrap(n - e) >= MAX_DELAY - 1)
  {
    ElapsedIsLess(e, n);
    forall wait: Tick | wait < MAX_DELAY
      ensures (ExpiredAt(e, wait, n) <==> n >= e + wait) <==> n < e + TICKS || ExpiredAt(e, wait, n)
    {
      RightForOneWait(e, n, wait);
    }
    var longest: Tick := MAX_DELAY - 1;
    assert ExpiredAt(e, longest, n) <==>
           (Wrap(Epoch(n)) != Wrap(Epoch(e)) && Wrap(n) >= Wrap(e)) || Wrap(n - e) >= longest;
  }

  /** If the tick count wraps at most once between checks, the answer is right. */
  lemma ExactWithinOneWrap(e: nat, n: nat, wait: Tick)
    requires e <= n && Epoch(n) <= Epoch(e) + 1
    ensures ExpiredAt(e, wait, n) <==> n >= e + wait
  {
    RightForOneWait(e, n, wait);
    if n >= e + TICKS {
      TrueTime(e);
      TrueTime(n);
      EpochsDiffer(e, n);
    }
  }

  lemma EpochsDiffer(e: nat, n: nat)
    requires Epoch(n) == Epoch(e) + 1
    ensures Wrap(Epoch(n)) != Wrap(Epoch(e))
  {
  }

  /** With two wraps in between, an overdue wait of 10 ticks is taken for one that has 9 left. */
  lemma OverdueMissed()
    ensures !ExpiredAt(TICKS - 1, 10, 2 * TICKS) && 2 * TICKS >= TICKS - 1 + 10
  {
  }

  /** TimeOut_t. */
  class TimeOut {
    var overflowCount: Tick
    var timeOnEntering: Tick
    /** The true time that was stored. */
    ghost var entered: nat

    ghost predicate Valid()
      reads this
    {
      overflowCount == Wrap(Epoch(entered)) && timeOnEntering == Wrap(entered)
    }

    constructor ()
    {
      overflowCount, timeOnEntering := 0, 0;
    }

    /** vTaskInternalSetTimeOutState at true time n. */
    method Set(ghost n: nat, overflows: Tick, tick: Tick)
      requires overflows == Wrap(Epoch(n)) && tick == Wrap(n)
      modifies this
      ensures Valid() && entered == n
    {
      overflowCount, timeOnEntering := overflows, tick;
      entered := n;
    }

    /** xTaskCheckForTimeOut at true time n: `entered + wait` is the deadline, which no check moves
        earlier, and no check within one wrap of the clock moves at all. */
    method Check(ghost n: nat, overflows: Tick, tick: Tick, wait: Tick) returns (timedOut: bool, left: Tick)
      requires Valid() && entered <= n
      requires overflows == Wrap(Epoch(n)) && tick == Wrap(n)
      modifies this
      ensures Valid()
      ensures wait == MAX_DELAY ==> !timedOut && left == MAX_DELAY && entered == old(entered)
      ensures timedOut ==> n >= old(entered) + wait && entered == old(entered)
      ensures timedOut ==> (left == 0 || left == wait) && (n < old(entered) + TICKS ==> left == 0)
      ensures !timedOut && wait != MAX_DELAY ==>
                entered == n && 0 < left <= wait && entered + left >= old(entered) + wait
      ensures wait != MAX_DELAY && Epoch(n) <= Epoch(old(entered)) + 1 ==>
                && (timedOut <==> n >= old(entered) + wait)
                && (!timedOut ==> entered + left == old(entered) + wait)
    {
      var elapsed := Wrap(tick - timeOnEntering);
      ElapsedIsLess(entered, n);
      if Epoch(n) <= Epoch(entered) + 1 {
        ExactWithinOneWrap(entered, n, wait);
      }
      if ExpiredAt(entered, wait, n) {
        NeverEarly(entered, n, wait);
      }
      if wait == MAX_DELAY {
        return false, wait;
      } else if overflows != overflowCount && tick >= timeOnEntering {
        return true, wait;
      } else if elapsed < wait {
        left := wait - elapsed;
        if Epoch(n) <= Epoch(entered) + 1 {
          NoWrapMissed(entered, n, wait);
        }
        Set(n, overflows, tick);
        return false, left;
      } else {
        return true, 0;
      }
    }
  }

  lemma NoWrapMissed(e: nat, n: nat, wait: Tick)
    requires e <= n && Epoch(n) <= Epoch(e) + 1 && !ExpiredAt(e, wait, n)
    ensures Wrap(Wrap(n) - Wrap(e)) == n - e
  {
    ExactWithinOneWrap(e, n, wait);
    WrapOrder(e, n);
  }

  /** What one round of the loop of xQueueReceive meets: the times of its first critical section and
      of its timeout check, and what it finds in the queue at the top and after a timeout. */
  datatype Round = Round(top: nat, hasData: bool, check: nat, emptyAtExit: bool)

  datatype Outcome = Received | ReportedEmpty(at: nat) | StillWaiting

  ghost predicate InOrder(rounds: seq<Round>) {
    && (forall i :: 0 <= i < |rounds| ==> rounds[i].top <= rounds[i].check)
    && (forall i :: 0 <= i < |rounds| - 1 ==> rounds[i].check <= rounds[i + 1].top)
  }

  /** Each check comes less than 2^32 ticks after the one before, or after the entry. */
  ghost predicate Near(rounds: seq<Round>) {
    && (rounds != [] ==> rounds[0].check < rounds[0].top + TICKS)
    && (forall i :: 0 <= i < |rounds| - 1 ==> rounds[i + 1].check < rounds[i].check + TICKS)
  }

  /** What a receive with a deadline should do, on the unbounded clock. */
  function Ideal(rounds: seq<Round>, deadline: nat, passed: bool): (r: Outcome)
    decreases rounds
  {
    if rounds == [] then StillWaiting
    else
      var round := rounds[0];
      if round.hasData then Received
      else if passed then ReportedEmpty(round.top)
      else if round.check >= deadline && round.emptyAtExit then ReportedEmpty(round.check)
      else Ideal(rounds[1..], deadline, round.check >= deadline)
  }

  ghost predicate NoData(rounds: seq<Round>, n: nat)
    requires n <= |rounds|
  {
    forall i :: 0 <= i < n ==> !rounds[i].hasData
  }

  /** At the top of round i the wait is over. */
  ghost predicate Over(rounds: seq<Round>, deadline: nat, passed: bool, i: nat)
    requires i < |rounds|
  {
    if i == 0 then passed else rounds[i - 1].check >= deadline
  }

  /** In none of the first n rounds was there a reason to give up. */
  ghost predicate GoesOn(rounds: seq<Round>, deadline: nat, passed: bool, n: nat)
    requires n <= |rounds|
  {
    forall i :: 0 <= i < n ==>
      !Over(rounds, deadline, passed, i) && !(rounds[i].check >= deadline && rounds[i].emptyAtExit)
  }

  /** What a receive with a deadline answers: it takes the first data it finds at the top of a round,
      even when the wait is over; it gives up only where it finds none, at the first top after the
      deadline or at the first check after it that finds the queue empty; and it goes on otherwise. */
  lemma {:induction false} IdealMeans(rounds: seq<Round>, deadline: nat, passed: bool)
    ensures match Ideal(rounds, deadline, passed)
            case Received => exists j :: 0 <= j < |rounds| && rounds[j].hasData && NoData(rounds, j)
                                         && GoesOn(rounds, deadline, passed, j)
            case ReportedEmpty(at) =>
              exists j :: 0 <= j < |rounds| && NoData(rounds, j + 1) && GoesOn(rounds, deadline, passed, j)
                          && if Over(rounds, deadline, passed, j) then at == rounds[j].top
                             else rounds[j].check >= deadline && rounds[j].emptyAtExit && at == rounds[j].check
            case StillWaiting => NoData(rounds, |rounds|) && GoesOn(rounds, deadline, passed, |rounds|)
    decreases rounds
  {
    if rounds != [] {
      var round, rest, over := rounds[0], rounds[1..], rounds[0].check >= deadline;
      if round.hasData {
        assert NoData(rounds, 0) && GoesOn(rounds, deadline, passed, 0);
      } else if passed || (over && round.emptyAtExit) {
        assert NoData(rounds, 1) && GoesOn(rounds, deadline, passed, 0);
      } else {
        IdealMeans(rest, deadline, over);
        forall n: nat | n <= |rest|
          ensures NoData(rest, n) ==> NoData(rounds, n + 1)
          ensures GoesOn(rest, deadline, over, n) ==> GoesOn(rounds, deadline, passed, n + 1)
        {
          OneRoundOn(rounds, deadline, passed, n);
        }
        match Ideal(rest, deadline, over)
        case Received =>
          var j :| 0 <= j < |rest| && rest[j].hasData && NoData(rest, j) && GoesOn(rest, deadline, over, j);
          assert rounds[j + 1] == rest[j];
          assert NoData(rounds, j + 1);
        case ReportedEmpty(at) =>
          var j :| 0 <= j < |rest| && NoData(rest, j + 1) && GoesOn(rest, deadline, over, j)
                   && if Over(rest, deadline, over, j) then at == rest[j].top
                      else rest[j].check >= deadline && rest[j].emptyAtExit && at == rest[j].check;
          assert rounds[j + 1] == rest[j];
          assert Over(rounds, deadline, passed, j + 1) == Over(rest, deadline, over, j);
          assert NoData(rounds, j + 2);
        case StillWaiting =>
      }
    }
  }

  lemma OneRoundOn(rounds: seq<Round>, deadline: nat, passed: bool, n: nat)
    requires rounds != [] && n < |rounds| && !rounds[0].hasData && !passed
    requires !(rounds[0].check >= deadline && rounds[0].emptyAtExit)
    ensures NoData(rounds[1..], n) ==> NoData(rounds, n + 1)
    ensures GoesOn(rounds[1..], deadline, rounds[0].check >= deadline, n) ==> GoesOn(rounds, deadline, passed, n + 1)
  {
    var rest, over := rounds[1..], rounds[0].check >= deadline;
    forall i | 1 <= i < n + 1
      ensures rounds[i] == rest[i - 1] && Over(rounds, deadline, passed, i) == Over(rest, deadline, over, i - 1)
    {
    }
    if GoesOn(rest, deadline, over, n) {
      forall i | 0 <= i < n + 1
        ensures !Over(rounds, deadline, passed, i) && !(rounds[i].check >= deadline && rounds[i].emptyAtExit)
      {
        if i > 0 {
          assert !Over(rest, deadline, over, i - 1);
        }
      }
    }
  }

  /** Where a report of emptiness comes from: the top of a round, or the look after a timeout, with
      no data at the top of any round so far. */
  ghost predicate SawEmpty(rounds: seq<Round>, at: nat, i: nat) {
    && i < |rounds| && NoData(rounds, i + 1)
    && (at == rounds[i].top || (at == rounds[i].check && rounds[i].emptyAtExit))
  }

  /** The retry loop of xQueueReceive, for any rounds of blocking, being woken and losing the race:
      it never reports the queue empty before the full wait has elapsed since it first found it
      empty, with portMAX_DELAY it never reports that at all, and when no check comes a whole wrap
      late it does exactly what one fixed deadline on the unbounded clock would do. */
  method ReceiveLoop(ticksToWait: Tick, rounds: seq<Round>) returns (r: Outcome)
    requires InOrder(rounds)
    ensures r.ReportedEmpty? ==> rounds != [] && ticksToWait != MAX_DELAY && r.at >= rounds[0].top + ticksToWait
    ensures r.Received? ==> exists j :: 0 <= j < |rounds| && rounds[j].hasData && NoData(rounds, j)
    ensures r.ReportedEmpty? ==> exists i :: SawEmpty(rounds, r.at, i)
    ensures r.StillWaiting? ==> NoData(rounds, |rounds|)
    ensures rounds != [] && ticksToWait != MAX_DELAY && Near(rounds) ==>
              r == Ideal(rounds, rounds[0].top + ticksToWait, ticksToWait == 0)
  {
    var timeOut := new TimeOut();
    var entryTimeSet, wait := false, ticksToWait;
    ghost var deadline := if rounds == [] then 0 else rounds[0].top + ticksToWait;
    var i := 0;
    while i < |rounds|
      invariant 0 <= i <= |rounds| && NoData(rounds, i)
      invariant entryTimeSet <==> i > 0
      invariant !entryTimeSet ==> wait == ticksToWait
      invariant entryTimeSet ==> timeOut.Valid() && timeOut.entered <= rounds[i - 1].check
      invariant entryTimeSet && ticksToWait == MAX_DELAY ==> wait == MAX_DELAY
      invariant entryTimeSet && ticksToWait != MAX_DELAY ==>
                  wait != MAX_DELAY
                  && if wait == 0 then rounds[i - 1].check >= deadline else timeOut.entered + wait >= deadline
      invariant ticksToWait != MAX_DELAY && Near(rounds) ==>
                  && Ideal(rounds[i..], deadline, wait == 0) == Ideal(rounds, deadline, ticksToWait == 0)
                  && (entryTimeSet && wait > 0 ==>
                        timeOut.entered == rounds[i - 1].check && timeOut.entered + wait == deadline)
    {
      var round := rounds[i];
      assert rounds[i..][0] == round && rounds[i..][1..] == rounds[i + 1..];
      if round.hasData {
        return Received;
      } else if wait == 0 {
        assert SawEmpty(rounds, round.top, i);
        return ReportedEmpty(round.top);
      } else if !entryTimeSet {
        timeOut.Set(round.top, Wrap(Epoch(round.top)), Wrap(round.top));
        entryTimeSet := true;
      }
      ghost var entered := timeOut.entered;
      if Near(rounds) && ticksToWait != MAX_DELAY {
        assert i > 0 ==> rounds[(i - 1) + 1].check < rounds[i - 1].check + TICKS;
        WrapOrder(entered, round.check);
      }
      var timedOut;
      timedOut, wait := timeOut.Check(round.check, Wrap(Epoch(round.check)), Wrap(round.check), wait);
      if timedOut && round.emptyAtExit {
        assert SawEmpty(rounds, round.check, i);
        return ReportedEmpty(round.check);
      }
      i := i + 1;
    }
    return StillWaiting;
  }

  /** The decision of vTaskDelayUntil: is the wake time still ahead? */
  predicate ShouldDelay(previousWake: Tick, increment: Tick, tick: Tick) {
    var timeToWake := Wrap(previousWake + increment);
    if tick < previousWake then timeToWake < previousWake && timeToWake > tick
    else timeToWake < previousWake || timeToWake > tick
  }

  /** For a previous wake time P less than one wrap ago, vTaskDelayUntil blocks exactly when
      P + increment is ahead, for exactly the ticks that are missing, and stores that time: a
      periodic task does not drift. */
  lemma DelayUntilIsExact(p: nat, increment: Tick, n: nat)
    requires p <= n < p + TICKS && increment > 0
    ensures ShouldDelay(Wrap(p), increment, Wrap(n)) <==> p + increment > n
    ensures p + increment > n ==> Wrap(Wrap(Wrap(p) + increment) - Wrap(n)) == p + increment - n
    ensures Wrap(Wrap(p) + increment) == Wrap(p + increment)
  {
    TrueTime(p);
    TrueTime(n);
    WrapOrder(p, n);
    var w := p + increment;
    assert Wrap(w) == if Wrap(p) + increment < TICKS then Wrap(p) + increment else Wrap(p) + increment - TICKS;
  }
}
