/** The timer daemon of FreeRTOS/timers.c with its two lists of wrapped expiry times, proved to do
    what module TimerSpec says on the unbounded clock. */
module TimerDaemon {
  import opened Ticks
  import opened ListSpec
  import opened DelayLists
  import opened TimerSpec

  /** What prvInsertTimerInActiveList decides from three wrapped times. */
  datatype Placement = ProcessNow | InCurrent | InOverflow

  function Decide(nextExpiry: Tick, timeNow: Tick, commandTime: Tick, period: nat): (d: Placement) {
    if nextExpiry <= timeNow then
      if Wrap(timeNow - commandTime) >= period then ProcessNow else InOverflow
    else if timeNow < commandTime && nextExpiry >= commandTime then ProcessNow
    else InCurrent
  }

  /** The placement is exact: for a command issued at c and served at n, the timer is processed
      now exactly when c + p has passed, and otherwise goes on the list of the epoch that c + p
      lies in. */
  lemma PlacementIsExact(c: nat, n: nat, p: nat)
    requires c <= n < c + TICKS && PeriodOk(p)
    ensures Decide(Wrap(c + p), Wrap(n), Wrap(c), p)
         == if n >= c + p then ProcessNow else if Epoch(c + p) == Epoch(n) then InCurrent else InOverflow
    ensures n < c + p ==> c + p == InEpoch(if Epoch(c + p) == Epoch(n) then Epoch(n) else Epoch(n) + 1, Wrap(c + p))
  {
    WrapOrder(c, n);
    TrueTime(c);
    TrueTime(n);
    TrueTime(c + p);
    WrapOrder(c, c + p);
    if n < c + p {
      WrapOrder(n, c + p);
    } else {
      WrapOrder(c + p, n);
    }
  }

  function Wrapped(c: Command): (r: Command) {
    if c.Start? then Start(c.timer, Wrap(c.time)) else c
  }

  /** What the daemon does when it looks for expired timers. */
  datatype Outcome = Processed | Switched | Block(wait: Tick, forever: bool)

  /** A sleep ends no later than the next expiry, exactly then if it lies in this epoch, and is
      unlimited only when no timer is active. */
  ghost predicate SleepsUntilNext(active: seq<Entry<TimerId>>, n: nat, wait: Tick, forever: bool) {
    && (forever <==> active == [])
    && (active != [] ==>
          && n + wait <= active[0].value
          && (active[0].value < Boundary(n) ==> n + wait == active[0].value))
  }

  lemma WrapAgain(n: nat, d: nat)
    ensures Wrap(Wrap(n) + d) == Wrap(n + d)
  {
    TrueTime(n);
  }

  class TimerService {
    var timers: seq<Timer>
    var current: seq<Entry<TimerId>>     // pxCurrentTimerList
    var overflow: seq<Entry<TimerId>>    // pxOverflowTimerList
    var lastTime: Tick                   // xLastTime
    var commands: seq<Command>           // xTimerQueue, with wrapped times
    ghost var last: nat                  // the true time of lastTime
    ghost var sent: seq<Command>         // the commands with true times
    ghost var fired: seq<Firing>         // the callbacks made

    ghost function Abs(): (s: Service)
      reads this
    {
      Service(timers, Merged(current, overflow, Epoch(last)), last, sent, fired)
    }

    ghost predicate Queue()
      reads this
    {
      |sent| == |commands| && forall i :: 0 <= i < |sent| ==> commands[i] == Wrapped(sent[i])
    }

    ghost predicate Valid()
      reads this
    {
      Pair(current, overflow) && lastTime == Wrap(last) && Queue() && Inv(Abs())
    }

    /** xTimerGenericCommand; the queue is taken to have room. */
    method SendCommand(c: Command, ghost trueCommand: Command)
      requires Queue() && c == Wrapped(trueCommand)
      modifies this`commands, this`sent
      ensures Queue() && sent == old(sent) + [trueCommand]
    {
      commands := commands + [c];
      sent := sent + [trueCommand];
    }

    /** prvInsertTimerInActiveList for a command issued at true time c. */
    method InsertTimerInActiveList(t: TimerId, nextExpiry: Tick, timeNow: Tick, commandTime: Tick, ghost c: nat,
        ghost n: nat)
      returns (processNow: bool)
      requires Pair(current, overflow) && t < |timers| && PeriodOk(timers[t].period)
      requires c <= n < c + TICKS && Epoch(last) == Epoch(n)
      requires nextExpiry == Wrap(c + timers[t].period) && timeNow == Wrap(n) && commandTime == Wrap(c)
      modifies this`current, this`overflow
      ensures Pair(current, overflow)
      ensures processNow <==> n >= c + timers[t].period
      ensures processNow ==> current == old(current) && overflow == old(overflow)
      ensures !processNow ==> Abs() == Activate(old(Abs()), t, c + timers[t].period)
    {
      hide Insert, Merged;
      processNow := false;
      PlacementIsExact(c, n, timers[t].period);
      InsertCurrent(current, overflow, Epoch(n), t, nextExpiry);
      InsertOverflow(current, overflow, Epoch(n), t, nextExpiry);
      if nextExpiry <= timeNow {
        if Wrap(timeNow - commandTime) >= timers[t].period {
          processNow := true;
        } else {
          overflow := Insert(overflow, Entry(t, nextExpiry));
        }
      } else {
        if timeNow < commandTime && nextExpiry >= commandTime {
          processNow := true;
        } else {
          current := Insert(current, Entry(t, nextExpiry));
        }
      }
    }

    /** prvGetNextExpireTime. */
    method GetNextExpireTime() returns (next: Tick, listWasEmpty: bool)
      requires Pair(current, overflow)
      ensures listWasEmpty <==> current == []
      ensures next == if current == [] then 0 else current[0].value
    {
      listWasEmpty := current == [];
      next := if current == [] then 0 else current[0].value;
    }

    /** One round of the loop of prvSwitchTimerLists. */
    method DrainFirst(ghost n: nat)
      requires Pair(current, overflow) && Queue() && Drainable(Abs()) && current != []
      modifies this`current, this`commands, this`sent, this`fired
      ensures Pair(current, overflow) && Queue()
      ensures Abs() == DrainOne(old(Abs()), n, Boundary(last))
    {
      hide Insert, Merged, Drainable;
      PopCurrent(current, overflow, Epoch(last));
      var next: Tick, t := current[0].value, current[0].owner;
      assert Abs().active[0] == Entry(t, InEpoch(Epoch(last), next));
      DrainableHead(Abs());
      current := current[1..];
      fired := fired + [Firing(t, InEpoch(Epoch(last), next), n)];
      if timers[t].autoReload {
        var reload := Wrap(next + timers[t].period);
        assert reload > next <==> next + timers[t].period < TICKS;
        if reload > next {
          InsertCurrent(current, overflow, Epoch(last), t, reload);
          current := Insert(current, Entry(t, reload));
        } else {
          EpochOf(Epoch(last), next);
          SendCommand(Start(t, next), Start(t, InEpoch(Epoch(last), next)));
        }
      }
    }

    /** prvSwitchTimerLists, on the way from the epoch of `last` to the next. */
    method SwitchTimerLists(ghost n: nat)
      requires Pair(current, overflow) && Queue() && Inv(Abs())
      modifies this`current, this`overflow, this`commands, this`sent, this`fired
      ensures Pair(current, overflow) && Queue()
      ensures Drainable(old(Abs()))
      ensures Service(timers, Merged(current, overflow, Epoch(last) + 1), last, sent, fired)
           == Drain(old(Abs()), n, Boundary(last))
    {
      hide Insert, Merged, DrainOne, Slack, Inv, Within;
      InvIsDrainable(Abs());
      while current != []
        invariant Pair(current, overflow) && Queue() && Drainable(Abs())
        invariant Drain(Abs(), n, Boundary(last)) == Drain(old(Abs()), n, Boundary(last))
        decreases Slack(Abs().active, Boundary(last))
      {
        PopCurrent(current, overflow, Epoch(last));
        ghost var was := Abs();
        DrainProgress(was, n, Boundary(last));
        DrainOneOk(was, n, Boundary(last));
        DrainFirst(n);
      }
      FirstOfNextEpoch();
      SwapIsInvisible(overflow, Epoch(last));
      current, overflow := overflow, current;
    }

    /** Once the current list is empty nothing expires before the boundary. */
    lemma FirstOfNextEpoch()
      requires Pair(current, overflow) && current == []
      ensures Abs().active != [] ==> Abs().active[0].value >= Boundary(last)
    {
    }

    /** prvSampleTimeNow, when the tick count is that of true time n. */
    method SampleTimeNow(timeNow: Tick, ghost n: nat) returns (switched: bool)
      requires Valid() && last <= n < last + TICKS && timeNow == Wrap(n)
      modifies this
      ensures Valid() && last == n && switched == (Epoch(n) != Epoch(old(last)))
      ensures !switched ==> current == old(current) && overflow == old(overflow)
      ensures Abs() == (SampleKeepsInv(old(Abs()), n); Sample(old(Abs()), n))
    {
      hide Merged, Drainable, Within;
      SampleKeepsInv(Abs(), n);
      WrapOrder(last, n);
      if timeNow < lastTime {
        SwitchTimerLists(n);
        switched := true;
      } else {
        switched := false;
      }
      lastTime := timeNow;
      last := n;
    }

    /** The first expiry as the current list shows it. */
    lemma FirstExpiry(n: nat)
      requires Valid() && last == n
      ensures current != [] ==> Abs().active != [] && Abs().active[0].value == InEpoch(Epoch(n), current[0].value)
      ensures current == [] && overflow != [] ==> Abs().active != [] && Abs().active[0].value >= Boundary(n)
      ensures current == [] && overflow == [] ==> Abs().active == []
      ensures n == InEpoch(Epoch(n), Wrap(n)) && Boundary(n) == InEpoch(Epoch(n) + 1, 0)
    {
      TrueTime(n);
    }

    /** prvProcessExpiredTimer. */
    method ProcessExpiredTimer(next: Tick, timeNow: Tick, ghost n: nat)
      requires Valid() && last == n && timeNow == Wrap(n)
      requires current != [] && next == current[0].value && next <= timeNow
      modifies this
      ensures Valid() && last == old(last)
      ensures Abs() == (HeadOk(old(Abs())); ProcessExpired(old(Abs()), n))
    {
      hide Insert, Merged;
      ghost var was := Abs();
      HeadOk(was);
      FirstExpiry(n);
      ProcessExpiredKeepsInv(was, n);
      PopCurrent(current, overflow, Epoch(last));
      ghost var due := InEpoch(Epoch(n), next);
      EpochOf(Epoch(n), next);
      TrueTime(n);
      assert was.active[0] == Entry(current[0].owner, due) && due <= n < due + TICKS;
      var t := current[0].owner;
      assert t < |timers| && PeriodOk(timers[t].period);
      current := current[1..];
      if timers[t].autoReload {
        WrapAgain(due, timers[t].period);
        var processNow := InsertTimerInActiveList(t, Wrap(next + timers[t].period), timeNow, next, due, n);
        if processNow {
          SendCommand(Start(t, next), Start(t, due));
        }
      }
      fired := fired + [Firing(t, due, n)];
    }

    /** prvProcessTimerOrBlockTask with the preceding prvGetNextExpireTime. */
    method ProcessTimerOrBlock(timeNow: Tick, ghost n: nat) returns (o: Outcome)
      requires Valid() && last <= n < last + TICKS && timeNow == Wrap(n)
      modifies this
      ensures Valid() && last == n && Abs() == RunTimers(old(Abs()), n)
      ensures o.Block? ==> SleepsUntilNext(Abs().active, n, o.wait, o.forever)
    {
      hide Merged, Sample, Within, ProcessExpired;
      ghost var was := Abs();
      var next, listWasEmpty := GetNextExpireTime();
      var switched := SampleTimeNow(timeNow, n);
      if switched {
        o := Switched;
      } else {
        FirstExpiry(n);
        if !listWasEmpty && next <= timeNow {
          ProcessExpiredTimer(next, timeNow, n);
          o := Processed;
        } else {
          if listWasEmpty {
            listWasEmpty := overflow == [];
          }
          o := Block(Wrap(next - timeNow), listWasEmpty);
        }
      }
    }

    /** One round of prvProcessReceivedCommands, the clock being read at true time n. */
    method ProcessReceivedCommand(timeNow: Tick, ghost n: nat)
      requires Valid() && last <= n < last + TICKS && timeNow == Wrap(n) && commands != []
      requires sent[0].Start? ==> sent[0].time <= n < sent[0].time + TICKS
      modifies this
      ensures Valid() && last == n && Abs() == RunCommand(old(Abs()), n)
    {
      hide Merged, Sample, Within, Insert, Sorted;
      ghost var was, cmd := Abs(), sent[0];
      TakenKeepsInv(was);
      var c := commands[0];
      commands := commands[1..];
      sent := sent[1..];
      WithoutMerged(current, overflow, Epoch(last), c.timer);
      current, overflow := Without(current, c.timer), Without(overflow, c.timer);
      assert Abs() == Taken(was);
      SampleKeepsInv(Taken(was), n);
      var switched := SampleTimeNow(timeNow, n);
      ObeyKeepsInv(Abs(), cmd, n);
      match c
      case Start(t, time) => RestartTimer(t, time, timeNow, cmd.time, n);
      case ChangePeriod(t, period) => SetPeriod(t, period, timeNow, n);
      case Stop(_) =>
      case Delete(_) =>
    }

    /** The start cases of prvProcessReceivedCommands, for a command issued at true time c. */
    method RestartTimer(t: TimerId, time: Tick, timeNow: Tick, ghost c: nat, ghost n: nat)
      requires Valid() && last == n && timeNow == Wrap(n) && t < |timers|
      requires c <= n < c + TICKS && time == Wrap(c)
      modifies this
      ensures Valid() && last == n && Abs() == Obey(old(Abs()), Start(t, c), n)
    {
      hide Merged, Within, Insert, Sorted;
      ghost var was := Abs();
      ObeyKeepsInv(was, Start(t, c), n);
      WrapAgain(c, timers[t].period);
      var processNow := InsertTimerInActiveList(t, Wrap(time + timers[t].period), timeNow, time, c, n);
      if processNow {
        fired := fired + [Firing(t, c + timers[t].period, n)];
        if timers[t].autoReload {
          SendCommand(Start(t, Wrap(time + timers[t].period)), Start(t, c + timers[t].period));
        }
      }
    }

    /** The change-period case of prvProcessReceivedCommands. */
    method SetPeriod(t: TimerId, period: nat, timeNow: Tick, ghost n: nat)
      requires Valid() && last == n && timeNow == Wrap(n) && t < |timers| && PeriodOk(period)
      modifies this
      ensures Valid() && last == n && Abs() == Obey(old(Abs()), ChangePeriod(t, period), n)
    {
      hide Merged, Within, Insert, Sorted;
      ghost var was := Abs();
      ObeyKeepsInv(was, ChangePeriod(t, period), n);
      timers := timers[t := timers[t].(period := period)];
      WrapAgain(n, period);
      var processNow := InsertTimerInActiveList(t, Wrap(timeNow + period), timeNow, timeNow, n, n);
    }
  }
}
