/** The software timer service of FreeRTOS/timers.c on an unbounded clock.

    One sorted list of true expiry times stands for the current and the overflow timer list; class
    TimerService has the lists, times and commands as the code has them. */
module TimerSpec {
  import opened Ticks
  import opened ListSpec
  import opened DelayLists

  type TimerId = nat

  datatype Timer = Timer(period: nat, autoReload: bool)

  /** A timer command.  Starting, restarting and resetting a timer are the same command to the
      daemon; deleting one frees it after it has been stopped. */
  datatype Command =
    | Start(timer: TimerId, time: nat)
    | Stop(timer: TimerId)
    | ChangePeriod(timer: TimerId, period: nat)
    | Delete(timer: TimerId)

  /** A callback: made at true time `at` for the expiry at true time `due`. */
  datatype Firing = Firing(timer: TimerId, due: nat, at: nat)

  datatype Service = Service(
    timers: seq<Timer>,
    active: seq<Entry<TimerId>>,
    last: nat,                    // when the daemon last read the clock (xLastTime)
    commands: seq<Command>,       // xTimerQueue
    fired: seq<Firing>)

  predicate PeriodOk(p: nat) {
    0 < p < TICKS
  }

  predicate CommandOk(s: Service, c: Command) {
    c.timer < |s.timers| && (c.ChangePeriod? ==> PeriodOk(c.period))
  }

  /** The start of the epoch after the one of true time n. */
  function Boundary(n: nat): (b: nat) {
    (Epoch(n) + 1) * TICKS
  }

  ghost predicate Within(active: seq<Entry<TimerId>>, count: nat, lo: int, hi: int) {
    forall i :: 0 <= i < |active| ==> active[i].owner < count && lo <= active[i].value < hi
  }

  /** Timers and commands make sense, and every expiry lies in the daemon's epoch or the next. */
  ghost predicate Inv(s: Service) {
    && (forall t :: 0 <= t < |s.timers| ==> PeriodOk(s.timers[t].period))
    && (forall i :: 0 <= i < |s.commands| ==> CommandOk(s, s.commands[i]))
    && Sorted(s.active)
    && Within(s.active, |s.timers|, Boundary(s.last) - TICKS, Boundary(s.last) + TICKS)
  }

  // ---------- what the daemon does ----------

  function Fire(s: Service, t: TimerId, due: nat, at: nat): (r: Service) {
    s.(fired := s.fired + [Firing(t, due, at)])
  }

  function Send(s: Service, c: Command): (r: Service) {
    s.(commands := s.commands + [c])
  }

  function Activate(s: Service, t: TimerId, expiry: nat): (r: Service) {
    s.(active := Insert(s.active, Entry(t, expiry)))
  }

  /** prvProcessExpiredTimer: the first timer has expired by n. */
  function ProcessExpired(s: Service, n: nat): (r: Service)
    requires s.active != [] && s.active[0].owner < |s.timers| && s.active[0].value >= 0
  {
    var t, due := s.active[0].owner, s.active[0].value;
    var a := s.(active := s.active[1..]);
    var b := if !s.timers[t].autoReload then a
             else if n >= due + s.timers[t].period then Send(a, Start(t, due))
             else Activate(a, t, due + s.timers[t].period);
    Fire(b, t, due, n)
  }

  /** One round of the loop of prvSwitchTimerLists: fire the first timer of the epoch that ended,
      and put it back if it expires in that epoch again. */
  function DrainOne(s: Service, n: nat, b: nat): (r: Service)
    requires s.active != [] && s.active[0].owner < |s.timers| && s.active[0].value >= 0
  {
    var t, due := s.active[0].owner, s.active[0].value;
    var a := Fire(s.(active := s.active[1..]), t, due, n);
    if !s.timers[t].autoReload then a
    else if due + s.timers[t].period < b then Activate(a, t, due + s.timers[t].period)
    else Send(a, Start(t, due))
  }

  /** How far the expiries before b are from b, in all. */
  function Slack(active: seq<Entry<TimerId>>, b: nat): (n: nat)
    decreases active
  {
    if active == [] then 0
    else (if active[0].value < b then b - active[0].value else 0) + Slack(active[1..], b)
  }

  lemma {:induction false} SlackConcat(x: seq<Entry<TimerId>>, y: seq<Entry<TimerId>>, b: nat)
    ensures Slack(x + y, b) == Slack(x, b) + Slack(y, b)
    decreases x
  {
    if x == [] {
      assert x + y == y;
    } else {
      SlackConcat(x[1..], y, b);
      assert (x + y)[1..] == x[1..] + y;
    }
  }

  lemma SlackInsert(s: seq<Entry<TimerId>>, e: Entry<TimerId>, b: nat)
    ensures Slack(Insert(s, e), b) == Slack(s, b) + (if e.value < b then b - e.value else 0)
  {
    var p := InsertPos(s, e.value);
    hide InsertPos;
    SlackConcat(s[..p] + [e], s[p..], b);
    SlackConcat(s[..p], [e], b);
    SlackConcat(s[..p], s[p..], b);
    assert s[..p] + s[p..] == s;
  }

  /** Every round of the drain loop brings the expiries nearer to the epoch boundary. */
  lemma DrainProgress(s: Service, n: nat, b: nat)
    requires s.active != [] && s.active[0].owner < |s.timers| && 0 <= s.active[0].value < b
    requires s.timers[s.active[0].owner].period > 0
    ensures Slack(DrainOne(s, n, b).active, b) < Slack(s.active, b)
  {
    hide Insert;
    var t, due := s.active[0].owner, s.active[0].value;
    SlackInsert(s.active[1..], Entry(t, due + s.timers[t].period), b);
  }

  ghost predicate Drainable(s: Service) {
    && (forall t :: 0 <= t < |s.timers| ==> PeriodOk(s.timers[t].period))
    && Sorted(s.active)
    && (forall i :: 0 <= i < |s.active| ==> s.active[i].owner < |s.timers| && s.active[i].value >= 0)
  }

  lemma InsertBounds(active: seq<Entry<TimerId>>, e: Entry<TimerId>, count: nat, lo: int, hi: int)
    requires Sorted(active) && Within(active, count, lo, hi)
    requires e.owner < count && lo <= e.value < hi
    ensures Sorted(Insert(active, e)) && Within(Insert(active, e), count, lo, hi)
  {
    InsertIsStable(active, e);
    forall i | 0 <= i < |active| + 1
      ensures Insert(active, e)[i].owner < count && lo <= Insert(active, e)[i].value < hi
    {
      InsertAt(active, e, i);
    }
  }

  lemma InsertDrainable(s: Service, e: Entry<TimerId>)
    requires Drainable(s) && e.owner < |s.timers| && e.value >= 0
    ensures Drainable(s.(active := Insert(s.active, e)))
  {
    InsertIsStable(s.active, e);
    forall i | 0 <= i < |s.active| + 1
      ensures Insert(s.active, e)[i].owner < |s.timers| && Insert(s.active, e)[i].value >= 0
    {
      InsertAt(s.active, e, i);
    }
  }

  lemma DrainOneOk(s: Service, n: nat, b: nat)
    requires Drainable(s) && s.active != []
    ensures Drainable(DrainOne(s, n, b)) && DrainOne(s, n, b).timers == s.timers && DrainOne(s, n, b).last == s.last
  {
    hide Insert;
    var t, due := s.active[0].owner, s.active[0].value;
    InsertDrainable(s.(active := s.active[1..]), Entry(t, due + s.timers[t].period));
  }

  /** The loop of prvSwitchTimerLists: everything that expired before b. */
  ghost function Drain(s: Service, n: nat, b: nat): (r: Service)
    requires Drainable(s)
    decreases Slack(s.active, b)
  {
    if s.active == [] || s.active[0].value >= b then s
    else
      DrainProgress(s, n, b);
      DrainOneOk(s, n, b);
      Drain(DrainOne(s, n, b), n, b)
  }

  /** prvSampleTimeNow. */
  ghost function Sample(s: Service, n: nat): (r: Service)
    requires Drainable(s)
  {
    (if Epoch(n) == Epoch(s.last) then s else Drain(s, n, Boundary(s.last))).(last := n)
  }

  /** prvProcessTimerOrBlockTask. */
  ghost function RunTimers(s: Service, n: nat): (r: Service)
    requires Inv(s) && s.last <= n < s.last + TICKS
  {
    var a := (SampleKeepsInv(s, n); Sample(s, n));
    if Epoch(n) != Epoch(s.last) || a.active == [] || a.active[0].value > n then a
    else ProcessExpired(a, n)
  }

  /** The case of prvProcessReceivedCommands for command c, whose timer is in no list. */
  function Obey(s: Service, c: Command, n: nat): (r: Service)
    requires CommandOk(s, c)
  {
    match c
    case Start(t, time) =>
      var expiry := time + s.timers[t].period;
      if n < expiry then Activate(s, t, expiry)
      else
        var a := Fire(s, t, expiry, n);
        if s.timers[t].autoReload then Send(a, Start(t, expiry)) else a
    case ChangePeriod(t, p) => Activate(s.(timers := s.timers[t := s.timers[t].(period := p)]), t, n + p)
    case Stop(_) => s
    case Delete(_) => s
  }

  /** The command is taken off the queue and its timer off its list before the clock is read. */
  function Taken(s: Service): (r: Service)
    requires s.commands != []
  {
    s.(commands := s.commands[1..], active := Without(s.active, s.commands[0].timer))
  }

  /** One round of prvProcessReceivedCommands. */
  ghost function RunCommand(s: Service, n: nat): (r: Service)
    requires Inv(s) && s.commands != [] && s.last <= n < s.last + TICKS
  {
    Obey((TakenKeepsInv(s); SampleKeepsInv(Taken(s), n); Sample(Taken(s), n)), s.commands[0], n)
  }

  lemma HeadOk(s: Service)
    requires Inv(s) && s.active != []
    ensures s.active[0].owner < |s.timers| && s.active[0].value >= 0
  {
  }

  lemma DrainableHead(s: Service)
    requires Drainable(s) && s.active != []
    ensures s.active[0].owner < |s.timers| && s.active[0].value >= 0
    ensures PeriodOk(s.timers[s.active[0].owner].period)
  {
  }

  lemma InvIsDrainable(s: Service)
    requires Inv(s)
    ensures Drainable(s)
  {
  }

  // ---------- the invariant ----------

  lemma TakenKeepsInv(s: Service)
    requires Inv(s) && s.commands != []
    ensures Inv(Taken(s)) && CommandOk(Taken(s), s.commands[0])
  {
    WithoutSorted(s.active, s.commands[0].timer);
    WithoutMember(s.active, s.commands[0].timer);
  }

  /** Between two epochs. */
  ghost predicate Draining(s: Service, lo: int, b: nat) {
    && Drainable(s)
    && (forall i :: 0 <= i < |s.commands| ==> CommandOk(s, s.commands[i]))
    && Within(s.active, |s.timers|, lo, b + TICKS)
  }

  lemma DrainOneCommands(s: Service, n: nat, lo: int, b: nat)
    requires Draining(s, lo, b) && s.active != []
    ensures var r := DrainOne(s, n, b); forall i :: 0 <= i < |r.commands| ==> CommandOk(r, r.commands[i])
  {
    hide Insert, Sorted, Within;
  }

  /** An expiry before the boundary is put back one period on. */
  lemma AgainWithin(rest: seq<Entry<TimerId>>, t: TimerId, next: nat, count: nat, lo: int, hi: int)
    requires Sorted(rest) && Within(rest, count, lo, hi) && t < count && lo <= next < hi
    ensures Within(Insert(rest, Entry(t, next)), count, lo, hi)
  {
    hide Insert, Sorted, Within;
    InsertBounds(rest, Entry(t, next), count, lo, hi);
  }

  lemma RestWithin(active: seq<Entry<TimerId>>, count: nat, lo: int, hi: int)
    requires active != [] && Sorted(active) && Within(active, count, lo, hi)
    ensures Sorted(active[1..]) && Within(active[1..], count, lo, hi)
    ensures active[0].owner < count && lo <= active[0].value
  {
  }

  lemma DrainOneWithin(s: Service, n: nat, lo: int, b: nat)
    requires Draining(s, lo, b) && s.active != [] && s.active[0].value < b
    ensures Within(DrainOne(s, n, b).active, |s.timers|, lo, b + TICKS)
  {
    hide Insert, Sorted, Within, CommandOk, PeriodOk;
    RestWithin(s.active, |s.timers|, lo, b + TICKS);
    var next := s.active[0].value + s.timers[s.active[0].owner].period;
    if next < b {
      AgainWithin(s.active[1..], s.active[0].owner, next, |s.timers|, lo, b + TICKS);
    }
  }

  lemma DrainOneKeeps(s: Service, n: nat, lo: int, b: nat)
    requires Draining(s, lo, b) && s.active != [] && s.active[0].value < b
    ensures Draining(DrainOne(s, n, b), lo, b)
  {
    DrainOneCommands(s, n, lo, b);
    DrainOneWithin(s, n, lo, b);
    DrainOneOk(s, n, b);
    hide DrainOne, Within, CommandOk;
  }

  /** The drain loop leaves exactly what expires after the boundary. */
  lemma {:induction false} DrainKeeps(s: Service, n: nat, lo: int, b: nat)
    requires Draining(s, lo, b)
    ensures Draining(Drain(s, n, b), lo, b) && Drain(s, n, b).timers == s.timers
    ensures Within(Drain(s, n, b).active, |s.timers|, b, b + TICKS)
    ensures Drain(s, n, b).last == s.last
    decreases Slack(s.active, b)
  {
    hide DrainOne, Slack;
    if s.active != [] && s.active[0].value < b {
      DrainProgress(s, n, b);
      DrainOneOk(s, n, b);
      DrainOneKeeps(s, n, lo, b);
      DrainKeeps(DrainOne(s, n, b), n, lo, b);
    }
  }

  lemma NextEpoch(c: nat, n: nat)
    requires c <= n < c + TICKS && Epoch(n) != Epoch(c)
    ensures Boundary(n) == Boundary(c) + TICKS && Boundary(c) <= n
  {
    WrapOrder(c, n);
  }

  lemma SampleKeepsInv(s: Service, n: nat)
    requires Inv(s) && s.last <= n < s.last + TICKS
    ensures Drainable(s) && Inv(Sample(s, n))
    ensures Sample(s, n).timers == s.timers && Sample(s, n).last == n
  {
    assert Boundary(s.last) >= TICKS;
    if Epoch(n) != Epoch(s.last) {
      NextEpoch(s.last, n);
      DrainKeeps(s, n, Boundary(s.last) - TICKS, Boundary(s.last));
    }
  }

  lemma BoundaryAt(n: nat)
    ensures TICKS <= Boundary(n) <= n + TICKS && n < Boundary(n)
  {
  }

  lemma ActivateKeepsInv(s: Service, t: TimerId, expiry: nat)
    requires Inv(s) && t < |s.timers|
    requires Boundary(s.last) - TICKS <= expiry < Boundary(s.last) + TICKS
    ensures Inv(Activate(s, t, expiry))
  {
    hide Boundary, Insert, Within, Sorted;
    InsertBounds(s.active, Entry(t, expiry), |s.timers|, Boundary(s.last) - TICKS, Boundary(s.last) + TICKS);
  }

  lemma ProcessExpiredKeepsInv(s: Service, n: nat)
    requires Inv(s) && s.active != [] && s.active[0].value <= n && s.last == n
    ensures s.active[0].value >= 0 && Inv(ProcessExpired(s, n))
  {
    hide Boundary, Insert;
    BoundaryAt(n);
    var t, due := s.active[0].owner, s.active[0].value;
    var a := s.(active := s.active[1..]);
    assert Inv(a);
    if n < due + s.timers[t].period {
      ActivateKeepsInv(a, t, due + s.timers[t].period);
    }
  }

  lemma ObeyKeepsInv(s: Service, c: Command, n: nat)
    requires Inv(s) && CommandOk(s, c) && s.last == n
    requires c.Start? ==> c.time <= n
    ensures Inv(Obey(s, c, n))
  {
    hide Boundary, Insert;
    BoundaryAt(n);
    match c
    case Start(t, time) =>
      if n < time + s.timers[t].period {
        ActivateKeepsInv(s, t, time + s.timers[t].period);
      }
    case ChangePeriod(t, p) =>
      ActivateKeepsInv(s.(timers := s.timers[t := s.timers[t].(period := p)]), t, n + p);
    case _ =>
  }
}
