/** What serving a timer command comes to, for the one timer it is for, and for the callbacks in every
    run that goes on from there. */
module TimerLaws {
  import opened Ticks
  import opened ListSpec
  import opened DelayLists
  import opened TimerSpec
  import opened TimerTheorems

  /** The head of the command queue is served at time n, and it is the only command for timer t. */
  ghost predicate Serves(s: Service, n: nat, c: TimerSpec.Command) {
    Inv(s) && Enabled(s, Command(n)) && s.commands[0] == c && CommandsFor(s.commands[1..], c.timer) == []
  }

  /** A start, restart or reset command makes the timer count from the time at which it was issued,
      whatever expiry it had before. */
  lemma StartServed(s: Service, n: nat, t: TimerId, c: nat)
    requires Serves(s, n, Start(t, c))
    ensures t < |s.timers|
    ensures Regular(RunCommand(s, n), t, c, s.timers[t].period, Callbacks(s.fired, t))
  {
    hide Sample, Obey, Within, Sorted, Expiries, Callbacks, CommandsFor;
    TakenIsOff(s, t, n);
    var a, was := Sample(Taken(s), n), Callbacks(s.fired, t);
    assert was + Multiples(c, s.timers[t].period, 0) == was;
    ObeyRestarts(a, t, c, s.timers[t].period, was, 0, n);
  }

  /** A change of period stores the period and makes the timer expire one such period from now, and
      makes no callback; other timers keep theirs. */
  lemma PeriodServed(s: Service, n: nat, t: TimerId, p: nat)
    requires Inv(s) && Enabled(s, Command(n)) && s.commands[0] == ChangePeriod(t, p)
    ensures var r := RunCommand(s, n);
            && t < |s.timers| == |r.timers| && r.timers[t] == Timer(p, s.timers[t].autoReload)
            && (forall u :: 0 <= u < |s.timers| && u != t ==> r.timers[u] == s.timers[u])
            && Expiries(r.active, t) == [n + p] && Callbacks(r.fired, t) == Callbacks(s.fired, t)
            && CommandsFor(r.commands, t) == CommandsFor(s.commands[1..], t)
  {
    hide Sample, Within, Sorted, Expiries, Callbacks, CommandsFor, Insert;
    TakenIsOff(s, t, n);
    ExpiriesInsert(Sample(Taken(s), n).active, Entry(t, n + p), t);
  }

  /** Stopping or deleting a timer takes it off, and makes no callback. */
  lemma StopServed(s: Service, n: nat, t: TimerId)
    requires Inv(s) && Enabled(s, Command(n)) && (s.commands[0] == Stop(t) || s.commands[0] == Delete(t))
    ensures var r := RunCommand(s, n);
            && r.timers == s.timers && Expiries(r.active, t) == [] && Callbacks(r.fired, t) == Callbacks(s.fired, t)
            && CommandsFor(r.commands, t) == CommandsFor(s.commands[1..], t)
  {
    hide Sample, Within, Sorted, Expiries, Callbacks, CommandsFor;
    TakenIsOff(s, t, n);
  }

  // ---------- runs that go on from a command ----------

  lemma RunFromNext(states: seq<Service>, evs: seq<Event>, n: nat)
    requires Run(states, evs) && evs != [] && evs[0] == Command(n)
    ensures Run(states[1..], evs[1..]) && Enabled(states[0], Command(n)) && states[1] == RunCommand(states[0], n)
  {
    assert Follows(states[0], evs[0], states[1]);
    StepKeepsInv(states[0], evs[0]);
    hide Inv, Step, Enabled;
    forall i | 0 <= i < |evs[1..]|
      ensures Follows(states[1..][i], evs[1..][i], states[1..][i + 1])
    {
      assert Follows(states[i + 1], evs[i + 1], states[i + 2]);
    }
  }

  /** In every run that begins with serving a change of period at n: the timer is called back for
      n + p, n + 2p, ... and nothing else, each once and in order. */
  lemma PeriodChangeIsRegular(states: seq<Service>, evs: seq<Event>, t: TimerId, p: nat, n: nat, i: nat)
    requires Run(states, evs) && LeftAlone(evs, t) && 0 < i < |states|
    requires evs[0] == Command(n) && Serves(states[0], n, ChangePeriod(t, p))
    ensures Regular(states[i], t, n, p, Callbacks(states[0].fired, t))
  {
    hide Inv, Enabled, RunTimers, RunCommand, Expiries, CommandsFor, Callbacks, Regular;
    RunFromNext(states, evs, n);
    PeriodServed(states[0], n, t, p);
    assert Counting(states[1], t, n);
    CallbacksAreRegular(states[1..], evs[1..], t, n, i - 1);
  }

  /** And when the daemon goes to sleep at m, it has been called back exactly for those up to m. */
  lemma PeriodChangeIsNotLate(states: seq<Service>, evs: seq<Event>, t: TimerId, p: nat, n: nat, i: nat, m: nat)
    requires Run(states, evs) && LeftAlone(evs, t) && 0 < i < |states| && NoneEarly(states[0].fired, states[0].last)
    requires evs[0] == Command(n) && Serves(states[0], n, ChangePeriod(t, p)) && Idle(states[i], m)
    ensures exists k: nat :: UpTo(states[i], t, n, p, Callbacks(states[0].fired, t), m, k)
  {
    hide Inv, Enabled, RunTimers, RunCommand, Expiries, CommandsFor, Callbacks, NoneEarly, Idle, UpTo;
    RunFromNext(states, evs, n);
    PeriodServed(states[0], n, t, p);
    NeverEarly(states, evs, 1);
    assert Counting(states[1], t, n);
    NothingIsLate(states[1..], evs[1..], t, n, i - 1, m);
  }

  /** In every run that begins with serving a start command issued at c: the callbacks count from c,
      whatever the timer did before. */
  lemma {:induction false} RestartIsRegular(states: seq<Service>, evs: seq<Event>, t: TimerId, c: nat, n: nat, i: nat)
    requires Run(states, evs) && LeftAlone(evs, t) && 0 < i < |states|
    requires evs[0] == Command(n) && Serves(states[0], n, Start(t, c))
    ensures t < |states[0].timers|
    ensures Regular(states[i], t, c, states[0].timers[t].period, Callbacks(states[0].fired, t))
    decreases i
  {
    hide Inv, Enabled, RunTimers, RunCommand, Expiries, CommandsFor, Callbacks;
    RunFromNext(states, evs, n);
    StartServed(states[0], n, t, c);
    if i > 1 {
      RestartIsRegular(states, evs, t, c, n, i - 1);
      RunKeepsInv(states, evs, i - 1);
      assert Follows(states[i - 1], evs[i - 1], states[i]);
      StepKeepsRegular(states[i - 1], evs[i - 1], t, c, states[0].timers[t].period, Callbacks(states[0].fired, t));
    }
  }

  // ---------- a timer that is off ----------

  /** A command that makes timer t run is served. */
  ghost predicate Restarts(s: Service, ev: Event, t: TimerId) {
    && ev.Command? && s.commands != [] && s.commands[0].timer == t
    && (s.commands[0].Start? || s.commands[0].ChangePeriod?)
  }

  lemma OffTimers(s: Service, n: nat, t: TimerId)
    requires Inv(s) && Enabled(s, Timers(n)) && Expiries(s.active, t) == []
    ensures var r := RunTimers(s, n);
            Expiries(r.active, t) == [] && Callbacks(r.fired, t) == Callbacks(s.fired, t)
  {
    hide Sample, Within, Sorted, Expiries, Callbacks, CommandsFor, Insert;
    SampleKeepsInv(s, n);
    SampleKeepsOff(s, t, n);
    var a := Sample(s, n);
    if Epoch(n) == Epoch(s.last) && a.active != [] && a.active[0].value <= n {
      HeadOk(a);
      var u, due := a.active[0].owner, a.active[0].value;
      Head(a, t);
      CallbacksAppend(a.fired, Firing(u, due, n), t);
      ExpiriesInsert(a.active[1..], Entry(u, due + a.timers[u].period), t);
    }
  }

  lemma OffCommands(s: Service, n: nat, t: TimerId)
    requires Inv(s) && Enabled(s, Command(n)) && Expiries(s.active, t) == [] && !Restarts(s, Command(n), t)
    ensures var r := RunCommand(s, n);
            Expiries(r.active, t) == [] && Callbacks(r.fired, t) == Callbacks(s.fired, t)
  {
    hide Sample, Within, Sorted, Expiries, Callbacks, CommandsFor, Insert;
    var c := s.commands[0];
    if c.timer == t {
      StopServed(s, n, t);
    } else {
      TakenKeepsInv(s);
      SampleKeepsInv(Taken(s), n);
      ExpiriesWithout(s.active, c.timer, t);
      SampleKeepsOff(Taken(s), t, n);
      OthersLeaveOff(Sample(Taken(s), n), c, n, t);
    }
  }

  lemma OthersLeaveOff(s: Service, c: TimerSpec.Command, n: nat, t: TimerId)
    requires CommandOk(s, c) && c.timer != t && Expiries(s.active, t) == []
    ensures Expiries(Obey(s, c, n).active, t) == [] && Callbacks(Obey(s, c, n).fired, t) == Callbacks(s.fired, t)
  {
    hide Expiries, Callbacks, Insert;
    match c
    case Start(u, time) =>
      ExpiriesInsert(s.active, Entry(u, time + s.timers[u].period), t);
      CallbacksAppend(s.fired, Firing(u, time + s.timers[u].period, n), t);
    case ChangePeriod(u, p) => ExpiriesInsert(s.active, Entry(u, n + p), t);
    case _ =>
  }

  /** A timer that is on no list makes no callback in any run, whatever commands are sent, until a
      start or period command of it is served. */
  lemma {:induction false} OffStaysOff(states: seq<Service>, evs: seq<Event>, t: TimerId, i: nat)
    requires Run(states, evs) && Expiries(states[0].active, t) == [] && i < |states|
    requires forall j :: 0 <= j < i ==> !Restarts(states[j], evs[j], t)
    ensures Expiries(states[i].active, t) == [] && Callbacks(states[i].fired, t) == Callbacks(states[0].fired, t)
    decreases i
  {
    hide Inv, Enabled, RunTimers, RunCommand, Expiries, Callbacks, Restarts;
    if i > 0 {
      OffStaysOff(states, evs, t, i - 1);
      RunKeepsInv(states, evs, i - 1);
      var s, ev := states[i - 1], evs[i - 1];
      assert Follows(s, ev, states[i]);
      match ev
      case Request(_) =>
      case Timers(n) => OffTimers(s, n, t);
      case Command(n) => OffCommands(s, n, t);
    }
  }

  /** So once a stop or delete command has been served, there is no further callback of the timer until
      it is started again or given a period. */
  lemma StoppedIsSilent(states: seq<Service>, evs: seq<Event>, t: TimerId, n: nat, i: nat)
    requires Run(states, evs) && 0 < i < |states| && evs[0] == Command(n)
    requires states[0].commands != [] && (states[0].commands[0] == Stop(t) || states[0].commands[0] == Delete(t))
    requires forall j :: 0 < j < i ==> !Restarts(states[j], evs[j], t)
    ensures Expiries(states[i].active, t) == [] && Callbacks(states[i].fired, t) == Callbacks(states[0].fired, t)
  {
    hide Inv, Enabled, RunTimers, RunCommand, Expiries, Callbacks, Restarts;
    RunFromNext(states, evs, n);
    StopServed(states[0], n, t);
    forall j | 0 <= j < i - 1
      ensures !Restarts(states[1..][j], evs[1..][j], t)
    {
      assert !Restarts(states[j + 1], evs[j + 1], t);
    }
    OffStaysOff(states[1..], evs[1..], t, i - 1);
  }

  // ---------- when the daemon looks at the timers ----------

  /** Within an epoch the daemon makes a callback exactly when a timer is due, for the one that is due
      first; otherwise it leaves everything alone. */
  lemma FirstDueFires(s: Service, n: nat)
    requires Inv(s) && Enabled(s, Timers(n)) && Epoch(n) == Epoch(s.last)
    ensures var (r, k) := (RunTimers(s, n), |s.fired|);
            if exists x :: x in s.active && x.value <= n
            then && |r.fired| == k + 1 && r.fired[..k] == s.fired && r.fired[k].at == n
                 && r.fired[k].due <= n && Entry(r.fired[k].timer, r.fired[k].due) in s.active
                 && forall x :: x in s.active ==> r.fired[k].due <= x.value
            else r.fired == s.fired && r.active == s.active && r.commands == s.commands
  {
    hide Insert;
    if x :| x in s.active && x.value <= n {
      var i :| 0 <= i < |s.active| && s.active[i] == x;
      assert s.active[0].value <= x.value;
      assert s.active[0] in s.active;
    }
  }

  lemma {:induction false} DrainKeepsFired(s: Service, n: nat, b: nat, f: Firing)
    requires Drainable(s) && f in s.fired
    ensures f in Drain(s, n, b).fired
    decreases Slack(s.active, b)
  {
    hide Insert;
    if s.active != [] && s.active[0].value < b {
      DrainProgress(s, n, b);
      DrainOneOk(s, n, b);
      DrainKeepsFired(DrainOne(s, n, b), n, b, f);
    }
  }

  lemma DrainOneKeeps(s: Service, n: nat, b: nat, x: Entry<TimerId>)
    requires Drainable(s) && s.active != [] && x in s.active
    ensures var r := DrainOne(s, n, b);
            if x == s.active[0] then Firing(x.owner, x.value, n) in r.fired else x in r.active
  {
    var t, next := s.active[0].owner, s.active[0].value + s.timers[s.active[0].owner].period;
    assert s.active == [s.active[0]] + s.active[1..];
    if x != s.active[0] {
      InsertKeeps(s.active[1..], Entry(t, next), x);
    }
    hide Insert;
  }

  lemma InsertKeeps(s: seq<Entry<TimerId>>, e: Entry<TimerId>, x: Entry<TimerId>)
    requires x in s
    ensures x in Insert(s, e)
  {
    var p := InsertPos(s, e.value);
    assert s == s[..p] + s[p..];
  }

  lemma {:induction false} DrainFires(s: Service, n: nat, b: nat, x: Entry<TimerId>)
    requires Drainable(s) && x in s.active && x.value < b
    ensures 0 <= x.value && Firing(x.owner, x.value, n) in Drain(s, n, b).fired
    decreases Slack(s.active, b)
  {
    hide Insert, DrainOne;
    var i :| 0 <= i < |s.active| && s.active[i] == x;
    assert s.active[0].value <= x.value;
    DrainProgress(s, n, b);
    DrainOneOk(s, n, b);
    DrainOneKeeps(s, n, b, x);
    if x == s.active[0] {
      DrainKeepsFired(DrainOne(s, n, b), n, b, Firing(x.owner, x.value, n));
    } else {
      DrainFires(DrainOne(s, n, b), n, b, x);
    }
  }

  /** When a new epoch has begun, every timer that was due in the old one is called back. */
  lemma OldEpochFires(s: Service, n: nat, x: Entry<TimerId>)
    requires Inv(s) && Enabled(s, Timers(n)) && Epoch(n) != Epoch(s.last)
    requires x in s.active && x.value < Boundary(s.last)
    ensures 0 <= x.value && Firing(x.owner, x.value, n) in RunTimers(s, n).fired
  {
    InvIsDrainable(s);
    hide Drain;
    DrainFires(s, n, Boundary(s.last), x);
  }
}
