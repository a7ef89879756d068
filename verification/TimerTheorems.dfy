/** Auto-reload timers neither lose, duplicate nor drift: over whole runs of the timer service,
    through expiries, reload commands and epoch changes. */
module TimerTheorems {
  import opened Ticks
  import opened ListSpec
  import opened DelayLists
  import opened TimerSpec

  datatype Event =
    | Request(c: Command)      // some task sends a command
    | Timers(n: nat)           // prvProcessTimerOrBlockTask at true time n
    | Command(n: nat)          // one command is received at true time n

  /** The daemon reads the clock at least once in 2^32 ticks, and serves a start command less than
      2^32 ticks after it was issued. */
  ghost predicate Enabled(s: Service, ev: Event) {
    match ev
    case Request(c) => CommandOk(s, c)
    case Timers(n) => s.last <= n < s.last + TICKS
    case Command(n) =>
      && s.last <= n < s.last + TICKS && s.commands != []
      && (s.commands[0].Start? ==> s.commands[0].time <= n < s.commands[0].time + TICKS)
  }

  ghost function Step(s: Service, ev: Event): (r: Service)
    requires Inv(s) && Enabled(s, ev)
  {
    match ev
    case Request(c) => Send(s, c)
    case Timers(n) => RunTimers(s, n)
    case Command(n) => RunCommand(s, n)
  }

  lemma StepKeepsInv(s: Service, ev: Event)
    requires Inv(s) && Enabled(s, ev)
    ensures Inv(Step(s, ev))
  {
    hide Sample, ProcessExpired, Obey;
    match ev
    case Request(c) =>
    case Timers(n) =>
      SampleKeepsInv(s, n);
      var a := Sample(s, n);
      if Epoch(n) == Epoch(s.last) && a.active != [] && a.active[0].value <= n {
        ProcessExpiredKeepsInv(a, n);
      }
    case Command(n) =>
      TakenKeepsInv(s);
      SampleKeepsInv(Taken(s), n);
      ObeyKeepsInv(Sample(Taken(s), n), s.commands[0], n);
  }

  // ---------- what concerns one timer ----------

  function Expiries(active: seq<Entry<TimerId>>, t: TimerId): (r: seq<int>)
    decreases active
  {
    if active == [] then []
    else (if active[0].owner == t then [active[0].value] else []) + Expiries(active[1..], t)
  }

  function CommandsFor(commands: seq<TimerSpec.Command>, t: TimerId): (r: seq<TimerSpec.Command>)
    decreases commands
  {
    if commands == [] then []
    else (if commands[0].timer == t then [commands[0]] else []) + CommandsFor(commands[1..], t)
  }

  /** The due times of timer t's callbacks so far. */
  function Callbacks(fired: seq<Firing>, t: TimerId): (r: seq<int>)
    decreases fired
  {
    if fired == [] then []
    else Callbacks(fired[..|fired| - 1], t)
         + if fired[|fired| - 1].timer == t then [fired[|fired| - 1].due] else []
  }

  lemma {:induction false} ExpiriesConcat(x: seq<Entry<TimerId>>, y: seq<Entry<TimerId>>, t: TimerId)
    ensures Expiries(x + y, t) == Expiries(x, t) + Expiries(y, t)
    decreases x
  {
    if x == [] {
      assert x + y == y;
    } else {
      ExpiriesConcat(x[1..], y, t);
      var z, own := x + y, if x[0].owner == t then [x[0].value] else [];
      assert z[0] == x[0] && z[1..] == x[1..] + y;
      assert Expiries(z, t) == own + (Expiries(x[1..], t) + Expiries(y, t));
      assert Expiries(x, t) == own + Expiries(x[1..], t);
    }
  }

  /** What an insertion does to the expiries of timer t. */
  lemma ExpiriesInsert(s: seq<Entry<TimerId>>, e: Entry<TimerId>, t: TimerId)
    ensures e.owner != t ==> Expiries(Insert(s, e), t) == Expiries(s, t)
    ensures e.owner == t && Expiries(s, t) == [] ==> Expiries(Insert(s, e), t) == [e.value]
  {
    var p := InsertPos(s, e.value);
    hide InsertPos;
    ExpiriesConcat(s[..p] + [e], s[p..], t);
    ExpiriesConcat(s[..p], [e], t);
    ExpiriesConcat(s[..p], s[p..], t);
    assert s[..p] + s[p..] == s;
  }

  lemma {:induction false} ExpiriesWithout(s: seq<Entry<TimerId>>, u: TimerId, t: TimerId)
    ensures Expiries(Without(s, u), t) == if u == t then [] else Expiries(s, t)
    decreases s
  {
    if s != [] {
      ExpiriesWithout(s[1..], u, t);
    }
  }

  lemma CommandsForFirst(x: seq<TimerSpec.Command>, t: TimerId)
    requires x != []
    ensures CommandsFor(x, t) == (if x[0].timer == t then [x[0]] else []) + CommandsFor(x[1..], t)
  {
  }

  lemma SequenceAssociates<T>(a: seq<T>, b: seq<T>, c: seq<T>)
    ensures a + (b + c) == (a + b) + c
  {
  }

  lemma {:induction false} CommandsForConcat(x: seq<TimerSpec.Command>, y: seq<TimerSpec.Command>, t: TimerId)
    ensures CommandsFor(x + y, t) == CommandsFor(x, t) + CommandsFor(y, t)
    decreases x
  {
    if x == [] {
      assert x + y == y;
    } else {
      var z := x + y;
      assert z[0] == x[0] && z[1..] == x[1..] + y;
      CommandsForConcat(x[1..], y, t);
      CommandsForFirst(x, t);
      CommandsForFirst(z, t);
      hide CommandsFor;
      SequenceAssociates(if x[0].timer == t then [x[0]] else [], CommandsFor(x[1..], t), CommandsFor(y, t));
    }
  }

  lemma CallbacksAppend(fired: seq<Firing>, f: Firing, t: TimerId)
    ensures Callbacks(fired + [f], t) == Callbacks(fired, t) + if f.timer == t then [f.due] else []
  {
    assert (fired + [f])[..|fired|] == fired;
  }

  /** c + p, c + 2p, ..., c + kp. */
  function Multiples(c: nat, p: nat, k: nat): (r: seq<int>)
    ensures |r| == k
    decreases k
  {
    if k == 0 then [] else Multiples(c, p, k - 1) + [c + k * p]
  }

  lemma {:induction false} MultipleAt(c: nat, p: nat, k: nat, i: nat)
    requires i < k
    ensures Multiples(c, p, k)[i] == c + (i + 1) * p
    decreases k
  {
    if i < k - 1 {
      MultipleAt(c, p, k - 1, i);
    }
  }

  /** Timer t's next expiry d is in exactly one place: on the list, or in a start command. */
  ghost predicate OneToken(s: Service, t: TimerId, d: int)
    requires t < |s.timers|
  {
    || (Expiries(s.active, t) == [d] && CommandsFor(s.commands, t) == [])
    || (Expiries(s.active, t) == [] && d >= s.timers[t].period
        && CommandsFor(s.commands, t) == [Start(t, d - s.timers[t].period)])
  }

  /** Timer t, which counts from c with period p, has fired k times since its callbacks were `was`: a
      one-shot timer once at most. */
  ghost predicate Fired(s: Service, t: TimerId, c: nat, p: nat, was: seq<int>, k: nat) {
    && t < |s.timers| && s.timers[t].period == p
    && Callbacks(s.fired, t) == was + Multiples(c, p, k)
    && (s.timers[t].autoReload || k == 0 ==> OneToken(s, t, c + (k + 1) * p))
    && (!s.timers[t].autoReload ==> k <= 1)
    && (!s.timers[t].autoReload && k == 1 ==> Off(s, t))
  }

  /** Timer t is on no list and in no command. */
  ghost predicate Off(s: Service, t: TimerId) {
    Expiries(s.active, t) == [] && CommandsFor(s.commands, t) == []
  }

  ghost predicate Regular(s: Service, t: TimerId, c: nat, p: nat, was: seq<int>) {
    exists k: nat :: Fired(s, t, c, p, was, k)
  }

  lemma Head(s: Service, t: TimerId)
    requires s.active != []
    ensures Expiries(s.active, t) == (if s.active[0].owner == t then [s.active[0].value]
        else []) + Expiries(s.active[1..], t)
  {
  }

  /** Taking an expiry of another timer, and whatever becomes of it, does not concern t. */
  lemma OthersStay(s: Service, r: Service, t: TimerId, c: nat, p: nat, was: seq<int>, k: nat)
    requires Fired(s, t, c, p, was, k) && t < |r.timers| && r.timers[t] == s.timers[t]
    requires Expiries(r.active, t) == Expiries(s.active, t)
    requires CommandsFor(r.commands, t) == CommandsFor(s.commands, t)
    requires Callbacks(r.fired, t) == Callbacks(s.fired, t)
    ensures Fired(r, t, c, p, was, k)
  {
  }

  lemma SendIsCounted(s: Service, cmd: TimerSpec.Command, t: TimerId)
    ensures CommandsFor(Send(s, cmd).commands, t) == CommandsFor(s.commands, t) + if cmd.timer == t then [cmd] else []
  {
    CommandsForConcat(s.commands, [cmd], t);
  }

  /** The head of the list fires and, if it reloads, does so on the list or by a command. */
  function Reload(s: Service, at: nat, onList: bool): (r: Service)
    requires s.active != [] && s.active[0].owner < |s.timers| && s.active[0].value >= 0
  {
    var u, due := s.active[0].owner, s.active[0].value;
    var a := Fire(s.(active := s.active[1..]), u, due, at);
    if !s.timers[u].autoReload then a
    else if onList then Activate(a, u, due + s.timers[u].period)
    else Send(a, Start(u, due))
  }

  lemma ReloadKeepsFired(s: Service, t: TimerId, c: nat, p: nat, was: seq<int>, k: nat, at: nat, onList: bool)
    requires Fired(s, t, c, p, was, k) && s.active != []
    requires s.active[0].owner < |s.timers| && s.active[0].value >= 0
    ensures Fired(Reload(s, at, onList), t, c, p, was, if s.active[0].owner == t then k + 1 else k)
  {
    hide Insert, Multiples, Callbacks, CommandsFor, Expiries;
    var u, due := s.active[0].owner, s.active[0].value;
    var a := Fire(s.(active := s.active[1..]), u, due, at);
    Head(s, t);
    CallbacksAppend(s.fired, Firing(u, due, at), t);
    ExpiriesInsert(a.active, Entry(u, due + s.timers[u].period), t);
    SendIsCounted(a, Start(u, due), t);
    if u == t {
      assert Expiries(s.active, t) == [due] && Expiries(a.active, t) == [];
      NextMultiple(c, p, k);
    } else {
      OthersStay(s, Reload(s, at, onList), t, c, p, was, k);
    }
  }

  lemma NextMultiple(c: nat, p: nat, k: nat)
    ensures Multiples(c, p, k + 1) == Multiples(c, p, k) + [c + (k + 1) * p]
    ensures c + (k + 1 + 1) * p == c + (k + 1) * p + p
  {
  }

  lemma {:induction false} DrainKeepsRegular(s: Service, t: TimerId, c: nat, p: nat, was: seq<int>, n: nat, b: nat)
    requires Drainable(s) && Regular(s, t, c, p, was)
    ensures Regular(Drain(s, n, b), t, c, p, was)
    decreases Slack(s.active, b)
  {
    hide Fired, Slack, Drainable;
    if s.active != [] && s.active[0].value < b {
      DrainableHead(s);
      DrainProgress(s, n, b);
      DrainOneOk(s, n, b);
      var k: nat :| Fired(s, t, c, p, was, k);
      var onList := s.active[0].value + s.timers[s.active[0].owner].period < b;
      ReloadKeepsFired(s, t, c, p, was, k, n, onList);
      assert DrainOne(s, n, b) == Reload(s, n, onList);
      DrainKeepsRegular(DrainOne(s, n, b), t, c, p, was, n, b);
    }
  }

  lemma SampleKeepsRegular(s: Service, t: TimerId, c: nat, p: nat, was: seq<int>, n: nat)
    requires Drainable(s) && Regular(s, t, c, p, was)
    ensures Regular(Sample(s, n), t, c, p, was)
  {
    var a := if Epoch(n) == Epoch(s.last) then s else Drain(s, n, Boundary(s.last));
    if Epoch(n) != Epoch(s.last) {
      DrainKeepsRegular(s, t, c, p, was, n, Boundary(s.last));
    }
    var k: nat :| Fired(a, t, c, p, was, k);
    assert Fired(a.(last := n), t, c, p, was, k);
  }

  lemma TimersKeepRegular(s: Service, t: TimerId, c: nat, p: nat, was: seq<int>, n: nat)
    requires Inv(s) && Enabled(s, Timers(n)) && Regular(s, t, c, p, was)
    ensures Regular(RunTimers(s, n), t, c, p, was)
  {
    hide Fired, Sample, Within;
    SampleKeepsInv(s, n);
    SampleKeepsRegular(s, t, c, p, was, n);
    var a := Sample(s, n);
    if Epoch(n) == Epoch(s.last) && a.active != [] && a.active[0].value <= n {
      ProcessExpiredKeepsInv(a, n);
      HeadOk(a);
      var k: nat :| Fired(a, t, c, p, was, k);
      var onList := n < a.active[0].value + a.timers[a.active[0].owner].period;
      ReloadKeepsFired(a, t, c, p, was, k, n, onList);
      assert ProcessExpired(a, n) == Reload(a, n, onList);
    }
  }

  // ---------- commands ----------

  /** A command of another timer does not concern t. */
  lemma OthersObey(s: Service, n: nat, t: TimerId, c: nat, p: nat, was: seq<int>, k: nat, cmd: TimerSpec.Command)
    requires Fired(s, t, c, p, was, k) && CommandOk(s, cmd) && cmd.timer != t
    ensures Fired(Obey(s, cmd, n), t, c, p, was, k)
  {
    hide Insert, Multiples, Callbacks, CommandsFor, Expiries;
    var u, r := cmd.timer, Obey(s, cmd, n);
    match cmd
    case Start(_, time) =>
      var expiry := time + s.timers[u].period;
      ExpiriesInsert(s.active, Entry(u, expiry), t);
      CallbacksAppend(s.fired, Firing(u, expiry, n), t);
      SendIsCounted(s, Start(u, expiry), t);
      OthersStay(s, r, t, c, p, was, k);
    case ChangePeriod(_, period) =>
      ExpiriesInsert(s.active, Entry(u, n + period), t);
      OthersStay(s, r, t, c, p, was, k);
    case _ =>
  }

  /** Draining does not concern a timer that is on no list. */
  ghost predicate SameFor(s: Service, r: Service, t: TimerId) {
    && r.timers == s.timers && Expiries(r.active, t) == Expiries(s.active, t)
    && CommandsFor(r.commands, t) == CommandsFor(s.commands, t) && Callbacks(r.fired, t) == Callbacks(s.fired, t)
  }

  lemma {:induction false} DrainKeepsOff(s: Service, t: TimerId, n: nat, b: nat)
    requires Drainable(s) && Expiries(s.active, t) == []
    ensures SameFor(s, Drain(s, n, b), t)
    decreases Slack(s.active, b)
  {
    hide Slack, Drainable, Insert, Callbacks, CommandsFor, Expiries;
    if s.active != [] && s.active[0].value < b {
      DrainableHead(s);
      DrainProgress(s, n, b);
      DrainOneOk(s, n, b);
      var u, due := s.active[0].owner, s.active[0].value;
      Head(s, t);
      CallbacksAppend(s.fired, Firing(u, due, n), t);
      ExpiriesInsert(s.active[1..], Entry(u, due + s.timers[u].period), t);
      SendIsCounted(s, Start(u, due), t);
      assert SameFor(s, DrainOne(s, n, b), t);
      DrainKeepsOff(DrainOne(s, n, b), t, n, b);
    }
  }

  lemma SampleKeepsOff(s: Service, t: TimerId, n: nat)
    requires Drainable(s) && Expiries(s.active, t) == []
    ensures SameFor(s, Sample(s, n), t)
  {
    if Epoch(n) != Epoch(s.last) {
      DrainKeepsOff(s, t, n, Boundary(s.last));
    }
  }

  /** After the head command has been taken off the queue, its timer is nowhere else, whatever list
      it was on. */
  lemma TakenIsOff(s: Service, t: TimerId, n: nat)
    requires Inv(s) && s.last <= n < s.last + TICKS && s.commands != [] && s.commands[0].timer == t
    ensures Inv(Taken(s)) && Drainable(Taken(s)) && CommandOk(Sample(Taken(s), n), s.commands[0])
    ensures var a := Sample(Taken(s), n);
            && a.timers == s.timers && Expiries(a.active, t) == []
            && CommandsFor(a.commands, t) == CommandsFor(s.commands[1..], t)
            && Callbacks(a.fired, t) == Callbacks(s.fired, t)
  {
    hide Sample, Within, Sorted, Expiries, Callbacks, CommandsFor;
    TakenKeepsInv(s);
    SampleKeepsInv(Taken(s), n);
    ExpiriesWithout(s.active, t, t);
    SampleKeepsOff(Taken(s), t, n);
  }

  /** The start command puts the expiry on the list, or fires it and starts anew. */
  lemma ObeyRestarts(s: Service, t: TimerId, c: nat, p: nat, was: seq<int>, k: nat, n: nat)
    requires t < |s.timers| && s.timers[t].period == p && Off(s, t) && (s.timers[t].autoReload || k == 0)
    requires Callbacks(s.fired, t) == was + Multiples(c, p, k)
    requires CommandOk(s, Start(t, c + k * p))
    ensures Regular(Obey(s, Start(t, c + k * p), n), t, c, p, was)
  {
    hide Insert, Multiples, Callbacks, CommandsFor, Expiries;
    var expiry := c + k * p + p;
    NextMultiple(c, p, k);
    assert expiry == c + (k + 1) * p;
    var r := Obey(s, Start(t, c + k * p), n);
    ExpiriesInsert(s.active, Entry(t, expiry), t);
    CallbacksAppend(s.fired, Firing(t, expiry, n), t);
    SendIsCounted(s, Start(t, expiry), t);
    assert Fired(r, t, c, p, was, if n < expiry then k else k + 1);
  }

  lemma CommandsKeepRegular(s: Service, t: TimerId, c: nat, p: nat, was: seq<int>, n: nat)
    requires Inv(s) && Enabled(s, Command(n)) && Regular(s, t, c, p, was)
    requires s.commands[0].timer == t ==> s.commands[0].Start?
    ensures Regular(RunCommand(s, n), t, c, p, was)
  {
    hide Insert, Multiples, Callbacks, Expiries, Within, Sorted, Sample, Obey;
    var k: nat :| Fired(s, t, c, p, was, k);
    var cmd, a := s.commands[0], Taken(s);
    TakenKeepsInv(s);
    SampleKeepsInv(a, n);
    ExpiriesWithout(s.active, cmd.timer, t);
    assert CommandsFor(s.commands, t) == (if cmd.timer == t then [cmd] else []) + CommandsFor(a.commands, t);
    if cmd.timer == t {
      assert CommandsFor(s.commands, t)[0] == cmd;
      assert c + (k + 1) * p - p == c + k * p;
      assert cmd == Start(t, c + k * p);
      TakenIsOff(s, t, n);
      ObeyRestarts(Sample(a, n), t, c, p, was, k, n);
    } else {
      OthersStay(s, a, t, c, p, was, k);
      SampleKeepsRegular(a, t, c, p, was, n);
      var j: nat :| Fired(Sample(a, n), t, c, p, was, j);
      OthersObey(Sample(a, n), n, t, c, p, was, j, cmd);
    }
  }

  // ---------- runs ----------

  ghost predicate Follows(s: Service, ev: Event, r: Service) {
    Enabled(s, ev) && (Inv(s) ==> r == Step(s, ev))
  }

  /** A run: states[i + 1] is what event i makes of states[i], from a state that makes sense. */
  ghost predicate Run(states: seq<Service>, evs: seq<Event>) {
    && |states| == |evs| + 1 && Inv(states[0])
    && (forall i :: 0 <= i < |evs| ==> Follows(states[i], evs[i], states[i + 1]))
  }

  lemma {:induction false} RunKeepsInv(states: seq<Service>, evs: seq<Event>, i: nat)
    requires Run(states, evs) && i < |states|
    ensures Inv(states[i])
  {
    hide Inv, Enabled, Step;
    if i > 0 {
      RunKeepsInv(states, evs, i - 1);
      assert Follows(states[i - 1], evs[i - 1], states[i]);
      StepKeepsInv(states[i - 1], evs[i - 1]);
    }
  }

  /** Timer t counts from c: its next expiry is one period after it, on the list or in a start
      command, and no other command for it is under way. */
  ghost predicate Counting(s: Service, t: TimerId, c: nat) {
    t < |s.timers| && OneToken(s, t, c + s.timers[t].period)
  }

  /** Timer t has just been started at time c and no other command for it is under way. */
  ghost predicate JustStarted(s: Service, t: TimerId, c: nat) {
    t < |s.timers| && Expiries(s.active, t) == [] && CommandsFor(s.commands, t) == [Start(t, c)]
  }

  lemma StartedCounts(s: Service, t: TimerId, c: nat)
    requires JustStarted(s, t, c)
    ensures Counting(s, t, c)
  {
  }

  /** No command for timer t is sent by anyone else from now on. */
  ghost predicate LeftAlone(evs: seq<Event>, t: TimerId) {
    forall i :: 0 <= i < |evs| ==> (evs[i].Request? ==> evs[i].c.timer != t)
  }

  lemma RegularCommand(s: Service, t: TimerId, c: nat, p: nat, was: seq<int>)
    requires Regular(s, t, c, p, was) && s.commands != [] && s.commands[0].timer == t
    ensures s.commands[0].Start?
  {
    var k: nat :| Fired(s, t, c, p, was, k);
    assert CommandsFor(s.commands, t)[0] == s.commands[0];
  }

  lemma HasCommand(s: Service, n: nat)
    requires Enabled(s, Command(n))
    ensures s.commands != []
  {
  }

  lemma StepKeepsRegular(s: Service, ev: Event, t: TimerId, c: nat, p: nat, was: seq<int>)
    requires Inv(s) && Enabled(s, ev) && Regular(s, t, c, p, was) && (ev.Request? ==> ev.c.timer != t)
    ensures Regular(Step(s, ev), t, c, p, was)
  {
    hide Inv, Enabled, RunTimers, RunCommand, Expiries, CommandsFor, Callbacks, Multiples;
    match ev
    case Request(cmd) =>
      var k: nat :| Fired(s, t, c, p, was, k);
      SendIsCounted(s, cmd, t);
      OthersStay(s, Send(s, cmd), t, c, p, was, k);
    case Timers(n) => TimersKeepRegular(s, t, c, p, was, n);
    case Command(n) =>
      HasCommand(s, n);
      if s.commands[0].timer == t {
        RegularCommand(s, t, c, p, was);
      }
      CommandsKeepRegular(s, t, c, p, was, n);
  }

  /** Auto-reload timers do not lose, duplicate or drift: in every state of every run, the
      callbacks of a timer that counts from c with period p have been exactly those for c + p,
      c + 2p, ..., c + kp, in this order, and its next expiry is in exactly one place.  A one-shot
      timer is called back once at most, for c + p, and is then nowhere. */
  lemma {:induction false} CallbacksAreRegular(states: seq<Service>, evs: seq<Event>, t: TimerId, c: nat, i: nat)
    requires Run(states, evs) && Counting(states[0], t, c) && LeftAlone(evs, t) && i < |states|
    ensures Regular(states[i], t, c, states[0].timers[t].period, Callbacks(states[0].fired, t))
  {
    hide Inv, Enabled, Step, Expiries, CommandsFor, Callbacks;
    var p, was := states[0].timers[t].period, Callbacks(states[0].fired, t);
    if i == 0 {
      assert was + Multiples(c, p, 0) == was;
      assert Fired(states[0], t, c, p, was, 0);
    } else {
      CallbacksAreRegular(states, evs, t, c, i - 1);
      RunKeepsInv(states, evs, i - 1);
      assert Follows(states[i - 1], evs[i - 1], states[i]);
      StepKeepsRegular(states[i - 1], evs[i - 1], t, c, p, was);
    }
  }

  // ---------- never early ----------

  /** No callback was made before it was due, or after n. */
  ghost predicate NoneEarly(fired: seq<Firing>, n: nat) {
    forall i :: 0 <= i < |fired| ==> fired[i].due <= fired[i].at <= n
  }

  lemma {:induction false} DrainNoneEarly(s: Service, n: nat, b: nat)
    requires Drainable(s) && NoneEarly(s.fired, n) && b <= n
    ensures NoneEarly(Drain(s, n, b).fired, n)
    decreases Slack(s.active, b)
  {
    hide Slack, Drainable, Insert;
    if s.active != [] && s.active[0].value < b {
      DrainableHead(s);
      DrainProgress(s, n, b);
      DrainOneOk(s, n, b);
      DrainNoneEarly(DrainOne(s, n, b), n, b);
    }
  }

  lemma SampleNoneEarly(s: Service, n: nat)
    requires Drainable(s) && NoneEarly(s.fired, s.last) && s.last <= n < s.last + TICKS
    ensures NoneEarly(Sample(s, n).fired, n)
  {
    if Epoch(n) != Epoch(s.last) {
      NextEpoch(s.last, n);
      DrainNoneEarly(s, n, Boundary(s.last));
    }
  }

  lemma StepNoneEarly(s: Service, ev: Event)
    requires Inv(s) && Enabled(s, ev) && NoneEarly(s.fired, s.last)
    ensures NoneEarly(Step(s, ev).fired, Step(s, ev).last)
  {
    hide Within, Sorted, Insert, Sample;
    match ev
    case Request(c) =>
    case Timers(n) =>
      SampleKeepsInv(s, n);
      SampleNoneEarly(s, n);
    case Command(n) =>
      TakenKeepsInv(s);
      SampleKeepsInv(Taken(s), n);
      SampleNoneEarly(Taken(s), n);
  }

  /** No callback of any timer is ever made before it is due. */
  lemma {:induction false} NeverEarly(states: seq<Service>, evs: seq<Event>, i: nat)
    requires Run(states, evs) && NoneEarly(states[0].fired, states[0].last) && i < |states|
    ensures NoneEarly(states[i].fired, states[i].last)
  {
    hide Inv, Enabled, Step, NoneEarly;
    if i > 0 {
      NeverEarly(states, evs, i - 1);
      RunKeepsInv(states, evs, i - 1);
      assert Follows(states[i - 1], evs[i - 1], states[i]);
      StepNoneEarly(states[i - 1], evs[i - 1]);
    }
  }

  // ---------- nothing left out ----------

  /** Everything is served: the command queue is empty, and at time n the daemon finds neither an
      expired timer nor a new epoch and goes to sleep. */
  ghost predicate Idle(s: Service, n: nat) {
    s.last <= n && s.commands == [] && Epoch(n) == Epoch(s.last) && (s.active == [] || s.active[0].value > n)
  }

  lemma {:induction false} ExpiriesMember(s: seq<Entry<TimerId>>, t: TimerId, v: int)
    requires v in Expiries(s, t)
    ensures exists i :: 0 <= i < |s| && s[i] == Entry(t, v)
    decreases s
  {
    if s[0].owner == t && s[0].value == v {
      assert s[0] == Entry(t, v);
    } else {
      ExpiriesMember(s[1..], t, v);
      var i :| 0 <= i < |s[1..]| && s[1..][i] == Entry(t, v);
      assert s[i + 1] == Entry(t, v);
    }
  }

  lemma {:induction false} CallbacksMember(fired: seq<Firing>, t: TimerId, v: int, n: nat)
    requires v in Callbacks(fired, t) && NoneEarly(fired, n)
    ensures v <= n
    decreases fired
  {
    var f := fired[|fired| - 1];
    if f.timer != t || f.due != v {
      CallbacksMember(fired[..|fired| - 1], t, v, n);
    }
  }

  lemma ConcatIn(x: seq<int>, y: seq<int>, i: nat)
    requires i < |y|
    ensures y[i] in x + y
  {
    assert (x + y)[|x| + i] == y[i];
  }

  /** Timer t has been called back for the first k multiples since its callbacks were `was`, and these
      are those up to n; a one-shot timer only for the first of them. */
  ghost predicate UpTo(s: Service, t: TimerId, c: nat, p: nat, was: seq<int>, n: nat, k: nat) {
    && t < |s.timers| && Callbacks(s.fired, t) == was + Multiples(c, p, k)
    && (k > 0 ==> c + k * p <= n)
    && (s.timers[t].autoReload || k == 0 ==> n < c + (k + 1) * p)
    && (!s.timers[t].autoReload ==> k <= 1)
  }

  /** When the daemon goes to sleep at time n, a timer that counts from c with period p has been
      called back exactly for the multiples up to n: c + kp <= n < c + (k + 1)p; a one-shot timer
      exactly for c + p if that is at most n. */
  lemma NothingIsLate(states: seq<Service>, evs: seq<Event>, t: TimerId, c: nat, i: nat, n: nat)
    requires Run(states, evs) && NoneEarly(states[0].fired, states[0].last)
    requires Counting(states[0], t, c) && LeftAlone(evs, t) && i < |states|
    requires Idle(states[i], n)
    ensures exists k: nat ::
              UpTo(states[i], t, c, states[0].timers[t].period, Callbacks(states[0].fired, t), n, k)
  {
    hide Step, Enabled, Callbacks, LeftAlone, NoneEarly, OneToken, Multiples;
    CallbacksAreRegular(states, evs, t, c, i);
    NeverEarly(states, evs, i);
    RunKeepsInv(states, evs, i);
    var p, was, s := states[0].timers[t].period, Callbacks(states[0].fired, t), states[i];
    var k: nat :| Fired(s, t, c, p, was, k);
    if s.timers[t].autoReload || k == 0 {
      NextIsAhead(s, t, c + (k + 1) * p, n);
    }
    if k > 0 {
      MultipleAt(c, p, k, k - 1);
      ConcatIn(was, Multiples(c, p, k), k - 1);
      CallbacksMember(s.fired, t, c + k * p, s.last);
    }
    assert UpTo(s, t, c, p, was, n, k);
  }

  /** A timer's next expiry lies ahead when the daemon is idle. */
  lemma NextIsAhead(s: Service, t: TimerId, d: int, n: nat)
    requires Inv(s) && t < |s.timers| && OneToken(s, t, d) && Idle(s, n)
    ensures n < d
  {
    assert Expiries(s.active, t) == [d];
    assert d in Expiries(s.active, t);
    ExpiriesMember(s.active, t, d);
    var j :| 0 <= j < |s.active| && s.active[j] == Entry(t, d);
    assert s.active[0].value <= s.active[j].value;
  }
}
