/** What a step of the scheduler does to each task: laws on lists and flags alone, for every step
    and every run. */
module SchedulerLaws {
  import opened Ticks
  import opened ListSpec
  import opened DelayLists
  import opened SchedulerSpec
  import opened SchedulerRuns
  import opened SchedulerTheorems
  import Deferral

  // ---------- what ticks do ----------

  /** t sleeps until n at the latest. */
  ghost predicate Due(list: seq<Entry<Task>>, t: Task, n: int) {
    exists x :: x in list && x.owner == t && x.value <= n
  }

  /** A task that is at least as urgent as the running one sleeps until n at the latest. */
  ghost predicate UrgentDue(s: Sched, n: int)
    requires Shape(s)
  {
    exists x :: x in s.sleeping && x.value <= n && x.owner < |s.prio| && s.prio[x.owner] >= s.prio[s.current]
  }

  lemma DueHead(list: seq<Entry<Task>>, t: Task, n: int)
    requires list != []
    ensures Due(list, t, n) <==> (list[0].owner == t && list[0].value <= n) || Due(list[1..], t, n)
  {
    assert list == [list[0]] + list[1..];
    assert list[0] in list;
  }

  lemma NoneDue(list: seq<Entry<Task>>, t: Task, n: int)
    requires Sorted(list) && (list != [] ==> list[0].value > n)
    ensures !Due(list, t, n)
  {
  }

  lemma UrgentHead(s: Sched, r: Sched, n: int)
    requires Shape(s) && Shape(r) && s.sleeping != [] && s.sleeping[0].owner < |s.prio|
    requires r.sleeping == s.sleeping[1..] && r.prio == s.prio && r.current == s.current
    ensures UrgentDue(s, n) <==>
      (s.sleeping[0].value <= n && s.prio[s.sleeping[0].owner] >= s.prio[s.current]) || UrgentDue(r, n)
  {
    assert s.sleeping == [s.sleeping[0]] + r.sleeping;
    assert s.sleeping[0] in s.sleeping;
  }

  /** One waking: the head of the sleepers, x elsewhere in them, x on an event list, and a task u. */
  lemma WakeHeadEffect(s: Sched, x: Entry<Task>, e: nat, u: Task)
    requires Base(s) && AheadOrDue(s) && s.sleeping != [] && u < |s.prio|
    ensures s.sleeping[0] in s.sleeping
    ensures var (r, t) := (WakeHead(s), s.sleeping[0].owner);
            && r.sleeping == s.sleeping[1..] && r.prio == s.prio && r.current == s.current && r.now == s.now
            && |r.events| == |s.events|
            && (e < |s.events| ==> (x in r.events[e] <==> x in s.events[e] && x.owner != t))
            && (Ready(r, u) <==> Ready(s, u) || u == t)
  {
    hide OneHome, ReadyLists, AheadOrDue, WellFormed;
    assert s.sleeping[0] in s.sleeping;
    var t := s.sleeping[0].owner;
    if e < |s.events| {
      WithoutKeeps(s.events[e], t, x);
    }
    InsertEndMember(s.ready[s.prio[t]], t, u);
  }

  lemma {:induction false} WakeDueEffect(s: Sched, urgent: bool, x: Entry<Task>, e: nat, u: Task)
    requires Base(s) && AheadOrDue(s) && u < |s.prio|
    ensures var (r, asks) := WakeDue(s, urgent);
            && r.prio == s.prio && r.now == s.now && r.current == s.current && |r.events| == |s.events|
            && (x in r.sleeping <==> x in s.sleeping && x.value > s.now)
            && (e < |s.events| ==> (x in r.events[e] <==> x in s.events[e] && !Due(s.sleeping, x.owner, s.now)))
            && (Ready(r, u) <==> Ready(s, u) || Due(s.sleeping, u, s.now))
            && (asks <==> urgent || UrgentDue(s, s.now))
    decreases |s.sleeping|
  {
    hide OneHome, ReadyLists, WellFormed, WakeHead, Due, UrgentDue;
    if s.sleeping != [] && s.sleeping[0].value <= s.now {
      var h := s.sleeping[0];
      var r, n := WakeHead(s), s.now;
      WakeHeadEffect(s, x, e, u);
      WakeHeadKeeps(s, true);
      WakeDueEffect(r, urgent || s.prio[h.owner] >= s.prio[s.current], x, e, u);
      DueHead(s.sleeping, x.owner, n);
      DueHead(s.sleeping, u, n);
      UrgentHead(s, r, n);
      assert s.sleeping == [h] + r.sleeping;
    } else {
      NoneDue(s.sleeping, x.owner, s.now);
      NoneDue(s.sleeping, u, s.now);
      NoUrgentDue(s);
    }
  }

  lemma NoUrgentDue(s: Sched)
    requires Shape(s) && Sorted(s.sleeping) && (s.sleeping != [] ==> s.sleeping[0].value > s.now)
    ensures !UrgentDue(s, s.now)
  {
  }

  /** One tick: every task whose time has come leaves the sleepers and its event list and becomes
      ready, everything else stays where it is, and a switch is asked for if and only if one was
      pending, a woken task is at least as urgent as the running one, or others share its priority. */
  lemma TickWakesTheDue(s: Sched, x: Entry<Task>, e: nat, u: Task)
    requires Base(s) && Ahead(s) && u < |s.prio|
    ensures var (r, asks) := TickOne(s);
            && r.prio == s.prio && r.now == s.now + 1 && r.current == s.current && |r.events| == |s.events|
            && (x in r.sleeping <==> x in s.sleeping && x.value > s.now + 1)
            && (e < |s.events| ==> (x in r.events[e] <==> x in s.events[e] && !Due(s.sleeping, x.owner, s.now + 1)))
            && (Ready(r, u) <==> Ready(s, u) || Due(s.sleeping, u, s.now + 1))
            && (asks <==> s.yieldPending || UrgentDue(s, s.now + 1) || |r.ready[s.prio[s.current]].items| > 1)
  {
    hide OneHome, ReadyLists, WellFormed, WakeDue, Ahead, AheadOrDue, Due;
    ClockAdvanced(s, true);
    WakeDueEffect(s.(now := s.now + 1), false, x, e, u);
  }

  lemma LaterDue(list: seq<Entry<Task>>, rest: seq<Entry<Task>>, t: Task, n: int, m: int)
    requires n <= m && forall x :: x in rest <==> x in list && x.value > n
    ensures Due(list, t, m) <==> Due(list, t, n) || Due(rest, t, m)
  {
    if Due(list, t, m) && !Due(list, t, n) {
      var x :| x in list && x.owner == t && x.value <= m;
      assert x in rest;
    }
  }

  lemma LaterUrgent(s: Sched, r: Sched, n: int, m: int)
    requires Shape(s) && Shape(r) && r.prio == s.prio && r.current == s.current
    requires n <= m && forall x :: x in r.sleeping <==> x in s.sleeping && x.value > n
    ensures UrgentDue(s, m) <==> UrgentDue(s, n) || UrgentDue(r, m)
  {
    if UrgentDue(s, m) && !UrgentDue(s, n) {
      var x :| x in s.sleeping && x.value <= m && x.owner < |s.prio| && s.prio[x.owner] >= s.prio[s.current];
      assert x in r.sleeping;
    }
  }

  lemma {:induction false} WakeDueGrows(s: Sched, urgent: bool, p: nat)
    requires Shape(s) && Members(s) && p < MAX_PRIORITIES
    ensures |WakeDue(s, urgent).0.ready[p].items| >= |s.ready[p].items|
    decreases |s.sleeping|
  {
    hide DropEvent, Members;
    if s.sleeping != [] && s.sleeping[0].value <= s.now {
      Deferral.FirstSleeper(s);
      WakeHeadMembers(s);
      WakeDueGrows(WakeHead(s), urgent || s.prio[s.sleeping[0].owner] >= s.prio[s.current], p);
    }
  }

  /** The second loop of xTaskResumeAll: n ticks at once. */
  lemma {:induction false} UnwindEffect(s: Sched, n: nat, x: Entry<Task>, e: nat, u: Task)
    requires Base(s) && Ahead(s) && RunsHighest(s) && u < |s.prio|
    ensures var r := UnwindTicks(s, n);
            && r.prio == s.prio && r.now == s.now + n && r.current == s.current && |r.events| == |s.events|
            && (x in r.sleeping <==> x in s.sleeping && x.value > s.now + n)
            && (e < |s.events| ==> (x in r.events[e] <==> x in s.events[e] && !Due(s.sleeping, x.owner, s.now + n)))
            && (Ready(r, u) <==> Ready(s, u) || Due(s.sleeping, u, s.now + n))
            && (r.yieldPending <==> s.yieldPending || UrgentDue(s, s.now + n)
                                    || (n > 0 && |r.ready[s.prio[s.current]].items| > 1))
            && |r.ready[s.prio[s.current]].items| >= |s.ready[s.prio[s.current]].items|
    decreases n
  {
    hide Members, ReadyLists, OneHome, Due, UrgentDue, RunsHighest, WellFormed, TickOne, Ready;
    if n == 0 {
      NothingDueYet(s, x.owner);
      NothingDueYet(s, u);
    } else {
      var r := UnwindOne(s);
      UnwindOneEffect(s, x, e, u);
      UnwindOneKeeps(s);
      hide UnwindOne, Ahead;
      UnwindEffect(r, n - 1, x, e, u);
      LaterDue(s.sleeping, r.sleeping, x.owner, s.now + 1, s.now + n);
      LaterDue(s.sleeping, r.sleeping, u, s.now + 1, s.now + n);
      LaterUrgent(s, r, s.now + 1, s.now + n);
    }
  }

  lemma NothingDueYet(s: Sched, t: Task)
    requires Shape(s) && Ahead(s)
    ensures !Due(s.sleeping, t, s.now) && !UrgentDue(s, s.now)
    ensures forall x :: x in s.sleeping ==> x.value > s.now
  {
  }

  lemma UnwindOneEffect(s: Sched, x: Entry<Task>, e: nat, u: Task)
    requires Base(s) && Ahead(s) && u < |s.prio|
    ensures var r := UnwindOne(s);
            && r.prio == s.prio && r.now == s.now + 1 && r.current == s.current && |r.events| == |s.events|
            && (forall y :: y in r.sleeping <==> y in s.sleeping && y.value > s.now + 1)
            && (e < |s.events| ==> (x in r.events[e] <==> x in s.events[e] && !Due(s.sleeping, x.owner, s.now + 1)))
            && (Ready(r, u) <==> Ready(s, u) || Due(s.sleeping, u, s.now + 1))
            && (r.yieldPending <==> s.yieldPending || UrgentDue(s, s.now + 1)
                                    || |r.ready[s.prio[s.current]].items| > 1)
            && |r.ready[s.prio[s.current]].items| >= |s.ready[s.prio[s.current]].items|
  {
    hide OneHome, ReadyLists, Ahead, Due, UrgentDue, WellFormed, WakeDue;
    TickWakesTheDue(s, x, e, u);
    TickOneKeeps(s, true);
    forall y
      ensures y in TickOne(s).0.sleeping <==> y in s.sleeping && y.value > s.now + 1
    {
      TickWakesTheDue(s, y, e, u);
    }
    WakeDueGrows(s.(now := s.now + 1), false, s.prio[s.current]);
  }

  /** A pending task is at least as urgent as the running one. */
  ghost predicate UrgentPending(s: Sched)
    requires Shape(s)
  {
    exists t :: t in s.pending && t < |s.prio| && s.prio[t] >= s.prio[s.current]
  }

  lemma MakeReadyEffect(s: Sched, t: Task, x: Entry<Task>, u: Task)
    requires Shape(s) && t < |s.prio| && u < |s.prio|
    ensures var r := MakeReady(s, t);
            && (x in r.sleeping <==> x in s.sleeping && x.owner != t)
            && (u in r.suspended <==> u in s.suspended && u != t)
            && (Ready(r, u) <==> Ready(s, u) || u == t)
  {
    WithoutKeeps(s.sleeping, t, x);
    DropTaskKeeps(s.suspended, t, u);
    DropReadyMember(s.ready[s.prio[t]], t, u);
    InsertEndMember(DropReady(s.ready[s.prio[t]], t), t, u);
  }

  /** The first loop of xTaskResumeAll: the pending tasks become ready. */
  lemma {:induction false} DrainEffect(s: Sched, x: Entry<Task>, u: Task)
    requires Base(s) && Ahead(s) && RunsHighest(s) && u < |s.prio|
    ensures var r := DrainPending(s);
            && r.prio == s.prio && r.now == s.now && r.current == s.current
            && (x in r.sleeping <==> x in s.sleeping && x.owner !in s.pending)
            && (u in r.suspended <==> u in s.suspended && u !in s.pending)
            && (Ready(r, u) <==> Ready(s, u) || u in s.pending)
            && (r.yieldPending <==> s.yieldPending || UrgentPending(s))
    decreases |s.pending|
  {
    hide OneHome, ReadyLists, Ahead, MakeReady, WellFormed, Ready;
    if s.pending != [] {
      var t := s.pending[0];
      assert t in s.pending;
      assert s.pending == [t] + s.pending[1..];
      MakeReadyBase(s, t);
      MakeReadyAhead(s, t);
      MakeReadyHighest(s, t, SwitchOutstanding(s));
      SameBase(MakeReady(s, t), DrainOne(s));
      MakeReadyEffect(s, t, x, u);
      DrainOneReady(s, u);
      DrainEffect(DrainOne(s), x, u);
    }
  }

  lemma DrainOneReady(s: Sched, u: Task)
    requires Shape(s) && Members(s) && s.pending != [] && u < |s.prio| && s.pending[0] < |s.prio|
    ensures DrainOne(s).prio == s.prio
    ensures Ready(DrainOne(s), u) <==> Ready(MakeReady(s, s.pending[0]), u)
  {
    hide MakeReady;
  }

  lemma PendingAside(list: seq<Entry<Task>>, rest: seq<Entry<Task>>, pending: seq<Task>, t: Task, n: int)
    requires forall x :: x in rest <==> x in list && x.owner !in pending
    ensures Due(rest, t, n) <==> t !in pending && Due(list, t, n)
  {
    if t !in pending && Due(list, t, n) {
      var x :| x in list && x.owner == t && x.value <= n;
      assert x in rest;
    }
  }

  lemma UrgentEither(s: Sched, r: Sched, n: int)
    requires Shape(s) && Shape(r) && r.prio == s.prio && r.current == s.current
    requires forall x :: x in r.sleeping <==> x in s.sleeping && x.owner !in s.pending
    ensures UrgentPending(s) || UrgentDue(r, n) <==> UrgentPending(s) || UrgentDue(s, n)
  {
    if UrgentDue(s, n) && !UrgentDue(r, n) {
      var x :| x in s.sleeping && x.value <= n && x.owner < |s.prio| && s.prio[x.owner] >= s.prio[s.current];
      assert x !in r.sleeping;
    }
  }

  /** The outermost xTaskResumeAll: pending tasks become ready, then every task that is due after the
      pended ticks leaves the sleepers and its event list and becomes ready.  Nothing else moves.  A
      switch is asked for if and only if one was outstanding, one of them is at least as urgent as
      the running task, or after a pended tick others share its priority. */
  lemma ResumeAllWakes(s: Sched, x: Entry<Task>, e: nat, u: Task)
    requires Inv(s) && s.depth == 1 && u < |s.prio|
    ensures var (r, n) := (ResumeAll(s), s.now + s.pended);
            && r.prio == s.prio && r.now == n && r.current == s.current && |r.events| == |s.events|
            && (x in r.sleeping <==> x in s.sleeping && x.owner !in s.pending && x.value > n)
            && (e < |s.events| ==>
                 (x in r.events[e] <==> x in s.events[e] && (x.owner in s.pending || !Due(s.sleeping, x.owner, n))))
            && (Ready(r, u) <==> Ready(s, u) || u in s.pending || Due(s.sleeping, u, n))
            && (r.switchRequested <==> s.switchRequested || r.yieldPending)
            && (r.yieldPending <==> s.yieldPending || UrgentPending(s) || UrgentDue(s, n)
                                    || (s.pended > 0 && |r.ready[s.prio[s.current]].items| > 1))
  {
    hide OneHome, Members, ReadyLists, Ahead, RunsHighest, Due, UrgentDue, UrgentPending, WellFormed, DrainPending,
         UnwindTicks;
    var a, n := s.(depth := 0), s.now + s.pended;
    DepthAside(s, 0);
    SameFlags(s, a, n);
    DrainKeeps(a);
    Deferral.DrainFrame(a);
    DrainEffect(a, x, u);
    forall y
      ensures y in DrainPending(a).sleeping <==> y in a.sleeping && y.owner !in a.pending
    {
      DrainEffect(a, y, u);
    }
    var d := DrainPending(a);
    UnwindEffect(d, s.pended, x, e, u);
    UnwindKeeps(d, s.pended);
    PendingAside(s.sleeping, d.sleeping, s.pending, x.owner, n);
    PendingAside(s.sleeping, d.sleeping, s.pending, u, n);
    UrgentEither(a, d, n);
  }

  lemma SameFlags(s: Sched, a: Sched, n: int)
    requires Shape(s) && Shape(a) && a == s.(depth := a.depth)
    ensures UrgentPending(a) == UrgentPending(s) && UrgentDue(a, n) == UrgentDue(s, n)
  {
  }

  // ---------- who is ready after a step ----------

  /** t waits on event list e. */
  ghost predicate OnList(s: Sched, e: nat, t: Task) {
    e < |s.events| && exists x :: x in s.events[e] && x.owner == t
  }

  /** vTaskResume finds t really suspended: neither resumed already nor waiting for an event. */
  ghost predicate Resumable(s: Sched, t: Task) {
    t in s.suspended && t !in s.pending && forall e :: !OnList(s, e, t)
  }

  /** The steps that make t ready. */
  ghost predicate Wakes(s: Sched, ev: Event, t: Task)
    requires Inv(s) && Enabled(s, ev) && t < |s.prio|
  {
    match ev
    case Tick_ => s.depth == 0 && Due(s.sleeping, t, s.now + 1)
    case ResumeAll_ => s.depth == 1 && (t in s.pending || Due(s.sleeping, t, s.now + s.pended))
    case EventWake_(e) => s.depth == 0 && s.events[e][0].owner == t
    case UnorderedWake_(e, k) => s.events[e][k].owner == t
    case Notify_(u) => u == t && s.notify[t] == Waiting
    case NotifyFromIsr_(u, _) => u == t && s.notify[t] == Waiting && s.depth == 0
    case Resume_(u) => u == t && t != s.current && Resumable(s, t)
    case _ => false
  }

  /** The steps after which t is not ready. */
  ghost predicate Blocks(s: Sched, ev: Event, t: Task)
    requires Inv(s) && Enabled(s, ev)
  {
    match ev
    case Delay_(_) => t == s.current
    case WaitOn_(_, _) => t == s.current
    case NotifyWait_(ticks) => t == s.current && s.notify[t] != Received && ticks > 0
    case Suspend_(u) => u == t
    case _ => false
  }

  lemma UnlinkEffect(s: Sched, t: Task, x: Entry<Task>, u: Task)
    requires Base(s) && t < |s.prio| && u < |s.prio|
    ensures var r := UnlinkState(s, t);
            && (x in r.sleeping <==> x in s.sleeping && x.owner != t)
            && (u in r.suspended <==> u in s.suspended && u != t)
            && (Ready(r, u) <==> Ready(s, u) && u != t)
  {
    var p := s.prio[t];
    WithoutKeeps(s.sleeping, t, x);
    DropTaskKeeps(s.suspended, t, u);
    DropReadyMember(s.ready[p], t, u);
    UnlinkHomes(s, t, t);
    CountMember(UnlinkState(s, t).ready[p].items, t);
    if s.prio[u] != p {
      assert UnlinkState(s, t).ready[s.prio[u]] == s.ready[s.prio[u]];
    }
  }

  lemma BlockReadies(s: Sched, ticks: Tick, forever: bool, u: Task)
    requires Base(s) && u < |s.prio|
    ensures Ready(BlockCurrent(s, ticks, forever), u) <==> Ready(s, u) && u != s.current
  {
    hide ReadyLists, OneHome, Insert, UnlinkState, WellFormed;
    UnlinkEffect(s, s.current, Entry(u, 0), u);
  }

  lemma WaitReadies(s: Sched, ev: Event, u: Task)
    requires Inv(s) && Enabled(s, ev) && u < |s.prio| && (ev.Delay_? || ev.WaitOn_? || ev.NotifyWait_?)
    ensures Step(s, ev).prio == s.prio
    ensures Ready(Step(s, ev), u) <==> Ready(s, u) && !Blocks(s, ev, u)
  {
    hide OneHome, ReadyLists, Ahead, RunsHighest, WellFormed, BlockCurrent, Members, Insert;
    match ev
    case Delay_(ticks) => BlockReadies(s, ticks, false, u);
    case WaitOn_(e, ticks) =>
      OnEventListKeeps(s, e);
      BlockReadies(OnEventList(s, e), ticks, true, u);
    case NotifyWait_(ticks) =>
      var a := s.(notify := s.notify[s.current := Waiting]);
      NotifyStateKeepsInv(s, a);
      BlockReadies(a, ticks, true, u);
  }

  lemma SuspendReadies(s: Sched, t: Task, u: Task)
    requires Inv(s) && Known(s, t) && u < |s.prio|
    ensures Ready(Suspend(s, t), u) <==> Ready(s, u) && u != t
  {
    hide OneHome, ReadyLists, Ahead, RunsHighest, WellFormed, Members, UnlinkState;
    UnlinkEffect(s, t, Entry(u, 0), u);
  }

  lemma ResumableIff(s: Sched, t: Task)
    ensures (forall e :: 0 <= e < |s.events| ==> t !in Owners(s.events[e])) <==> forall e :: !OnList(s, e, t)
  {
    forall e | 0 <= e < |s.events|
      ensures t in Owners(s.events[e]) <==> OnList(s, e, t)
    {
      OwnersMember(s.events[e], t);
    }
  }

  lemma OwnersMember(list: seq<Entry<Task>>, t: Task)
    ensures t in Owners(list) <==> exists x :: x in list && x.owner == t
  {
    if t in Owners(list) {
      var i :| 0 <= i < |list| && Owners(list)[i] == t;
      assert list[i] in list;
    }
    if x :| x in list && x.owner == t {
      var i :| 0 <= i < |list| && list[i] == x;
      assert Owners(list)[i] == t;
    }
  }

  lemma ResumeReadies(s: Sched, t: Task, u: Task)
    requires Inv(s) && Known(s, t) && u < |s.prio|
    ensures Ready(Resume(s, t), u) <==> Ready(s, u) || (u == t && t != s.current && Resumable(s, t))
  {
    hide OneHome, ReadyLists, Ahead, RunsHighest, WellFormed, Members, MakeReady, OnList;
    ResumableIff(s, t);
    MakeReadyEffect(s, t, Entry(u, 0), u);
  }

  lemma WaiterIsKnown(s: Sched, e: nat, k: nat)
    requires Members(s) && e < |s.events| && k < |s.events[e]|
    ensures s.events[e][k] in s.events[e] && Known(s, s.events[e][k].owner)
  {
    assert s.events[e][k] in s.events[e];
  }

  lemma EventsReady(s: Sched, ev: Event, u: Task)
    requires Inv(s) && Enabled(s, ev) && u < |s.prio| && (ev.EventWake_? || ev.UnorderedWake_?)
    ensures Step(s, ev).prio == s.prio
    ensures Ready(Step(s, ev), u) <==> Ready(s, u) || Wakes(s, ev, u)
  {
    hide OneHome, ReadyLists, Ahead, RunsHighest, WellFormed, Members, MakeReady;
    match ev
    case EventWake_(e) =>
      WaiterIsKnown(s, e, 0);
      MakeReadyEffect(s.(events := s.events[e := s.events[e][1..]]), s.events[e][0].owner, Entry(u, 0), u);
    case UnorderedWake_(e, k) =>
      WaiterIsKnown(s, e, k);
      MakeReadyEffect(s.(events := s.events[e := RemoveAt(s.events[e], k)]), s.events[e][k].owner, Entry(u, 0), u);
  }

  lemma NotifyReadies(s: Sched, t: Task, u: Task)
    requires Inv(s) && t < |s.prio| && u < |s.prio|
    ensures Ready(Notify(s, t), u) <==> Ready(s, u) || (u == t && s.notify[t] == Waiting)
  {
    hide OneHome, ReadyLists, Ahead, RunsHighest, Members, MakeReady;
    MakeReadyEffect(s.(notify := s.notify[t := Received]), t, Entry(u, 0), u);
  }

  lemma NotifyFromIsrReadies(s: Sched, t: Task, flag: bool, u: Task)
    requires Inv(s) && t < |s.prio| && u < |s.prio|
    ensures Ready(NotifyFromIsr(s, t, flag), u) <==>
      Ready(s, u) || (u == t && s.notify[t] == Waiting && s.depth == 0)
  {
    hide OneHome, ReadyLists, Ahead, RunsHighest, Members, MakeReady;
    MakeReadyEffect(s.(notify := s.notify[t := Received]), t, Entry(u, 0), u);
  }

  lemma TimeReadies(s: Sched, ev: Event, u: Task)
    requires Inv(s) && Enabled(s, ev) && u < |s.prio| && (ev.Tick_? || ev.ResumeAll_?)
    ensures Step(s, ev).prio == s.prio
    ensures Ready(Step(s, ev), u) <==> Ready(s, u) || Wakes(s, ev, u)
  {
    hide OneHome, ReadyLists, Ahead, RunsHighest, WellFormed, Members, TickOne, ResumeAll, Due, UrgentDue;
    if ev.Tick_? {
      TickWakesTheDue(s, Entry(u, 0), 0, u);
    } else if s.depth == 1 {
      ResumeAllWakes(s, Entry(u, 0), 0, u);
    } else {
      ResumeInside(s);
    }
  }

  lemma ResumeInside(s: Sched)
    requires Inv(s) && s.depth > 1
    ensures ResumeAll(s) == s.(depth := s.depth - 1)
  {
  }

  /** Which tasks are ready after a step: those that it wakes, and those that were ready and do not
      block in it. */
  lemma ReadyAfterStepIff(s: Sched, ev: Event, t: Task)
    requires Inv(s) && Enabled(s, ev) && t < |s.prio|
    ensures Step(s, ev).prio == s.prio
    ensures Ready(Step(s, ev), t) <==> Wakes(s, ev, t) || (Ready(s, t) && !Blocks(s, ev, t))
  {
    hide OneHome, ReadyLists, Ahead, RunsHighest, WellFormed, Members, TickIsr, ResumeAll, BlockCurrent,
         PlaceOnEventList, EventWake, UnorderedWake, Notify, NotifyFromIsr, NotifyWait, Suspend, Resume, Due;
    match ev
    case Tick_ => TimeReadies(s, ev, t);
    case SuspendAll_ =>
    case ResumeAll_ => TimeReadies(s, ev, t);
    case Switch_ => SwitchReadies(s, t);
    case Yield_ =>
    case Delay_(_) => WaitReadies(s, ev, t);
    case WaitOn_(_, _) => WaitReadies(s, ev, t);
    case EventWake_(_) => EventsReady(s, ev, t);
    case UnorderedWake_(_, _) => EventsReady(s, ev, t);
    case Notify_(u) => NotifyReadies(s, u, t);
    case NotifyFromIsr_(u, flag) => NotifyFromIsrReadies(s, u, flag, t);
    case NotifyWait_(_) => WaitReadies(s, ev, t);
    case NotifyFinish_ =>
    case Suspend_(u) => SuspendReadies(s, u, t); SuspendKeepsPrio(s, u);
    case Resume_(u) => ResumeReadies(s, u, t); ResumeKeepsPrio(s, u);
  }

  lemma SuspendKeepsPrio(s: Sched, t: Task)
    requires Shape(s) && t < |s.prio|
    ensures Suspend(s, t).prio == s.prio
  {
  }

  lemma ResumeKeepsPrio(s: Sched, t: Task)
    requires Shape(s) && t < |s.prio|
    ensures Resume(s, t).prio == s.prio
  {
  }

  lemma SwitchReadies(s: Sched, t: Task)
    requires Inv(s) && Enabled(s, Switch_) && t < |s.prio|
    ensures Step(s, Switch_).prio == s.prio
    ensures Ready(Step(s, Switch_), t) <==> Ready(s, t)
  {
    hide OneHome;
  }

  // ---------- when a switch is asked for ----------

  /** A task wakes in the running of the scheduler that must run before the running one, or others of
      its priority are ready at the end of a tick. */
  ghost predicate Preempts(s: Sched, ev: Event, r: Sched)
    requires Inv(s) && Enabled(s, ev) && Shape(r)
  {
    var others := |r.ready[s.prio[s.current]].items| > 1;
    match ev
    case Tick_ => s.yieldPending || (s.depth == 0 && (UrgentDue(s, s.now + 1) || others))
    case ResumeAll_ =>
      s.depth == 1 &&
      (s.yieldPending || UrgentPending(s) || UrgentDue(s, s.now + s.pended) || (s.pended > 0 && others))
    case Yield_ => true
    case NotifyWait_(_) => Blocks(s, ev, s.current)
    case Notify_(t) => s.notify[t] == Waiting && s.prio[t] > s.prio[s.current]
    case NotifyFromIsr_(t, flag) => flag && s.notify[t] == Waiting && s.prio[t] > s.prio[s.current]
    case Resume_(t) => Wakes(s, ev, t) && s.prio[t] >= s.prio[s.current]
    case _ => false
  }

  /** A more urgent task is woken by a call that only leaves the switch pending. */
  ghost predicate Defers(s: Sched, ev: Event)
    requires Inv(s) && Enabled(s, ev)
  {
    match ev
    case EventWake_(e) => WaiterIsKnown(s, e, 0); s.prio[s.events[e][0].owner] > s.prio[s.current]
    case UnorderedWake_(e, k) => WaiterIsKnown(s, e, k); s.prio[s.events[e][k].owner] > s.prio[s.current]
    case NotifyFromIsr_(t, flag) => !flag && s.notify[t] == Waiting && s.prio[t] > s.prio[s.current]
    case _ => false
  }

  /** The flags after a step. */
  ghost predicate FlagsRight(s: Sched, ev: Event, r: Sched)
    requires Inv(s) && Enabled(s, ev) && Shape(r)
  {
    && (r.switchRequested <==> s.switchRequested || Preempts(s, ev, r))
    && (r.yieldPending <==> s.yieldPending || Defers(s, ev) || (ev.ResumeAll_? && Preempts(s, ev, r)))
  }

  lemma TimeAsksIff(s: Sched, ev: Event)
    requires Inv(s) && Enabled(s, ev) && (ev.Tick_? || ev.ResumeAll_?)
    ensures FlagsRight(s, ev, Step(s, ev))
  {
    hide OneHome, ReadyLists, Ahead, RunsHighest, WellFormed, Members, TickOne, DrainPending, UnwindTicks, UrgentDue,
         UrgentPending, Due;
    if ev.Tick_? {
      TickWakesTheDue(s, Entry(0, 0), 0, 0);
      TickOneKeeps(s, true);
    } else if s.depth == 1 {
      ResumeAllWakes(s, Entry(0, 0), 0, 0);
    }
  }

  lemma WakesAskIff(s: Sched, ev: Event)
    requires Inv(s) && Enabled(s, ev)
    requires ev.EventWake_? || ev.UnorderedWake_? || ev.Notify_? || ev.NotifyFromIsr_? || ev.Resume_?
    ensures FlagsRight(s, ev, Step(s, ev))
  {
    hide OneHome, ReadyLists, Ahead, RunsHighest, WellFormed, MakeReady, OnList;
    if ev.Resume_? {
      ResumableIff(s, ev.t);
    }
  }

  /** A step requests a context switch if and only if a switch was pending and time passes or the
      scheduler resumes, or the step wakes a task that must run before the running one: a more urgent
      one, or for ticks and resumes one as urgent; or a tick finds others of the running task's priority
      ready.  Wakeups by events, and by interrupts without a flag argument, leave the switch pending
      instead. */
  lemma SwitchIsAskedIff(s: Sched, ev: Event)
    requires Inv(s) && Enabled(s, ev) && !ev.Switch_?
    ensures FlagsRight(s, ev, Step(s, ev))
  {
    hide OneHome, ReadyLists, Ahead, RunsHighest, WellFormed, Members, TickIsr, ResumeAll, EventWake, UnorderedWake,
         Notify, NotifyFromIsr, Resume, Insert, UnlinkState;
    match ev
    case Tick_ => TimeAsksIff(s, ev);
    case ResumeAll_ => TimeAsksIff(s, ev);
    case EventWake_(_) => WakesAskIff(s, ev);
    case UnorderedWake_(_, _) => WakesAskIff(s, ev);
    case Notify_(_) => WakesAskIff(s, ev);
    case NotifyFromIsr_(_, _) => WakesAskIff(s, ev);
    case Resume_(_) => WakesAskIff(s, ev);
    case _ =>
  }

  // ---------- what a switch does ----------

  /** The context switch: with the scheduler suspended it is put off; otherwise the next in turn of the
      highest priority that is ready runs, and goes to the end of the turns; nothing else changes, and
      no switch is outstanding. */
  lemma SwitchRunsNext(s: Sched)
    requires Inv(s) && Enabled(s, Switch_)
    ensures var (r, p) := (Step(s, Switch_), Step(s, Switch_).top);
            if s.depth > 0 then r == s.(yieldPending := true, switchRequested := false)
            else
              && !SwitchOutstanding(r) && Ready(s, r.current) && s.prio[r.current] == p
              && (forall t :: 0 <= t < |s.prio| && Ready(s, t) ==> s.prio[t] <= p)
              && Upcoming(s.ready[p]) != [] && r.current == Upcoming(s.ready[p])[0]
              && Upcoming(r.ready[p]) == Upcoming(s.ready[p])[1..] + [r.current]
              && r == s.(yieldPending := false, switchRequested := false, selfBlocked := false, top := p,
                         ready := s.ready[p := r.ready[p]], current := r.current)
  {
    hide OneHome, Ahead, RunsHighest, Members;
    if s.depth == 0 {
      var p := HighestReady(s.ready, s.top);
      AdvanceRotates(s.ready[p]);
      assert OnlyAt(s.prio, s.ready[p].items, p);
      assert Selected(Advance(s.ready[p])) in s.ready[p].items;
      forall t | 0 <= t < |s.prio| && Ready(s, t)
        ensures s.prio[t] <= p
      {
        assert s.ready[s.prio[t]].items != [];
      }
    }
  }
}
