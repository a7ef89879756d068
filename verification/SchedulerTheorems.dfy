/** The scheduler's promises over whole runs. */
module SchedulerTheorems {
  import opened Ticks
  import opened ListSpec
  import opened DelayLists
  import opened SchedulerSpec
  import opened SchedulerRuns

  // ---------- runs ----------

  ghost predicate Possible(s: Sched, evs: seq<Event>)
    requires Inv(s)
    decreases evs
  {
    evs == [] || (Enabled(s, evs[0]) && (StepKeepsInv(s, evs[0]); Possible(Step(s, evs[0]), evs[1..])))
  }

  ghost function Run(s: Sched, evs: seq<Event>): (r: Sched)
    requires Inv(s) && Possible(s, evs)
    ensures Shape(r)
    decreases evs
  {
    if evs == [] then s else StepKeepsInv(s, evs[0]); Run(Step(s, evs[0]), evs[1..])
  }

  lemma {:induction false} RunKeepsInv(s: Sched, evs: seq<Event>)
    requires Inv(s) && Possible(s, evs)
    ensures Inv(Run(s, evs))
    decreases evs
  {
    hide Step;
    if evs != [] {
      StepKeepsInv(s, evs[0]);
      RunKeepsInv(Step(s, evs[0]), evs[1..]);
    }
  }

  // ---------- start-up ----------

  /** The tasks below n of priority p, in creation order. */
  function TasksAt(prio: seq<nat>, p: nat, n: nat): (r: seq<Task>)
    requires n <= |prio|
    decreases n
  {
    if n == 0 then [] else TasksAt(prio, p, n - 1) + if prio[n - 1] == p then [n - 1] else []
  }

  lemma {:induction false} TasksAtCount(prio: seq<nat>, p: nat, n: nat, t: Task)
    requires n <= |prio|
    ensures Count(TasksAt(prio, p, n), t) == if t < n && prio[t] == p then 1 else 0
    decreases n
  {
    if n > 0 {
      TasksAtCount(prio, p, n - 1, t);
      CountConcat(TasksAt(prio, p, n - 1), [n - 1], t);
      assert TasksAt(prio, p, n - 1) + [] == TasksAt(prio, p, n - 1);
      assert Count([n - 1], t) == if n - 1 == t then 1 else 0;
    }
  }

  /** The state in which vTaskStartScheduler leaves the kernel: everything ready, and the current
      task, chosen while the tasks were created, among the most urgent. */
  function Boot(prio: seq<nat>, objects: nat, first: Task): (s: Sched)
    requires first < |prio|
  {
    Sched(prio, 0, [], [],
          seq(MAX_PRIORITIES, p requires 0 <= p < MAX_PRIORITIES => Ring(TasksAt(prio, p, |prio|), 0)),
          seq(objects, _ => []), [], seq(|prio|, _ => NotWaiting), 0, 0, MAX_PRIORITIES - 1, first, false, false,
              false)
  }

  lemma BootInv(prio: seq<nat>, objects: nat, first: Task)
    requires first < |prio| && prio[IDLE] == 0
    requires forall t :: 0 <= t < |prio| ==> prio[t] < MAX_PRIORITIES && prio[t] <= prio[first]
    ensures Inv(Boot(prio, objects, first))
  {
    var s := Boot(prio, objects, first);
    forall p | 0 <= p < MAX_PRIORITIES
      ensures OnlyAt(prio, s.ready[p].items, p)
      ensures p > prio[first] ==> s.ready[p].items == []
    {
      forall t | t in s.ready[p].items
        ensures t < |prio| && prio[t] == p
      {
        TasksAtCount(prio, p, |prio|, t);
        CountMember(s.ready[p].items, t);
      }
      if s.ready[p].items != [] {
        assert s.ready[p].items[0] in s.ready[p].items;
      }
    }
    forall t | 0 <= t < |prio|
      ensures Homes(s, t) == 1 && t in s.ready[prio[t]].items
    {
      TasksAtCount(prio, prio[t], |prio|, t);
      CountMember(s.ready[prio[t]].items, t);
    }
  }

  // ---------- the running task is the highest ----------

  /** In every reachable state: with no switch outstanding the running task is ready and no ready
      task has a higher priority; ready list p holds only tasks of priority p, and
      uxTopReadyPriority bounds every list that is not empty. */
  lemma RunningTaskIsHighest(s: Sched, evs: seq<Event>)
    requires Inv(s) && Possible(s, evs)
    ensures var r := Run(s, evs);
            && (forall p, t :: 0 <= p < MAX_PRIORITIES && t in r.ready[p].items ==>
                  && t < |r.prio| && r.prio[t] == p <= r.top
                  && (!SwitchOutstanding(r) ==> r.prio[t] <= r.prio[r.current]))
            && (!SwitchOutstanding(r) ==> r.current in r.ready[r.prio[r.current]].items)
  {
    var r := Run(s, evs);
    RunKeepsInv(s, evs);
    forall p, t | 0 <= p < MAX_PRIORITIES && t in r.ready[p].items
      ensures t < |r.prio| && r.prio[t] == p <= r.top
      ensures !SwitchOutstanding(r) ==> r.prio[t] <= r.prio[r.current]
    {
      assert OnlyAt(r.prio, r.ready[p].items, p);
      assert r.ready[p].items != [];
    }
  }

  /** A switch that is only pending is asked for by the next tick, or by xTaskResumeAll. */
  lemma OutstandingSwitchIsServed(s: Sched)
    requires Inv(s) && s.yieldPending
    ensures TickIsr(s).switchRequested
    ensures s.depth == 1 ==> ResumeAll(s).switchRequested
  {
    hide DrainPending, UnwindTicks, WakeDue, OneHome, ReadyLists, RunsHighest, Ahead;
    if s.depth == 1 {
      DrainStaysPending(s.(depth := 0));
      UnwindStaysPending(DrainPending(s.(depth := 0)), s.pended);
    }
  }

  lemma {:induction false} DrainStaysPending(s: Sched)
    requires Shape(s) && Members(s) && s.yieldPending
    ensures DrainPending(s).yieldPending
    decreases |s.pending|
  {
    if s.pending != [] {
      DrainStaysPending(DrainOne(s));
    }
  }

  lemma {:induction false} WakeDueStaysPending(s: Sched, urgent: bool)
    requires Shape(s) && Members(s)
    ensures WakeDue(s, urgent).0.yieldPending == s.yieldPending
    decreases |s.sleeping|
  {
    if s.sleeping != [] && s.sleeping[0].value <= s.now {
      assert s.sleeping[0] in s.sleeping;
      WakeHeadMembers(s);
      WakeDueStaysPending(WakeHead(s), urgent || s.prio[s.sleeping[0].owner] >= s.prio[s.current]);
    }
  }

  lemma TickStaysPending(s: Sched)
    requires Shape(s) && Members(s)
    ensures TickOne(s).0.yieldPending == s.yieldPending
  {
    WakeDueStaysPending(s.(now := s.now + 1), false);
  }

  lemma {:induction false} UnwindStaysPending(s: Sched, n: nat)
    requires Shape(s) && Members(s) && s.yieldPending
    ensures UnwindTicks(s, n).yieldPending
    decreases n
  {
    hide TickOne;
    if n > 0 {
      TickStaysPending(s);
      UnwindStaysPending(UnwindOne(s), n - 1);
    }
  }

  // ---------- exact wake times ----------

  /** t is asleep until w, and no event has reached it. */
  ghost predicate Asleep(s: Sched, t: Task, w: int) {
    Entry(t, w) in s.sleeping && t !in s.pending
  }

  ghost predicate Ready(s: Sched, t: Task)
    requires Shape(s) && t < |s.prio|
  {
    t in s.ready[s.prio[t]].items
  }

  /** The steps, other than ticks, that end a sleep. */
  ghost predicate Releases(s: Sched, ev: Event, t: Task)
    requires Shape(s) && Enabled(s, ev)
  {
    match ev
    case EventWake_(e) => s.events[e][0].owner == t
    case UnorderedWake_(e, k) => s.events[e][k].owner == t
    case Notify_(u) => u == t
    case NotifyFromIsr_(u, _) => u == t
    case Suspend_(u) => u == t
    case _ => false
  }

  lemma AsleepElsewhere(s: Sched, t: Task, w: int)
    requires Inv(s) && Entry(t, w) in s.sleeping
    ensures Known(s, t) && s.now < w && !Ready(s, t) && t !in s.suspended
  {
    var k :| 0 <= k < |s.sleeping| && s.sleeping[k] == Entry(t, w);
    assert Owners(s.sleeping)[k] == t;
    CountMember(Owners(s.sleeping), t);
    CountMember(s.ready[s.prio[t]].items, t);
    CountMember(s.suspended, t);
    assert Homes(s, t) == 1;
  }

  lemma {:induction false} WakeDueKeepsReady(s: Sched, urgent: bool, t: Task)
    requires Base(s) && AheadOrDue(s) && t < |s.prio| && Ready(s, t)
    ensures WakeDue(s, urgent).0.prio == s.prio && Ready(WakeDue(s, urgent).0, t)
    decreases |s.sleeping|
  {
    if s.sleeping != [] && s.sleeping[0].value <= s.now {
      var u := s.sleeping[0].owner;
      WakeHeadKeeps(s, true);
      InsertEndMember(s.ready[s.prio[u]], u, t);
      WakeDueKeepsReady(WakeHead(s), urgent || s.prio[u] >= s.prio[s.current], t);
    }
  }

  /** One tick leaves a sleeper whose time is ahead, and readies one whose time has come. */
  lemma {:induction false} WakeDueFate(s: Sched, urgent: bool, t: Task, w: int)
    requires Base(s) && AheadOrDue(s) && Entry(t, w) in s.sleeping
    ensures var r := WakeDue(s, urgent).0;
            && t < |s.prio| && r.prio == s.prio && r.now == s.now && r.pending == s.pending
            && (if s.now < w then Entry(t, w) in r.sleeping else Ready(r, t))
    decreases |s.sleeping|
  {
    WakeDueKeeps(s, urgent, true);
    if s.sleeping[0].value <= s.now {
      var x := s.sleeping[0];
      var u := urgent || s.prio[x.owner] >= s.prio[s.current];
      WakeHeadKeeps(s, true);
      assert s.sleeping == [x] + s.sleeping[1..];
      if x == Entry(t, w) {
        InsertEndMember(s.ready[s.prio[t]], t, t);
        WakeDueKeepsReady(WakeHead(s), u, t);
      } else {
        WakeDueFate(WakeHead(s), u, t, w);
      }
    }
  }

  lemma TickFate(s: Sched, t: Task, w: int)
    requires Base(s) && Ahead(s) && Entry(t, w) in s.sleeping
    ensures var r := TickOne(s).0;
            && t < |s.prio| && r.prio == s.prio && r.now == s.now + 1 && r.pending == s.pending
            && (if s.now + 1 < w then Entry(t, w) in r.sleeping else Ready(r, t))
  {
    hide WakeDue, OneHome, ReadyLists, Ahead, AheadOrDue, WellFormed, Members;
    ClockAdvanced(s, true);
    WakeDueFate(s.(now := s.now + 1), false, t, w);
  }

  lemma TickKeepsReady(s: Sched, t: Task)
    requires Base(s) && Ahead(s) && t < |s.prio| && Ready(s, t)
    ensures TickOne(s).0.prio == s.prio && Ready(TickOne(s).0, t)
    ensures UnwindOne(s).prio == s.prio && Ready(UnwindOne(s), t)
  {
    hide WakeDue, OneHome, ReadyLists, Ahead, AheadOrDue, WellFormed, Members;
    ClockAdvanced(s, true);
    WakeDueKeepsReady(s.(now := s.now + 1), false, t);
  }

  lemma UnwindOneFate(s: Sched, t: Task, w: int)
    requires Base(s) && Ahead(s) && Entry(t, w) in s.sleeping
    ensures var r := UnwindOne(s);
            && t < |s.prio| && r.prio == s.prio && r.now == s.now + 1 && r.pending == s.pending
            && (if s.now + 1 < w then Entry(t, w) in r.sleeping else Ready(r, t))
  {
    TickFate(s, t, w);
  }

  lemma {:induction false} UnwindKeepsReady(s: Sched, n: nat, t: Task)
    requires Base(s) && Ahead(s) && RunsHighest(s) && t < |s.prio| && Ready(s, t)
    ensures UnwindTicks(s, n).prio == s.prio && Ready(UnwindTicks(s, n), t)
    decreases n
  {
    hide UnwindOne, OneHome, ReadyLists, Ahead, RunsHighest, WellFormed, Members;
    if n > 0 {
      var u := UnwindOne(s);
      TickKeepsReady(s, t);
      UnwindOneKeeps(s);
      UnwindKeepsReady(u, n - 1, t);
      assert UnwindTicks(s, n) == UnwindTicks(u, n - 1);
    }
  }

  ghost predicate Fate(r: Sched, t: Task, w: int) {
    && Shape(r) && t < |r.prio|
    && if r.now < w then Entry(t, w) in r.sleeping else Ready(r, t)
  }

  lemma {:induction false} UnwindFate(s: Sched, n: nat, t: Task, w: int)
    requires Base(s) && Ahead(s) && RunsHighest(s) && Entry(t, w) in s.sleeping
    ensures Fate(UnwindTicks(s, n), t, w)
    decreases n
  {
    hide UnwindOne;
    if n > 0 {
      var u := UnwindOne(s);
      UnwindOneFate(s, t, w);
      UnwindOneKeeps(s);
      if s.now + 1 < w {
        UnwindFate(u, n - 1, t, w);
      } else {
        UnwindKeepsReady(u, n - 1, t);
        UnwindKeeps(u, n - 1);
      }
      assert UnwindTicks(s, n) == UnwindTicks(u, n - 1);
    }
  }

  lemma {:induction false} DrainFate(s: Sched, t: Task, w: int)
    requires Base(s) && Ahead(s) && RunsHighest(s) && Asleep(s, t, w)
    ensures Entry(t, w) in DrainPending(s).sleeping
    decreases |s.pending|
  {
    if s.pending != [] {
      var u := s.pending[0];
      assert u in s.pending;
      WithoutKeeps(s.sleeping, u, Entry(t, w));
      MakeReadyBase(s, u);
      MakeReadyAhead(s, u);
      MakeReadyHighest(s, u, SwitchOutstanding(s));
      SameHomes(MakeReady(s, u), DrainOne(s));
      DrainFate(DrainOne(s), t, w);
    }
  }

  lemma DepthAside(s: Sched, d: nat)
    requires Inv(s)
    ensures var a := s.(depth := d); Base(a) && Ahead(a) && RunsHighest(a)
  {
    hide Homes;
    SameBase(s, s.(depth := d));
  }

  lemma ResumeAllFate(s: Sched, t: Task, w: int)
    requires Inv(s) && s.depth > 0 && Asleep(s, t, w)
    ensures var r := ResumeAll(s);
            && t < |s.prio| && r.prio == s.prio
            && if r.now < w then Asleep(r, t, w) else Ready(r, t)
  {
    hide DrainPending, UnwindTicks, OneHome, ReadyLists, Ahead, RunsHighest, WellFormed, Members;
    AsleepElsewhere(s, t, w);
    var a := s.(depth := s.depth - 1);
    DepthAside(s, s.depth - 1);
    if a.depth == 0 {
      DrainKeeps(a);
      DrainFate(a, t, w);
      UnwindFate(DrainPending(a), s.pended, t, w);
      UnwindKeeps(DrainPending(a), s.pended);
    }
  }

  lemma MakeReadyKeepsAsleep(s: Sched, u: Task, t: Task, w: int)
    requires Shape(s) && u < |s.prio| && u != t && Entry(t, w) in s.sleeping
    ensures Entry(t, w) in MakeReady(s, u).sleeping
  {
    WithoutKeeps(s.sleeping, u, Entry(t, w));
  }

  lemma BlockKeepsAsleep(s: Sched, ticks: Tick, forever: bool, t: Task, w: int)
    requires Shape(s) && s.current != t && Entry(t, w) in s.sleeping
    ensures Entry(t, w) in BlockCurrent(s, ticks, forever).sleeping
  {
    WithoutKeeps(s.sleeping, s.current, Entry(t, w));
    InsertMember(UnlinkState(s, s.current).sleeping, Entry(s.current, s.now + ticks), Entry(t, w));
  }

  lemma SuspendKeepsAsleep(s: Sched, u: Task, t: Task, w: int)
    requires Shape(s) && u < |s.prio| && u != t && Asleep(s, t, w)
    ensures Asleep(Suspend(s, u), t, w)
  {
    WithoutKeeps(s.sleeping, u, Entry(t, w));
    DropTaskKeeps(s.pending, u, t);
  }

  lemma EventsKeepAsleep(s: Sched, ev: Event, t: Task, w: int)
    requires Inv(s) && Enabled(s, ev) && Asleep(s, t, w) && !Releases(s, ev, t)
    requires ev.EventWake_? || ev.UnorderedWake_?
    ensures Step(s, ev).now == s.now && Step(s, ev).prio == s.prio && Asleep(Step(s, ev), t, w)
  {
    hide MakeReady, OneHome, ReadyLists, RunsHighest, Ahead, WellFormed;
    match ev
    case EventWake_(e) =>
      assert s.events[e][0] in s.events[e];
      MakeReadyKeepsAsleep(s.(events := s.events[e := s.events[e][1..]]), s.events[e][0].owner, t, w);
    case UnorderedWake_(e, k) =>
      assert s.events[e][k] in s.events[e];
      MakeReadyKeepsAsleep(s.(events := s.events[e := RemoveAt(s.events[e], k)]), s.events[e][k].owner, t, w);
  }

  lemma NotifiesKeepAsleep(s: Sched, ev: Event, t: Task, w: int)
    requires Inv(s) && Enabled(s, ev) && Asleep(s, t, w) && !Releases(s, ev, t)
    requires ev.Notify_? || ev.NotifyFromIsr_?
    ensures Step(s, ev).now == s.now && Step(s, ev).prio == s.prio && Asleep(Step(s, ev), t, w)
  {
    hide MakeReady, OneHome, ReadyLists, RunsHighest, Ahead, WellFormed;
    MakeReadyKeepsAsleep(s.(notify := s.notify[ev.t := Received]), ev.t, t, w);
  }

  lemma WakesKeepAsleep(s: Sched, ev: Event, t: Task, w: int)
    requires Inv(s) && Enabled(s, ev) && Asleep(s, t, w) && !Releases(s, ev, t)
    requires ev.EventWake_? || ev.UnorderedWake_? || ev.Notify_? || ev.NotifyFromIsr_? || ev.Suspend_? || ev.Resume_?
    ensures Step(s, ev).now == s.now && Step(s, ev).prio == s.prio && Asleep(Step(s, ev), t, w)
  {
    hide MakeReady, Suspend, OneHome, ReadyLists, RunsHighest, Ahead, WellFormed, EventWake, UnorderedWake, Notify,
         NotifyFromIsr, Members;
    AsleepElsewhere(s, t, w);
    match ev
    case EventWake_(_) => EventsKeepAsleep(s, ev, t, w);
    case UnorderedWake_(_, _) => EventsKeepAsleep(s, ev, t, w);
    case Notify_(_) => NotifiesKeepAsleep(s, ev, t, w);
    case NotifyFromIsr_(_, _) => NotifiesKeepAsleep(s, ev, t, w);
    case Suspend_(u) => SuspendKeepsAsleep(s, u, t, w);
    case Resume_(u) =>
      if u != t {
        MakeReadyKeepsAsleep(s, u, t, w);
      }
  }

  lemma BlocksKeepAsleep(s: Sched, ev: Event, t: Task, w: int)
    requires Inv(s) && Enabled(s, ev) && Asleep(s, t, w)
    requires ev.Delay_? || ev.WaitOn_? || ev.NotifyWait_?
    ensures Step(s, ev).now == s.now && Step(s, ev).prio == s.prio && Asleep(Step(s, ev), t, w)
  {
    hide BlockCurrent, Insert;
    AsleepElsewhere(s, t, w);
    match ev
    case Delay_(ticks) => BlockKeepsAsleep(s, ticks, false, t, w);
    case WaitOn_(e, ticks) =>
      var item := Entry(s.current, MAX_PRIORITIES - s.prio[s.current]);
      BlockKeepsAsleep(s.(events := s.events[e := Insert(s.events[e], item)]), ticks, true, t, w);
    case NotifyWait_(ticks) => BlockKeepsAsleep(s.(notify := s.notify[s.current := Waiting]), ticks, true, t, w);
  }

  /** One step of anything that does not release t: it sleeps on until its time, and is ready
      after the step that processes that tick. */
  lemma AsleepStep(s: Sched, ev: Event, t: Task, w: int)
    requires Inv(s) && Enabled(s, ev) && Asleep(s, t, w) && !Releases(s, ev, t)
    ensures t < |s.prio| && Step(s, ev).prio == s.prio
    ensures if Step(s, ev).now < w then Asleep(Step(s, ev), t, w) else Ready(Step(s, ev), t)
  {
    hide TickOne, ResumeAll;
    AsleepElsewhere(s, t, w);
    match ev
    case Tick_ =>
      if s.depth == 0 {
        TickFate(s, t, w);
      }
    case SuspendAll_ =>
    case ResumeAll_ => ResumeAllFate(s, t, w);
    case Switch_ =>
    case Yield_ =>
    case NotifyFinish_ =>
    case Delay_(_) => BlocksKeepAsleep(s, ev, t, w);
    case WaitOn_(_, _) => BlocksKeepAsleep(s, ev, t, w);
    case NotifyWait_(_) => BlocksKeepAsleep(s, ev, t, w);
    case _ => WakesKeepAsleep(s, ev, t, w);
  }

  ghost predicate NeverReleased(s: Sched, evs: seq<Event>, t: Task)
    requires Inv(s) && Possible(s, evs)
    decreases evs
  {
    evs == [] || (!Releases(s, evs[0], t) && (StepKeepsInv(s, evs[0]); NeverReleased(Step(s, evs[0]), evs[1..], t)))
  }

  /** Over any run in which nothing releases t, it sleeps as long as its wake time is ahead ... */
  lemma {:induction false} SleepsUntil(s: Sched, evs: seq<Event>, t: Task, w: int)
    requires Inv(s) && Possible(s, evs) && Asleep(s, t, w) && NeverReleased(s, evs, t)
    requires Run(s, evs).now < w
    ensures Asleep(Run(s, evs), t, w)
    decreases evs
  {
    hide Step;
    if evs != [] {
      StepKeepsInv(s, evs[0]);
      RunAdvances(Step(s, evs[0]), evs[1..]);
      AsleepStep(s, evs[0], t, w);
      SleepsUntil(Step(s, evs[0]), evs[1..], t, w);
    }
  }

  lemma {:induction false} RunAdvances(s: Sched, evs: seq<Event>)
    requires Inv(s) && Possible(s, evs)
    ensures s.now <= Run(s, evs).now && Run(s, evs).prio == s.prio
    decreases evs
  {
    hide Step;
    if evs != [] {
      StepKeepsInv(s, evs[0]);
      StepAdvances(s, evs[0]);
      RunAdvances(Step(s, evs[0]), evs[1..]);
    }
  }

  lemma ResumeAllAdvances(s: Sched)
    requires Inv(s) && s.depth > 0
    ensures ResumeAll(s).prio == s.prio
    ensures ResumeAll(s).now == s.now + if s.depth == 1 then s.pended else 0
    ensures s.depth == 1 ==> ResumeAll(s).pending == [] && ResumeAll(s).pended == 0
  {
    hide DrainPending, UnwindTicks;
    var a := s.(depth := s.depth - 1);
    SameHomes(s, a);
    if a.depth == 0 {
      DrainKeeps(a);
      UnwindKeeps(DrainPending(a), s.pended);
    }
  }

  lemma StepAdvances(s: Sched, ev: Event)
    requires Inv(s) && Enabled(s, ev)
    ensures s.now <= Step(s, ev).now && Step(s, ev).prio == s.prio
  {
    hide TickOne, ResumeAll, BlockCurrent, SwitchContext, PlaceOnEventList, EventWake, UnorderedWake, Notify,
        NotifyFromIsr,
         NotifyWait, NotifyFinish, Suspend, Resume;
    match ev
    case Tick_ =>
      if s.depth == 0 {
        TickOneKeeps(s, true);
      }
    case ResumeAll_ => ResumeAllAdvances(s);
    case _ =>
  }

  /** The ways in which the running task blocks for a finite time d. */
  ghost predicate BlocksFor(s: Sched, ev: Event, d: Tick)
    requires Inv(s)
  {
    && Enabled(s, ev) && d > 0 && s.current !in s.pending
    && match ev
       case Delay_(ticks) => ticks == d
       case WaitOn_(_, ticks) => ticks == d < MAX_DELAY
       case NotifyWait_(ticks) => ticks == d < MAX_DELAY && s.notify[s.current] != Received
       case _ => false
  }

  lemma FallsAsleep(s: Sched, ev: Event, d: Tick)
    requires Inv(s) && BlocksFor(s, ev, d)
    ensures Asleep(Step(s, ev), s.current, s.now + d)
    ensures Step(s, ev).prio == s.prio
  {
    hide Insert, OneHome, ReadyLists, RunsHighest, Ahead;
    InsertMember(UnlinkState(s, s.current).sleeping, Entry(s.current, s.now + d), Entry(s.current, s.now + d));
  }

  /** ... and a task that blocks at tick T for d ticks, 1 <= d < 2^32, in a delay, on an event list
      or for a notification, is asleep and not ready in every later state before tick T + d, and
      ready after the step that processes that tick: exactly on time across any number of tick
      wraps. */
  lemma DelayEndsExactly(s: Sched, block: Event, d: Tick, a: Sched, evs: seq<Event>, ev: Event)
    requires Inv(s) && BlocksFor(s, block, d)
    requires a == Step(s, block) && Inv(a)
    requires Possible(a, evs) && NeverReleased(a, evs, s.current)
    requires Run(a, evs).now < s.now + d && Inv(Run(a, evs))
    requires Enabled(Run(a, evs), ev) && !Releases(Run(a, evs), ev, s.current)
    ensures var t, r := s.current, Run(a, evs);
            && r.prio == s.prio == Step(r, ev).prio
            && !Ready(r, t)
            && (Ready(Step(r, ev), t) <==> Step(r, ev).now >= s.now + d)
  {
    hide Step, UnlinkState, TickOne;
    var t, w, r := s.current, s.now + d, Run(a, evs);
    FallsAsleep(s, block, d);
    SleepsUntil(a, evs, t, w);
    RunAdvances(a, evs);
    RunKeepsInv(a, evs);
    AsleepElsewhere(r, t, w);
    AsleepStep(r, ev, t, w);
    StepKeepsInv(r, ev);
    if Step(r, ev).now < w {
      AsleepElsewhere(Step(r, ev), t, w);
    }
  }
}
