/** What ends a suspension and a wait without a timeout, and what becomes of a notification. */
module BlockLaws {
  import opened Ticks
  import opened ListSpec
  import opened DelayLists
  import opened SchedulerSpec
  import opened SchedulerRuns
  import opened SchedulerTheorems
  import opened SchedulerLaws
  import opened WaitLaws
  import Deferral

  // ---------- the suspended list ----------

  lemma SuspendedElsewhere(s: Sched, t: Task)
    requires Inv(s) && t in s.suspended
    ensures Known(s, t) && !Ready(s, t) && forall n :: !Due(s.sleeping, t, n)
  {
    CountMember(s.suspended, t);
    CountMember(s.ready[s.prio[t]].items, t);
    CountMember(Owners(s.sleeping), t);
    OwnersMember(s.sleeping, t);
    assert Homes(s, t) == 1;
  }

  lemma TimeLeavesSuspended(s: Sched, ev: Event, t: Task)
    requires Inv(s) && Enabled(s, ev) && (ev.Tick_? || ev.ResumeAll_?) && t in s.suspended
    requires !(ev.ResumeAll_? && s.depth == 1 && t in s.pending)
    ensures t in Step(s, ev).suspended
  {
    hide OneHome, ReadyLists, Ahead, RunsHighest, WellFormed, TickOne, DrainPending, UnwindTicks;
    if ev.Tick_? && s.depth == 0 {
      TickOneKeeps(s, true);
    } else if ev.ResumeAll_? && s.depth == 1 {
      var a := s.(depth := 0);
      DepthAside(s, 0);
      DrainKeeps(a);
      DrainEffect(a, Entry(t, 0), t);
      UnwindKeeps(DrainPending(a), s.pended);
    }
  }

  lemma EventsLeaveSuspended(s: Sched, ev: Event, t: Task)
    requires Inv(s) && Enabled(s, ev) && t in s.suspended && t < |s.prio| && !Wakes(s, ev, t)
    requires ev.EventWake_? || ev.UnorderedWake_?
    ensures t in Step(s, ev).suspended
  {
    hide OneHome, ReadyLists, Ahead, RunsHighest, WellFormed, Members, MakeReady;
    var none, k := Entry(t, 0), if ev.EventWake_? then 0 else ev.k;
    WaiterIsKnown(s, ev.e, k);
    var list := if ev.EventWake_? then s.events[ev.e][1..] else RemoveAt(s.events[ev.e], k);
    MakeReadyEffect(s.(events := s.events[ev.e := list]), s.events[ev.e][k].owner, none, t);
  }

  lemma NotifiesLeaveSuspended(s: Sched, ev: Event, t: Task)
    requires Inv(s) && Enabled(s, ev) && t in s.suspended && t < |s.prio| && !Wakes(s, ev, t)
    requires ev.Notify_? || ev.NotifyFromIsr_?
    ensures t in Step(s, ev).suspended
  {
    hide OneHome, ReadyLists, Ahead, RunsHighest, WellFormed, Members, MakeReady;
    MakeReadyEffect(s.(notify := s.notify[ev.t := Received]), ev.t, Entry(t, 0), t);
  }

  lemma MovesLeaveSuspended(s: Sched, ev: Event, t: Task)
    requires Inv(s) && Enabled(s, ev) && t in s.suspended && t < |s.prio| && !Ready(s, t) && !Wakes(s, ev, t)
    requires ev.Delay_? || ev.WaitOn_? || ev.NotifyWait_? || ev.Suspend_? || ev.Resume_?
    ensures t in Step(s, ev).suspended
  {
    hide OneHome, ReadyLists, Ahead, RunsHighest, WellFormed, Members, Insert, OnList;
    if ev.Suspend_? {
      DropTaskKeeps(s.suspended, ev.t, t);
    } else if ev.Resume_? {
      ResumableIff(s, ev.t);
      DropTaskKeeps(s.suspended, ev.t, t);
    } else {
      DropTaskKeeps(s.suspended, s.current, t);
    }
  }

  /** A task stays on the suspended list until a step makes it ready. */
  lemma SuspendedStays(s: Sched, ev: Event, t: Task)
    requires Inv(s) && Enabled(s, ev) && t in s.suspended && t < |s.prio| && !Wakes(s, ev, t)
    ensures t in Step(s, ev).suspended
  {
    SuspendedElsewhere(s, t);
    hide OneHome, ReadyLists, Ahead, RunsHighest, WellFormed, Members, TickIsr, ResumeAll, EventWake, UnorderedWake,
         Notify, NotifyFromIsr, BlockCurrent, PlaceOnEventList, NotifyWait, Suspend, Resume;
    match ev
    case Tick_ => TimeLeavesSuspended(s, ev, t);
    case SuspendAll_ =>
    case ResumeAll_ => TimeLeavesSuspended(s, ev, t);
    case Switch_ =>
    case Yield_ =>
    case NotifyFinish_ =>
    case EventWake_(_) => EventsLeaveSuspended(s, ev, t);
    case UnorderedWake_(_, _) => EventsLeaveSuspended(s, ev, t);
    case Notify_(_) => NotifiesLeaveSuspended(s, ev, t);
    case NotifyFromIsr_(_, _) => NotifiesLeaveSuspended(s, ev, t);
    case _ => MovesLeaveSuspended(s, ev, t);
  }

  // ---------- waiting without a timeout ----------

  /** t is on the suspended list and no wakeup for it is pending. */
  ghost predicate Parked(s: Sched, t: Task) {
    t in s.suspended && t !in s.pending
  }

  /** The steps that end such a rest: an event or a notification for t, or vTaskResume of a task that
      waits for nothing.  No passing of time is among them. */
  ghost predicate Frees(s: Sched, ev: Event, t: Task)
    requires Inv(s) && Enabled(s, ev) && t < |s.prio|
  {
    match ev
    case EventWake_(e) => s.events[e][0].owner == t
    case UnorderedWake_(e, k) => s.events[e][k].owner == t
    case Notify_(u) => u == t && s.notify[t] == Waiting
    case NotifyFromIsr_(u, _) => u == t && s.notify[t] == Waiting
    case Resume_(u) => u == t && t != s.current && forall e :: !OnList(s, e, t)
    case _ => false
  }

  lemma StepKeepsParked(s: Sched, ev: Event, t: Task)
    requires Inv(s) && Enabled(s, ev) && Parked(s, t) && t < |s.prio| && !Frees(s, ev, t)
    ensures Parked(Step(s, ev), t)
  {
    SuspendedElsewhere(s, t);
    SuspendedStays(s, ev, t);
    PendingAfterStepIff(s, ev, t);
  }

  ghost predicate NeverFreed(s: Sched, evs: seq<Event>, t: Task)
    requires Inv(s) && Possible(s, evs) && t < |s.prio|
    decreases evs
  {
    evs == [] || (!Frees(s, evs[0], t)
                  && (StepKeepsInv(s, evs[0]); StepAdvances(s, evs[0]); NeverFreed(Step(s, evs[0]), evs[1..], t)))
  }

  /** Time alone never ends a wait without a timeout: through any number of ticks, suspensions and
      other tasks' doings t rests until a step frees it ... */
  lemma {:induction false} RestsUntilFreed(s: Sched, evs: seq<Event>, t: Task)
    requires Inv(s) && Possible(s, evs) && t < |s.prio| && Parked(s, t) && NeverFreed(s, evs, t)
    ensures Run(s, evs).prio == s.prio && Parked(Run(s, evs), t) && !Ready(Run(s, evs), t)
    decreases evs
  {
    hide Step, Enabled, Frees, Parked, Members, ReadyLists, OneHome, Ahead, RunsHighest;
    if evs == [] {
      ParkedIsBlocked(s, t);
    } else {
      StepKeepsInv(s, evs[0]);
      StepAdvances(s, evs[0]);
      StepKeepsParked(s, evs[0], t);
      RestsUntilFreed(Step(s, evs[0]), evs[1..], t);
    }
  }

  lemma ParkedIsBlocked(s: Sched, t: Task)
    requires Inv(s) && Parked(s, t)
    ensures t < |s.prio| && !Ready(s, t)
  {
    SuspendedElsewhere(s, t);
  }

  /** ... which makes it ready, at once or when the scheduler resumes. */
  lemma FreedIsReady(s: Sched, ev: Event, t: Task)
    requires Inv(s) && Enabled(s, ev) && t < |s.prio| && Parked(s, t) && Frees(s, ev, t)
    ensures Step(s, ev).prio == s.prio && (Ready(Step(s, ev), t) || (s.depth > 0 && t in Step(s, ev).pending))
  {
    hide Step, OneHome, ReadyLists, Ahead, RunsHighest, Members;
    ReadyAfterStepIff(s, ev, t);
    PendingAfterStepIff(s, ev, t);
  }

  /** A call that blocks with portMAX_DELAY rests so; INCLUDE_vTaskSuspend makes that for ever. */
  lemma WaitForEverParks(s: Sched, ev: Event)
    requires Inv(s) && Enabled(s, ev) && s.current !in s.pending
    requires (ev.WaitOn_? && ev.ticks == MAX_DELAY)
          || (ev.NotifyWait_? && ev.ticks == MAX_DELAY && s.notify[s.current] != Received)
    ensures Parked(Step(s, ev), s.current)
  {
    hide OneHome, ReadyLists, Ahead, RunsHighest, WellFormed, Members, Insert;
    var a := if ev.WaitOn_? then OnEventList(s, ev.e) else s.(notify := s.notify[s.current := Waiting]);
    assert s.current in (UnlinkState(a, s.current).suspended + [s.current]);
  }

  // ---------- vTaskSuspend and vTaskResume ----------

  /** t is suspended for its own sake: it waits for nothing. */
  ghost predicate Quiet(s: Sched, t: Task)
    requires Shape(s) && t < |s.prio|
  {
    Parked(s, t) && s.notify[t] != Waiting && forall e :: !OnList(s, e, t)
  }

  /** vTaskSuspend takes a task out of whatever it was waiting for. */
  lemma SuspendQuiets(s: Sched, t: Task)
    requires Inv(s) && Enabled(s, Suspend_(t))
    ensures Step(s, Suspend_(t)).prio == s.prio && Quiet(Step(s, Suspend_(t)), t)
  {
    hide OneHome, ReadyLists, Ahead, RunsHighest, WellFormed, Members, UnlinkState;
    DropTaskKeeps(s.pending, t, t);
    forall e
      ensures !OnList(Suspend(s, t), e, t)
    {
      SuspendListed(s, t, e, t);
    }
    assert t in (UnlinkState(s, t).suspended + [t]);
  }

  lemma TwiceIsHeld(list: seq<Entry<Task>>, t: Task)
    ensures Before(list, t, t) ==> Holds(list, t)
  {
    if Before(list, t, t) {
      var i, j :| 0 <= i < j < |list| && list[i].owner == t && list[j].owner == t;
      assert list[i] in list;
    }
  }

  lemma QuietIsPlaced(s: Sched, t: Task)
    requires Shape(s) && t < |s.prio| && Quiet(s, t)
    ensures forall e :: 0 <= e < |s.events| ==> !Before(s.events[e], t, t)
  {
    hide Before;
    forall e | 0 <= e < |s.events|
      ensures !Before(s.events[e], t, t)
    {
      TwiceIsHeld(s.events[e], t);
      HoldsIsListed(s, e, t);
    }
  }

  lemma StepKeepsQuiet(s: Sched, ev: Event, t: Task)
    requires Inv(s) && Enabled(s, ev) && t < |s.prio| && Quiet(s, t) && !(ev.Resume_? && ev.t == t)
    ensures Step(s, ev).prio == s.prio && Quiet(Step(s, ev), t)
  {
    Participants(s, ev);
    SuspendedElsewhere(s, t);
    QuietIsPlaced(s, t);
    ReadyAfterStepIff(s, ev, t);
    PendingAfterStepIff(s, ev, t);
    NotifyAfterStep(s, ev, t);
    SuspendedStays(s, ev, t);
    forall e
      ensures OnList(Step(s, ev), e, t) <==> Joins(s, ev, e, t) || (OnList(s, e, t) && !Leaves(s, ev, e, t))
    {
      ListedAfterStepIff(s, ev, e, t);
    }
    hide Step, Inv, Ready, OnList, Before, Due;
  }

  /** A suspended task is not ready in any later state, whatever events, notifications and ticks there
      are, until it is resumed; and then it is. */
  lemma {:induction false} SuspendedUntilResumed(s: Sched, evs: seq<Event>, t: Task)
    requires Inv(s) && Possible(s, evs) && t < |s.prio| && Quiet(s, t)
    requires Resume_(t) !in evs
    ensures var r := Run(s, evs);
            && Inv(r) && r.prio == s.prio && !Ready(r, t)
            && (t != r.current ==> Enabled(r, Resume_(t)) && Ready(Step(r, Resume_(t)), t))
    decreases evs
  {
    hide Step, Enabled, Quiet, Members, ReadyLists, OneHome, Ahead, RunsHighest;
    if evs == [] {
      QuietResumes(s, t);
    } else {
      StepKeepsInv(s, evs[0]);
      StepKeepsQuiet(s, evs[0], t);
      SuspendedUntilResumed(Step(s, evs[0]), evs[1..], t);
    }
  }

  lemma QuietResumes(s: Sched, t: Task)
    requires Inv(s) && t < |s.prio| && Quiet(s, t)
    ensures !Ready(s, t) && Enabled(s, Resume_(t)) && Step(s, Resume_(t)).prio == s.prio
    ensures t != s.current ==> Ready(Step(s, Resume_(t)), t)
  {
    hide Step;
    SuspendedElsewhere(s, t);
    ReadyAfterStepIff(s, Resume_(t), t);
  }

  // ---------- notifications are kept ----------

  /** No step finishes a wait of t for a notification. */
  ghost predicate NeverFinishes(s: Sched, evs: seq<Event>, t: Task)
    requires Inv(s) && Possible(s, evs)
    decreases evs
  {
    evs == [] || (!(evs[0].NotifyFinish_? && s.current == t)
                  && (StepKeepsInv(s, evs[0]); NeverFinishes(Step(s, evs[0]), evs[1..], t)))
  }

  /** A notification is not lost: in every run it is kept until t finishes a wait for one, and as long
      as it is kept such a wait goes through without blocking. */
  lemma {:induction false} NotificationIsKept(s: Sched, evs: seq<Event>, t: Task, ticks: Tick)
    requires Inv(s) && Possible(s, evs) && t < |s.prio| && s.notify[t] == Received && NeverFinishes(s, evs, t)
    ensures var r := Run(s, evs);
            && Inv(r) && r.prio == s.prio && r.notify[t] == Received
            && (r.current == t && Enabled(r, NotifyWait_(ticks)) ==> Step(r, NotifyWait_(ticks)) == r)
    decreases evs
  {
    hide Step, Members, ReadyLists, OneHome, Ahead, RunsHighest;
    if evs == [] {
      if s.current == t && Enabled(s, NotifyWait_(ticks)) {
        ReceivedGoesThrough(s, ticks);
      }
    } else {
      StepKeepsInv(s, evs[0]);
      StepAdvances(s, evs[0]);
      NotifyAfterStep(s, evs[0], t);
      NotificationIsKept(Step(s, evs[0]), evs[1..], t, ticks);
    }
  }

  lemma ReceivedGoesThrough(s: Sched, ticks: Tick)
    requires Inv(s) && Enabled(s, NotifyWait_(ticks)) && s.notify[s.current] == Received
    ensures Step(s, NotifyWait_(ticks)) == s
  {
  }

  /** Any notification is received; one that t does not wait for changes nothing else. */
  lemma NotificationIsReceived(s: Sched, ev: Event, t: Task)
    requires Inv(s) && Enabled(s, ev) && t < |s.prio| && (ev == Notify_(t) || (ev.NotifyFromIsr_? && ev.t == t))
    ensures Step(s, ev).notify == s.notify[t := Received]
    ensures s.notify[t] != Waiting ==> Step(s, ev) == s.(notify := s.notify[t := Received])
  {
    hide OneHome, ReadyLists, Ahead, RunsHighest, MakeReady;
  }

  /** It serves one wait: once a wait is finished, the next one blocks. */
  lemma NotificationServesOnce(s: Sched, ticks: Tick)
    requires Inv(s) && Enabled(s, NotifyFinish_) && ticks > 0
    ensures var r := Step(s, NotifyFinish_);
            && Inv(r) && r.current == s.current && Enabled(r, NotifyWait_(ticks))
            && Step(r, NotifyWait_(ticks)).prio == s.prio && !Ready(Step(r, NotifyWait_(ticks)), s.current)
  {
    StepKeepsInv(s, NotifyFinish_);
    var r := Step(s, NotifyFinish_);
    hide OneHome, ReadyLists, Ahead, RunsHighest, Members, NotifyWait;
    ReadyAfterStepIff(r, NotifyWait_(ticks), s.current);
  }
}
