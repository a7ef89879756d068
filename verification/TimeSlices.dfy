/** Time slicing: what the tick, the context switch and the walking list cursor give together to
    ready tasks of the same priority, while less urgent tasks sleep, wake and are suspended. */
module TimeSlices {
  import opened Ticks
  import opened ListSpec
  import opened DelayLists
  import opened SchedulerSpec
  import opened SchedulerRuns
  import opened SchedulerTheorems

  predicate Lower(s: Sched, t: Task) {
    t < |s.prio| && s.current < |s.prio| && s.prio[t] < s.prio[s.current]
  }

  /** Several ready tasks share the highest priority, and those that sleep are less urgent. */
  ghost predicate Sharing(s: Sched) {
    && Inv(s) && s.depth == 0
    && (forall x :: x in s.sleeping ==> Lower(s, x.owner))
    && |s.ready[s.prio[s.current]].items| > 1
    && (forall q :: s.prio[s.current] < q < MAX_PRIORITIES ==> s.ready[q].items == [])
  }

  /** What may happen besides: less urgent tasks are woken, notified, suspended and resumed. */
  ghost predicate Quiet(s: Sched, ev: Event)
    requires Shape(s) && Enabled(s, ev)
  {
    match ev
    case EventWake_(e) => Lower(s, s.events[e][0].owner)
    case Notify_(t) => Lower(s, t)
    case NotifyFromIsr_(t, _) => Lower(s, t)
    case Suspend_(t) => Lower(s, t)
    case Resume_(t) => Lower(s, t)
    case _ => false
  }

  /** The ready lists from the running task's priority up, the running task and the priorities are
      the same, and no sleeper is new. */
  ghost predicate SameTop(s: Sched, r: Sched) {
    && |s.ready| == |r.ready| == MAX_PRIORITIES
    && r.prio == s.prio && r.current == s.current && r.depth == s.depth
    && (forall q :: 0 <= q < MAX_PRIORITIES && s.current < |s.prio| && s.prio[s.current] <= q ==>
          r.ready[q] == s.ready[q])
    && (forall x :: x in r.sleeping ==> x in s.sleeping)
  }

  lemma SameTopShares(s: Sched, r: Sched)
    requires Sharing(s) && SameTop(s, r) && Inv(r)
    ensures Sharing(r)
  {
    hide OneHome, Ahead, Members, ReadyLists, RunsHighest, NothingDeferred;
    forall x | x in r.sleeping
      ensures Lower(r, x.owner)
    {
      assert Lower(s, x.owner);
    }
  }

  lemma LowerReady(s: Sched, t: Task)
    requires Shape(s) && Lower(s, t)
    ensures SameTop(s, MakeReady(s, t)) && SameTop(s, UnlinkState(s, t))
  {
    hide InsertEnd, DropReady;
    forall x | x in Without(s.sleeping, t)
      ensures x in s.sleeping
    {
      WithoutKeeps(s.sleeping, t, x);
    }
  }

  lemma LowerWakes(s: Sched, ev: Event)
    requires Inv(s) && s.depth == 0 && Enabled(s, ev) && Quiet(s, ev) && ev.EventWake_?
    ensures SameTop(s, Step(s, ev))
  {
    hide OneHome, Ahead, ReadyLists, RunsHighest, MakeReady, WellFormed;
    LowerReady(s.(events := s.events[ev.e := s.events[ev.e][1..]]), s.events[ev.e][0].owner);
  }

  lemma LowerNotified(s: Sched, ev: Event)
    requires Inv(s) && s.depth == 0 && Enabled(s, ev) && Quiet(s, ev) && (ev.Notify_? || ev.NotifyFromIsr_?)
    ensures SameTop(s, Step(s, ev))
  {
    hide OneHome, Ahead, ReadyLists, RunsHighest, MakeReady, WellFormed, Members;
    LowerReady(s.(notify := s.notify[ev.t := Received]), ev.t);
  }

  lemma LowerSuspended(s: Sched, ev: Event)
    requires Inv(s) && s.depth == 0 && Enabled(s, ev) && Quiet(s, ev) && (ev.Suspend_? || ev.Resume_?)
    ensures SameTop(s, Step(s, ev))
  {
    hide OneHome, Ahead, ReadyLists, RunsHighest, MakeReady, UnlinkState, WellFormed, Members;
    LowerReady(s, ev.t);
  }

  lemma QuietKeepsTop(s: Sched, ev: Event)
    requires Sharing(s) && Enabled(s, ev) && Quiet(s, ev)
    ensures SameTop(s, Step(s, ev)) && Sharing(Step(s, ev))
  {
    hide Step, SameTop, OneHome, Ahead, ReadyLists, RunsHighest, WellFormed, Members, Lower;
    StepKeepsInv(s, ev);
    match ev {
      case EventWake_(_) => LowerWakes(s, ev);
      case Notify_(_) => LowerNotified(s, ev);
      case NotifyFromIsr_(_, _) => LowerNotified(s, ev);
      case Suspend_(_) => LowerSuspended(s, ev);
      case Resume_(_) => LowerSuspended(s, ev);
    }
    SameTopShares(s, Step(s, ev));
  }

  ghost predicate AllQuiet(s: Sched, evs: seq<Event>)
    requires Inv(s) && Possible(s, evs)
    decreases evs
  {
    evs == [] || (Quiet(s, evs[0]) && (StepKeepsInv(s, evs[0]); AllQuiet(Step(s, evs[0]), evs[1..])))
  }

  lemma {:induction false} QuietRun(s: Sched, evs: seq<Event>)
    requires Sharing(s) && Possible(s, evs) && AllQuiet(s, evs)
    ensures SameTop(s, Run(s, evs)) && Sharing(Run(s, evs))
    decreases evs
  {
    hide Step, Inv, Quiet;
    if evs != [] {
      QuietKeepsTop(s, evs[0]);
      QuietRun(Step(s, evs[0]), evs[1..]);
    }
  }

  // ---------- one slice ----------

  /** Less urgent sleepers that wake leave the top ready list alone. */
  lemma {:induction false} WakeDueTop(s: Sched, urgent: bool)
    requires Shape(s) && Members(s) && forall x :: x in s.sleeping ==> Lower(s, x.owner)
    ensures SameTop(s, WakeDue(s, urgent).0)
    decreases |s.sleeping|
  {
    hide InsertEnd, DropEvent;
    if s.sleeping != [] && s.sleeping[0].value <= s.now {
      var x := s.sleeping[0];
      assert x in s.sleeping;
      WakeHeadMembers(s);
      var r := WakeHead(s);
      assert forall y :: y in r.sleeping ==> y in s.sleeping;
      assert SameTop(s, r);
      WakeDueTop(r, urgent || s.prio[x.owner] >= s.prio[s.current]);
    }
  }

  lemma TickTop(s: Sched)
    requires Sharing(s)
    ensures SameTop(s, TickIsr(s)) && Sharing(TickIsr(s)) && TickIsr(s).switchRequested
  {
    hide OneHome, Ahead, ReadyLists, RunsHighest, WakeDue;
    TickKeepsInv(s);
    assert forall x :: x in s.sleeping ==> Lower(s.(now := s.now + 1), x.owner);
    WakeDueTop(s.(now := s.now + 1), false);
    SameTopShares(s, TickIsr(s));
  }

  lemma {:induction false} HighestIs(ready: seq<Ring<Task>>, top: nat, p: nat)
    requires p <= top < |ready| && ready[0].items != [] && ready[p].items != []
    requires forall q :: p < q <= top ==> ready[q].items == []
    ensures HighestReady(ready, top) == p
    decreases top
  {
    if top > p {
      HighestIs(ready, top - 1, p);
    }
  }

  /** The switch takes the next task of the list. */
  lemma SwitchMovesOn(s: Sched)
    requires Sharing(s)
    ensures s.ready[0].items != []
    ensures forall t :: t in s.ready[HighestReady(s.ready, s.top)].items ==> t < |s.prio|
    ensures var p, r := s.prio[s.current], SwitchContext(s);
            && r.current == Selected(Advance(s.ready[p])) && r.ready[p] == Advance(s.ready[p])
            && Sharing(r) && r.prio == s.prio && r.prio[r.current] == p
  {
    hide OneHome, Ahead, Members;
    var p := s.prio[s.current];
    SwitchKeepsInv(s);
    HighestIs(s.ready, s.top, p);
    var r := SwitchContext(s);
    assert Selected(Advance(s.ready[p])) in s.ready[p].items;
    assert OnlyAt(s.prio, s.ready[p].items, p);
    forall x | x in r.sleeping
      ensures Lower(r, x.owner)
    {
      assert Lower(s, x.owner);
    }
  }

  /** A slice that can happen: quiet steps, a tick, and the switch it asks for. */
  ghost predicate SliceOk(s: Sched, evs: seq<Event>)
    requires Sharing(s)
  {
    Possible(s, evs) && AllQuiet(s, evs)
  }

  ghost function Slice(s: Sched, evs: seq<Event>): (r: Sched)
    requires Sharing(s) && SliceOk(s, evs)
  {
    QuietRun(s, evs);
    TickTop(Run(s, evs));
    SwitchMovesOn(TickIsr(Run(s, evs)));
    SwitchContext(TickIsr(Run(s, evs)))
  }

  lemma SliceMovesOn(s: Sched, evs: seq<Event>)
    requires Sharing(s) && SliceOk(s, evs)
    ensures var p, r := s.prio[s.current], Slice(s, evs);
            && r.current == Selected(Advance(s.ready[p])) && r.ready[p] == Advance(s.ready[p])
            && Sharing(r) && r.prio[r.current] == p
  {
    hide OneHome, Ahead, Members, ReadyLists, RunsHighest, Advance, Run, TickIsr, SwitchContext;
    QuietRun(s, evs);
    TickTop(Run(s, evs));
    SwitchMovesOn(TickIsr(Run(s, evs)));
  }

  // ---------- many slices ----------

  ghost predicate SlicesOk(s: Sched, slices: seq<seq<Event>>)
    requires Sharing(s)
    decreases slices
  {
    slices == [] ||
    (SliceOk(s, slices[0]) && (SliceMovesOn(s, slices[0]); SlicesOk(Slice(s, slices[0]), slices[1..])))
  }

  /** The tasks that run in these slices. */
  ghost function Runners(s: Sched, slices: seq<seq<Event>>): (r: seq<Task>)
    requires Sharing(s) && SlicesOk(s, slices)
    ensures |r| == |slices|
    decreases slices
  {
    if slices == [] then []
    else
      SliceMovesOn(s, slices[0]);
      [Slice(s, slices[0]).current] + Runners(Slice(s, slices[0]), slices[1..])
  }

  lemma {:induction false} RunnersArePicks(s: Sched, slices: seq<seq<Event>>)
    requires Sharing(s) && SlicesOk(s, slices)
    ensures Runners(s, slices) == Picks(s.ready[s.prio[s.current]], |slices|)
    decreases slices
  {
    hide Inv, Sharing, SliceOk, Slice, Advance;
    if slices != [] {
      SliceMovesOn(s, slices[0]);
      RunnersArePicks(Slice(s, slices[0]), slices[1..]);
    }
  }

  /** Ready tasks of the highest priority run in turn, whatever happens to less urgent ones in
      between: in as many slices as there are such tasks, each of them runs exactly once. */
  lemma FairShare(s: Sched, slices: seq<seq<Event>>)
    requires Sharing(s) && SlicesOk(s, slices) && |slices| == |s.ready[s.prio[s.current]].items|
    ensures multiset(Runners(s, slices)) == multiset(s.ready[s.prio[s.current]].items)
  {
    hide Runners, Picks, SlicesOk;
    RunnersArePicks(s, slices);
    RoundRobin(s.ready[s.prio[s.current]]);
  }
}
