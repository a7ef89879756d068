/** Laws of the scheduler's event lists, suspensions and notifications, for every step and run. */
module WaitLaws {
  import opened Ticks
  import opened ListSpec
  import opened DelayLists
  import opened SchedulerSpec
  import opened SchedulerRuns
  import opened SchedulerTheorems
  import opened SchedulerLaws
  import Deferral

  // ---------- lists that only lose items ----------

  ghost predicate Holds(list: seq<Entry<Task>>, t: Task) {
    exists x :: x in list && x.owner == t
  }

  /** Task a stands in front of task b; Before(list, a, a) says that a is there twice. */
  ghost predicate Before(list: seq<Entry<Task>>, a: Task, b: Task) {
    exists i, j :: 0 <= i < j < |list| && list[i].owner == a && list[j].owner == b
  }

  /** v is w without some of its items. */
  ghost predicate Thin(v: seq<Entry<Task>>, w: seq<Entry<Task>>) {
    && (forall x :: x in v ==> x in w)
    && (Sorted(w) ==> Sorted(v))
    && (forall a, b :: Before(v, a, b) ==> Before(w, a, b))
  }

  ghost predicate Thinner(v: seq<seq<Entry<Task>>>, w: seq<seq<Entry<Task>>>) {
    |v| == |w| && forall e :: 0 <= e < |v| ==> Thin(v[e], w[e])
  }

  lemma TailIsThin(w: seq<Entry<Task>>)
    requires w != []
    ensures Thin(w[1..], w)
  {
    forall a, b | Before(w[1..], a, b)
      ensures Before(w, a, b)
    {
      var i, j :| 0 <= i < j < |w| - 1 && w[1..][i].owner == a && w[1..][j].owner == b;
      assert w[i + 1].owner == a && w[j + 1].owner == b;
    }
  }

  lemma RemovalIsThin(w: seq<Entry<Task>>, k: nat)
    requires k < |w|
    ensures Thin(RemoveAt(w, k), w)
  {
    var v := RemoveAt(w, k);
    forall a, b | Before(v, a, b)
      ensures Before(w, a, b)
    {
      var i, j :| 0 <= i < j < |v| && v[i].owner == a && v[j].owner == b;
      assert w[if i < k then i else i + 1].owner == a && w[if j < k then j else j + 1].owner == b;
    }
  }

  lemma BeforeHead(list: seq<Entry<Task>>, a: Task, b: Task)
    requires list != []
    ensures Before(list, a, b) <==> (list[0].owner == a && Holds(list[1..], b)) || Before(list[1..], a, b)
  {
    var rest := list[1..];
    if Before(list, a, b) {
      var i, j :| 0 <= i < j < |list| && list[i].owner == a && list[j].owner == b;
      assert rest[j - 1].owner == b && rest[j - 1] in rest;
      if i > 0 {
        assert rest[i - 1].owner == a;
      }
    }
    if list[0].owner == a && Holds(rest, b) {
      var x :| x in rest && x.owner == b;
      var j :| 0 <= j < |rest| && rest[j] == x;
      assert list[0].owner == a && list[j + 1].owner == b;
    }
    if Before(rest, a, b) {
      var i, j :| 0 <= i < j < |rest| && rest[i].owner == a && rest[j].owner == b;
      assert list[i + 1].owner == a && list[j + 1].owner == b;
    }
  }

  lemma WithoutHolds(w: seq<Entry<Task>>, t: Task, a: Task)
    ensures Holds(Without(w, t), a) <==> Holds(w, a) && a != t
  {
    forall x
      ensures x in Without(w, t) <==> x in w && x.owner != t
    {
      WithoutKeeps(w, t, x);
    }
    if Holds(w, a) && a != t {
      var x :| x in w && x.owner == a;
      assert x in Without(w, t);
    }
  }

  lemma {:induction false} WithoutKeepsBefore(w: seq<Entry<Task>>, t: Task, a: Task, b: Task)
    requires Before(Without(w, t), a, b)
    ensures Before(w, a, b)
    decreases w
  {
    hide Before, Holds;
    if w == [] {
      assert Before([], a, b);
      EmptyOrder(a, b);
    } else {
      BeforeHead(w, a, b);
      WithoutHolds(w[1..], t, b);
      if w[0].owner == t {
        WithoutKeepsBefore(w[1..], t, a, b);
      } else {
        BeforeHead(Without(w, t), a, b);
        assert Without(w, t)[1..] == Without(w[1..], t);
        if Before(Without(w[1..], t), a, b) {
          WithoutKeepsBefore(w[1..], t, a, b);
        }
      }
    }
  }

  lemma EmptyOrder(a: Task, b: Task)
    ensures !Before([], a, b)
  {
  }

  lemma WithoutIsThin(w: seq<Entry<Task>>, t: Task)
    ensures Thin(Without(w, t), w)
  {
    forall x
      ensures x in Without(w, t) ==> x in w
    {
      WithoutKeeps(w, t, x);
    }
    if Sorted(w) {
      WithoutSorted(w, t);
    }
    forall a, b | Before(Without(w, t), a, b)
      ensures Before(w, a, b)
    {
      WithoutKeepsBefore(w, t, a, b);
    }
  }

  lemma DroppedIsThinner(w: seq<seq<Entry<Task>>>, t: Task)
    ensures Thinner(DropEvent(w, t), w)
  {
    forall e | 0 <= e < |w|
      ensures Thin(DropEvent(w, t)[e], w[e])
    {
      WithoutIsThin(w[e], t);
    }
  }

  lemma ThinnerStill(u: seq<seq<Entry<Task>>>, v: seq<seq<Entry<Task>>>, w: seq<seq<Entry<Task>>>)
    requires Thinner(u, v) && Thinner(v, w)
    ensures Thinner(u, w)
  {
    forall e | 0 <= e < |u|
      ensures Thin(u[e], w[e])
    {
      ThinStill(u[e], v[e], w[e]);
    }
  }

  lemma ThinStill(u: seq<Entry<Task>>, v: seq<Entry<Task>>, w: seq<Entry<Task>>)
    requires Thin(u, v) && Thin(v, w)
    ensures Thin(u, w)
  {
    hide Before, Sorted;
  }

  lemma Unchanged(w: seq<seq<Entry<Task>>>)
    ensures Thinner(w, w)
  {
    hide Before, Sorted;
  }

  lemma ShorterIsThinner(w: seq<seq<Entry<Task>>>, e: nat, v: seq<Entry<Task>>)
    requires e < |w| && Thin(v, w[e])
    ensures Thinner(w[e := v], w)
  {
    hide Before, Sorted;
  }

  lemma {:induction false} WakeDueThins(s: Sched, urgent: bool)
    requires Shape(s) && Members(s)
    ensures Thinner(WakeDue(s, urgent).0.events, s.events)
    decreases |s.sleeping|
  {
    hide Thinner, DropEvent, InsertEnd, Members, WellFormed;
    if s.sleeping != [] && s.sleeping[0].value <= s.now {
      Deferral.FirstSleeper(s);
      WakeHeadMembers(s);
      DroppedIsThinner(s.events, s.sleeping[0].owner);
      WakeDueThins(WakeHead(s), urgent || s.prio[s.sleeping[0].owner] >= s.prio[s.current]);
      ThinnerStill(WakeDue(s, urgent).0.events, WakeHead(s).events, s.events);
    } else {
      Unchanged(s.events);
    }
  }

  lemma {:induction false} UnwindThins(s: Sched, n: nat)
    requires Shape(s) && Members(s)
    ensures Thinner(UnwindTicks(s, n).events, s.events)
    decreases n
  {
    hide Thinner, WakeDue;
    if n == 0 {
      Unchanged(s.events);
    } else {
      WakeDueThins(s.(now := s.now + 1), false);
      hide UnwindOne;
      UnwindThins(UnwindOne(s), n - 1);
      ThinnerStill(UnwindTicks(s, n).events, UnwindOne(s).events, s.events);
    }
  }

  lemma TimeThins(s: Sched, ev: Event)
    requires Inv(s) && Enabled(s, ev) && (ev.Tick_? || ev.ResumeAll_?)
    ensures Thinner(Step(s, ev).events, s.events)
  {
    hide Thinner, WakeDue, ReadyLists, OneHome, Ahead, RunsHighest, DrainPending, UnwindTicks;
    Unchanged(s.events);
    if ev.Tick_? {
      WakeDueThins(s.(now := s.now + 1), false);
    } else if s.depth == 1 {
      var a := s.(depth := 0);
      Deferral.DrainFrame(a);
      UnwindThins(DrainPending(a), s.pended);
    }
  }

  lemma WakeThins(s: Sched, ev: Event)
    requires Inv(s) && Enabled(s, ev) && (ev.EventWake_? || ev.UnorderedWake_? || ev.Suspend_?)
    ensures Thinner(Step(s, ev).events, s.events)
  {
    hide Thinner, Thin, OneHome, ReadyLists, Ahead, RunsHighest, WellFormed, Members, MakeReady, DropEvent;
    match ev
    case EventWake_(e) =>
      TailIsThin(s.events[e]);
      ShorterIsThinner(s.events, e, s.events[e][1..]);
    case UnorderedWake_(e, k) =>
      RemovalIsThin(s.events[e], k);
      ShorterIsThinner(s.events, e, RemoveAt(s.events[e], k));
    case Suspend_(t) => DroppedIsThinner(s.events, t);
  }

  lemma OthersLeaveEvents(s: Sched, ev: Event)
    requires Inv(s) && Enabled(s, ev)
    requires !ev.WaitOn_? && !ev.EventWake_? && !ev.UnorderedWake_? && !ev.Suspend_? && !ev.Tick_? && !ev.ResumeAll_?
    ensures Step(s, ev).events == s.events
  {
    hide OneHome, ReadyLists, Ahead, RunsHighest, WellFormed, Members, MakeReady, Insert;
  }

  /** Every step but a wait only takes items off the event lists: those that stay keep their order. */
  lemma StepThins(s: Sched, ev: Event)
    requires Inv(s) && Enabled(s, ev) && !ev.WaitOn_?
    ensures Thinner(Step(s, ev).events, s.events)
  {
    hide Inv, Enabled, Step, Thinner;
    if ev.Tick_? || ev.ResumeAll_? {
      TimeThins(s, ev);
    } else if ev.EventWake_? || ev.UnorderedWake_? || ev.Suspend_? {
      WakeThins(s, ev);
    } else {
      OthersLeaveEvents(s, ev);
      Unchanged(s.events);
    }
  }

  // ---------- the most urgent waiter first, and no overtaking ----------

  /** The value that vTaskPlaceOnEventList sorts by: small for a high priority. */
  function Rank(s: Sched, t: Task): (v: int)
    requires t < |s.prio|
  {
    MAX_PRIORITIES - s.prio[t]
  }

  /** An event list is in priority order. */
  ghost predicate InOrder(s: Sched, list: seq<Entry<Task>>) {
    Sorted(list) && forall x :: x in list ==> x.owner < |s.prio| && x.value == Rank(s, x.owner)
  }

  ghost predicate AllInOrder(s: Sched) {
    forall e :: 0 <= e < |s.events| ==> InOrder(s, s.events[e])
  }

  lemma ArrivalInOrder(s: Sched, list: seq<Entry<Task>>, t: Task)
    requires InOrder(s, list) && t < |s.prio|
    ensures InOrder(s, Insert(list, Entry(t, Rank(s, t))))
  {
    InsertIsStable(list, Entry(t, Rank(s, t)));
    InsertAllOf(list, Entry(t, Rank(s, t)));
  }

  lemma ThinInOrder(s: Sched, r: Sched)
    requires AllInOrder(s) && Thinner(r.events, s.events) && r.prio == s.prio
    ensures AllInOrder(r)
  {
    hide Sorted, Before;
    forall e | 0 <= e < |r.events|
      ensures InOrder(r, r.events[e])
    {
      assert Thin(r.events[e], s.events[e]) && InOrder(s, s.events[e]);
    }
  }

  lemma WaitPlaces(s: Sched, e: nat, ticks: Tick)
    requires Inv(s) && Enabled(s, WaitOn_(e, ticks))
    ensures var r := Step(s, WaitOn_(e, ticks));
            r.events == s.events[e := Insert(s.events[e], Entry(s.current, Rank(s, s.current)))] && r.prio == s.prio
  {
    hide Insert, BlockCurrent;
  }

  /** Every step keeps every event list in priority order. */
  lemma StepKeepsOrder(s: Sched, ev: Event)
    requires Inv(s) && Enabled(s, ev) && AllInOrder(s)
    ensures AllInOrder(Step(s, ev))
  {
    hide Inv, Step, Enabled, Thinner, InOrder, Insert;
    if ev.WaitOn_? {
      CurrentIsKnown(s, ev);
      WaitPlaces(s, ev.e, ev.ticks);
      ArrivalInOrder(s, s.events[ev.e], s.current);
      SameRanks(s, Step(s, ev));
    } else {
      StepThins(s, ev);
      StepAdvances(s, ev);
      ThinInOrder(s, Step(s, ev));
    }
  }

  lemma CurrentIsKnown(s: Sched, ev: Event)
    requires Inv(s) && Enabled(s, ev)
    ensures Shape(s) && s.current < |s.prio|
    ensures ev.WaitOn_? ==> ev.e < |s.events| && Ready(s, s.current)
  {
  }

  lemma SameRanks(s: Sched, r: Sched)
    requires r.prio == s.prio
    ensures forall list :: InOrder(s, list) <==> InOrder(r, list)
  {
    hide Sorted;
  }

  lemma {:induction false} RunKeepsOrder(s: Sched, evs: seq<Event>)
    requires Inv(s) && Possible(s, evs) && AllInOrder(s)
    ensures Inv(Run(s, evs)) && AllInOrder(Run(s, evs))
    decreases evs
  {
    hide Inv, Step, Enabled, AllInOrder;
    if evs != [] {
      StepKeepsInv(s, evs[0]);
      StepKeepsOrder(s, evs[0]);
      RunKeepsOrder(Step(s, evs[0]), evs[1..]);
    }
  }

  lemma BootInOrder(prio: seq<nat>, objects: nat, first: Task)
    requires first < |prio|
    ensures AllInOrder(Boot(prio, objects, first))
  {
  }

  /** x leaves event list e and is woken, and nothing else changes on the event lists. */
  ghost predicate Takes(s: Sched, r: Sched, e: nat, x: Entry<Task>)
    requires Shape(r) && e < |s.events|
  {
    && x in s.events[e] && x.owner < |r.prio|
    && |r.events| == |s.events| && r.events == s.events[e := r.events[e]]
    && multiset(s.events[e]) == multiset(r.events[e]) + multiset{x}
    && if s.depth == 0 then Ready(r, x.owner) else x.owner in r.pending
  }

  lemma EventTakesFirst(s: Sched, e: nat)
    requires Inv(s) && Enabled(s, EventWake_(e))
    ensures Takes(s, Step(s, EventWake_(e)), e, s.events[e][0])
  {
    hide OneHome, ReadyLists, Ahead, RunsHighest, WellFormed, Members, MakeReady;
    WaiterIsKnown(s, e, 0);
    EventsReady(s, EventWake_(e), s.events[e][0].owner);
    assert s.events[e] == [s.events[e][0]] + s.events[e][1..];
  }

  lemma FirstIsMostUrgent(s: Sched, list: seq<Entry<Task>>)
    requires InOrder(s, list) && list != []
    ensures list[0].owner < |s.prio|
    ensures forall y :: y in list ==> y.owner < |s.prio| && s.prio[y.owner] <= s.prio[list[0].owner]
  {
    assert list[0] in list;
    forall y | y in list
      ensures s.prio[y.owner] <= s.prio[list[0].owner]
    {
      var k :| 0 <= k < |list| && list[k] == y;
      assert list[0].value <= y.value;
    }
  }

  /** An event takes the most urgent of all that wait for it off the list, and no other. */
  lemma EventTakesMostUrgent(s: Sched, e: nat) returns (x: Entry<Task>)
    requires Inv(s) && Enabled(s, EventWake_(e)) && AllInOrder(s)
    ensures Takes(s, Step(s, EventWake_(e)), e, x)
    ensures x.owner < |s.prio|
    ensures forall y :: y in s.events[e] ==> y.owner < |s.prio| && s.prio[y.owner] <= s.prio[x.owner]
  {
    EventTakesFirst(s, e);
    hide Inv, Step, Takes, InOrder;
    x := s.events[e][0];
    FirstIsMostUrgent(s, s.events[e]);
  }

  /** So in every run from start-up, whose event lists are empty (BootInOrder). */
  lemma MostUrgentIsTaken(start: Sched, evs: seq<Event>, e: nat) returns (s: Sched, x: Entry<Task>)
    requires Inv(start) && AllInOrder(start) && Possible(start, evs) && Enabled(Run(start, evs), EventWake_(e))
    ensures s == Run(start, evs) && Inv(s)
    ensures Takes(s, Step(s, EventWake_(e)), e, x)
    ensures x.owner < |s.prio|
    ensures forall y :: y in s.events[e] ==> y.owner < |s.prio| && s.prio[y.owner] <= s.prio[x.owner]
  {
    hide Inv, Enabled, AllInOrder, Run, Takes;
    s := Run(start, evs);
    RunKeepsOrder(start, evs);
    x := EventTakesMostUrgent(s, e);
  }

  lemma RemovalTakes(list: seq<Entry<Task>>, k: nat)
    requires k < |list|
    ensures multiset(list) == multiset(RemoveAt(list, k)) + multiset{list[k]}
  {
    assert list == list[..k] + [list[k]] + list[k + 1..];
  }

  /** An event group takes whichever waiter it chooses off the list, and no other. */
  lemma UnorderedTakes(s: Sched, e: nat, k: nat)
    requires Inv(s) && Enabled(s, UnorderedWake_(e, k))
    ensures Takes(s.(depth := 0), Step(s, UnorderedWake_(e, k)), e, s.events[e][k])
  {
    hide OneHome, ReadyLists, Ahead, RunsHighest, WellFormed, Members, MakeReady;
    WaiterIsKnown(s, e, k);
    EventsReady(s, UnorderedWake_(e, k), s.events[e][k].owner);
    RemovalTakes(s.events[e], k);
  }

  /** As long as a waits, one that is not more urgent and not in front of a does not get in front. */
  lemma StepKeepsFront(s: Sched, ev: Event, e: nat, a: Task, b: Task)
    requires Inv(s) && Enabled(s, ev) && AllInOrder(s) && e < |s.events| && Holds(s.events[e], a) && !Ready(s, a)
    requires a < |s.prio| && b < |s.prio| && a != b && s.prio[b] <= s.prio[a] && !Before(s.events[e], b, a)
    ensures |Step(s, ev).events| == |s.events| && !Before(Step(s, ev).events[e], b, a)
  {
    hide Inv, Step, Enabled, InOrder, Insert, Before, Holds, Ready;
    if ev.WaitOn_? {
      CurrentIsKnown(s, ev);
      WaitPlaces(s, ev.e, ev.ticks);
      if ev.e == e {
        assert InOrder(s, s.events[e]);
        if Before(Step(s, ev).events[e], b, a) {
          ArrivalStaysBehind(s, s.events[e], s.current, a, b);
        }
      }
    } else {
      StepThins(s, ev);
      assert Thin(Step(s, ev).events[e], s.events[e]);
    }
  }

  lemma ArrivalStaysBehind(s: Sched, list: seq<Entry<Task>>, c: Task, a: Task, b: Task)
    requires InOrder(s, list) && c < |s.prio| && c != a && a < |s.prio| && b < |s.prio| && s.prio[b] <= s.prio[a]
    requires Before(Insert(list, Entry(c, Rank(s, c))), b, a)
    ensures Before(list, b, a)
  {
    var y := Entry(c, Rank(s, c));
    var v, p := Insert(list, y), InsertPos(list, y.value);
    InsertAt(list, y, 0);
    var i, j :| 0 <= i < j < |v| && v[i].owner == b && v[j].owner == a;
    InsertAt(list, y, i);
    InsertAt(list, y, j);
    var j0 := if j < p then j else j - 1;
    assert list[j0].owner == a && list[j0] in list;
    SortedSplit(list, y.value);
    if i != p {
      assert list[if i < p then i else i - 1].owner == b;
    }
  }

  // ---------- where a task is listed after a step ----------

  ghost predicate Joins(s: Sched, ev: Event, e: nat, t: Task) {
    ev.WaitOn_? && ev.e == e && t == s.current
  }

  ghost predicate Leaves(s: Sched, ev: Event, e: nat, t: Task)
    requires Inv(s) && Enabled(s, ev)
  {
    match ev
    case Tick_ => s.depth == 0 && Due(s.sleeping, t, s.now + 1)
    case ResumeAll_ => s.depth == 1 && t !in s.pending && Due(s.sleeping, t, s.now + s.pended)
    case EventWake_(f) => f == e && s.events[e][0].owner == t
    case UnorderedWake_(f, k) => f == e && s.events[e][k].owner == t
    case Suspend_(u) => u == t
    case _ => false
  }

  lemma RemovalHolds(list: seq<Entry<Task>>, k: nat, t: Task)
    requires k < |list| && !Before(list, t, t)
    ensures Holds(RemoveAt(list, k), t) <==> Holds(list, t) && t != list[k].owner
  {
    var v := RemoveAt(list, k);
    if Holds(v, t) {
      var x :| x in v && x.owner == t;
      var i :| 0 <= i < |v| && v[i] == x;
      assert list[if i < k then i else i + 1] == x;
      assert list[if i < k then i else i + 1] in list;
    }
    if Holds(list, t) && t != list[k].owner {
      var x :| x in list && x.owner == t;
      var i :| 0 <= i < |list| && list[i] == x;
      assert v[if i < k then i else i - 1] in v;
    }
  }

  lemma TimeListed(s: Sched, ev: Event, e: nat, t: Task)
    requires Inv(s) && Enabled(s, ev) && t < |s.prio| && (ev.Tick_? || ev.ResumeAll_?)
    ensures OnList(Step(s, ev), e, t) <==> OnList(s, e, t) && !Leaves(s, ev, e, t)
  {
    hide OneHome, ReadyLists, Ahead, RunsHighest, WellFormed, Members, TickOne, ResumeAll, Due, UrgentDue,
         UrgentPending;
    if ev.ResumeAll_? && s.depth > 1 {
      ResumeInside(s);
    } else {
      forall x
        ensures ev.Tick_? && s.depth == 0 ==> |TickOne(s).0.events| == |s.events| && (e < |s.events| ==>
          (x in TickOne(s).0.events[e] <==> x in s.events[e] && !Due(s.sleeping, x.owner, s.now + 1)))
        ensures ev.ResumeAll_? ==> |ResumeAll(s).events| == |s.events| && (e < |s.events| ==>
          (x in ResumeAll(s).events[e] <==>
            x in s.events[e] && (x.owner in s.pending || !Due(s.sleeping, x.owner, s.now + s.pended))))
      {
        if ev.Tick_? && s.depth == 0 {
          TickWakesTheDue(s, x, e, t);
        } else if ev.ResumeAll_? {
          ResumeAllWakes(s, x, e, t);
        }
      }
    }
  }

  lemma EventsOfWake(s: Sched, ev: Event)
    requires Inv(s) && Enabled(s, ev) && (ev.EventWake_? || ev.UnorderedWake_?)
    ensures Step(s, ev).events ==
      s.events[ev.e := RemoveAt(s.events[ev.e], if ev.EventWake_? then 0 else ev.k)]
  {
    hide OneHome, ReadyLists, Ahead, RunsHighest, WellFormed, Members, MakeReady;
    if ev.EventWake_? {
      assert RemoveAt(s.events[ev.e], 0) == s.events[ev.e][1..];
    }
  }

  lemma WakeListed(s: Sched, ev: Event, e: nat, t: Task)
    requires Inv(s) && Enabled(s, ev) && t < |s.prio| && (ev.EventWake_? || ev.UnorderedWake_?)
    requires e < |s.events| ==> !Before(s.events[e], t, t)
    ensures OnList(Step(s, ev), e, t) <==> OnList(s, e, t) && !Leaves(s, ev, e, t)
  {
    EventsOfWake(s, ev);
    hide Inv, Step, RemoveAt, Before;
    if e < |s.events| && ev.e == e {
      RemovalHolds(s.events[e], if ev.EventWake_? then 0 else ev.k, t);
    }
  }

  lemma SuspendListed(s: Sched, u: Task, e: nat, t: Task)
    requires Inv(s) && Known(s, u)
    ensures OnList(Suspend(s, u), e, t) <==> OnList(s, e, t) && t != u
  {
    hide OneHome, ReadyLists, Ahead, RunsHighest, WellFormed, Members, UnlinkState;
    if e < |s.events| {
      WithoutHolds(s.events[e], u, t);
    }
  }

  lemma SuspendIsStep(s: Sched, u: Task)
    requires Inv(s) && Enabled(s, Suspend_(u))
    ensures Known(s, u) && Step(s, Suspend_(u)) == Suspend(s, u)
  {
    hide Suspend;
  }

  /** A step puts the running task on the list it waits for, and takes off what has timed out, been
      woken or been suspended. */
  lemma ListedAfterStepIff(s: Sched, ev: Event, e: nat, t: Task)
    requires Inv(s) && Enabled(s, ev) && t < |s.prio|
    requires e < |s.events| ==> !Before(s.events[e], t, t)
    ensures OnList(Step(s, ev), e, t) <==> Joins(s, ev, e, t) || (OnList(s, e, t) && !Leaves(s, ev, e, t))
  {
    hide Inv, Enabled, Step, Before;
    if ev.Tick_? || ev.ResumeAll_? {
      TimeListed(s, ev, e, t);
    } else if ev.EventWake_? || ev.UnorderedWake_? {
      WakeListed(s, ev, e, t);
    } else if ev.Suspend_? {
      SuspendIsStep(s, ev.t);
      SuspendListed(s, ev.t, e, t);
    } else if ev.WaitOn_? {
      CurrentIsKnown(s, ev);
      WaitPlaces(s, ev.e, ev.ticks);
      InsertAllOf(s.events[ev.e], Entry(s.current, Rank(s, s.current)));
      hide Insert;
    } else {
      OthersLeaveEvents(s, ev);
    }
  }

  /** Which tasks are pending after a step. */
  ghost predicate Pends(s: Sched, ev: Event, t: Task)
    requires Inv(s) && Enabled(s, ev) && t < |s.prio|
  {
    s.depth > 0 &&
    match ev
    case EventWake_(e) => s.events[e][0].owner == t
    case NotifyFromIsr_(u, _) => u == t && s.notify[t] == Waiting
    case _ => false
  }

  lemma TimeFrame(s: Sched, ev: Event)
    requires Inv(s) && Enabled(s, ev) && (ev.Tick_? || ev.ResumeAll_?)
    ensures Step(s, ev).pending == if ev.ResumeAll_? && s.depth == 1 then [] else s.pending
    ensures Step(s, ev).notify == s.notify
  {
    hide OneHome, ReadyLists, Ahead, RunsHighest, WellFormed, Members, TickOne, DrainPending, UnwindTicks;
    if ev.Tick_? && s.depth == 0 {
      TickOneKeeps(s, true);
    } else if ev.ResumeAll_? && s.depth == 1 {
      DepthAside(s, 0);
      DrainKeeps(s.(depth := 0));
      Deferral.DrainFrame(s.(depth := 0));
      UnwindKeeps(DrainPending(s.(depth := 0)), s.pended);
    }
  }

  lemma WakesPendingIff(s: Sched, ev: Event, t: Task)
    requires Inv(s) && Enabled(s, ev) && t < |s.prio|
    requires ev.EventWake_? || ev.UnorderedWake_? || ev.Notify_? || ev.NotifyFromIsr_? || ev.Resume_?
    ensures t in Step(s, ev).pending <==> Pends(s, ev, t) || t in s.pending
  {
    hide OneHome, ReadyLists, Ahead, RunsHighest, WellFormed, Members, MakeReady;
  }

  lemma PendingAfterStepIff(s: Sched, ev: Event, t: Task)
    requires Inv(s) && Enabled(s, ev) && t < |s.prio|
    ensures t in Step(s, ev).pending <==>
      Pends(s, ev, t) || (t in s.pending && !(ev.ResumeAll_? && s.depth == 1) && !(ev.Suspend_? && ev.t == t))
  {
    hide OneHome, ReadyLists, Ahead, RunsHighest, WellFormed, Members, TickIsr, ResumeAll, Insert, EventWake,
         UnorderedWake, Notify, NotifyFromIsr, Resume, UnlinkState;
    if ev.Tick_? || ev.ResumeAll_? {
      TimeFrame(s, ev);
    } else if ev.Suspend_? {
      DropTaskKeeps(s.pending, ev.t, t);
    } else if ev.EventWake_? || ev.UnorderedWake_? || ev.Notify_? || ev.NotifyFromIsr_? || ev.Resume_? {
      WakesPendingIff(s, ev, t);
    }
  }

  /** What the notification state of a task is after a step. */
  function NotifyAfter(s: Sched, ev: Event, t: Task): (n: NotifyState)
    requires t < |s.notify|
  {
    match ev
    case Notify_(u) => if u == t then Received else s.notify[t]
    case NotifyFromIsr_(u, _) => if u == t then Received else s.notify[t]
    case NotifyWait_(_) => if t == s.current && s.notify[t] != Received then Waiting else s.notify[t]
    case NotifyFinish_ => if t == s.current then NotWaiting else s.notify[t]
    case Suspend_(u) => if u == t && s.notify[t] == Waiting then NotWaiting else s.notify[t]
    case _ => s.notify[t]
  }

  lemma WakesLeaveNotify(s: Sched, ev: Event)
    requires Inv(s) && Enabled(s, ev) && (ev.EventWake_? || ev.UnorderedWake_? || ev.Resume_?)
    ensures Step(s, ev).notify == s.notify
  {
    hide OneHome, ReadyLists, Ahead, RunsHighest, WellFormed, MakeReady;
  }

  lemma BlocksLeaveNotify(s: Sched, ev: Event, t: Task)
    requires Inv(s) && Enabled(s, ev) && t < |s.prio| && (ev.Delay_? || ev.WaitOn_? || ev.NotifyWait_? || ev.Suspend_?)
    ensures |Step(s, ev).notify| == |s.notify| && Step(s, ev).notify[t] == NotifyAfter(s, ev, t)
  {
    hide OneHome, ReadyLists, Ahead, RunsHighest, WellFormed, Members, Insert, UnlinkState, DropEvent;
  }

  lemma NotifyAfterStep(s: Sched, ev: Event, t: Task)
    requires Inv(s) && Enabled(s, ev) && t < |s.prio|
    ensures |Step(s, ev).notify| == |s.notify| && Step(s, ev).notify[t] == NotifyAfter(s, ev, t)
  {
    hide OneHome, ReadyLists, Ahead, RunsHighest, WellFormed, Members, TickIsr, ResumeAll, MakeReady, EventWake,
         UnorderedWake, Resume, BlockCurrent, PlaceOnEventList, NotifyWait, Suspend;
    if ev.Tick_? || ev.ResumeAll_? {
      TimeFrame(s, ev);
    } else if ev.EventWake_? || ev.UnorderedWake_? || ev.Resume_? {
      WakesLeaveNotify(s, ev);
    } else if ev.Delay_? || ev.WaitOn_? || ev.NotifyWait_? || ev.Suspend_? {
      BlocksLeaveNotify(s, ev, t);
    }
  }

  // ---------- one place at a time ----------

  /** A task on an event list is blocked, there once and on no other list, and neither pending nor
      waiting for a notification; a pending task does not wait for one either.  So when a notification
      finds a task waiting, its event list item is free, as the code asserts. */
  ghost predicate Placed(s: Sched, t: Task)
    requires Shape(s) && t < |s.prio|
  {
    && (t in s.pending ==> s.notify[t] != Waiting)
    && (forall e :: OnList(s, e, t) ==>
          && !Ready(s, t) && s.notify[t] != Waiting && t !in s.pending
          && (forall f :: OnList(s, f, t) ==> f == e))
    && (forall e :: 0 <= e < |s.events| ==> !Before(s.events[e], t, t))
  }

  ghost predicate AllPlaced(s: Sched)
    requires Shape(s)
  {
    forall t :: 0 <= t < |s.prio| ==> Placed(s, t)
  }

  /** A task waits on an event list only when its wait for a notification is over (the second critical
      section of xTaskNotifyWait comes before its return), and with no wakeup for it pending. */
  ghost predicate Orderly(s: Sched, ev: Event)
    requires Shape(s)
  {
    ev.WaitOn_? ==> s.notify[s.current] != Waiting && s.current !in s.pending
  }

  /** A task whose wakeup is pending starts another wait for a notification. */
  ghost predicate WaitsAgain(s: Sched, ev: Event)
    requires Shape(s)
  {
    ev.NotifyWait_? && s.notify[s.current] != Received && s.current in s.pending
  }

  lemma StepKeepsSingle(s: Sched, ev: Event, t: Task)
    requires Inv(s) && Enabled(s, ev) && t < |s.prio| && Placed(s, t)
    ensures forall e :: 0 <= e < |Step(s, ev).events| ==> !Before(Step(s, ev).events[e], t, t)
  {
    hide Inv, Enabled, Step, Before, Insert, Ready, Holds;
    if ev.WaitOn_? {
      CurrentIsKnown(s, ev);
      WaitPlaces(s, ev.e, ev.ticks);
      if Before(Step(s, ev).events[ev.e], t, t) {
        ArrivalIsSingle(s.events[ev.e], Entry(s.current, Rank(s, s.current)), t);
        HoldsIsListed(s, ev.e, t);
      }
    } else {
      StepThins(s, ev);
      forall e | 0 <= e < |Step(s, ev).events|
        ensures !Before(Step(s, ev).events[e], t, t)
      {
        assert Thin(Step(s, ev).events[e], s.events[e]);
      }
    }
  }

  lemma HoldsIsListed(s: Sched, e: nat, t: Task)
    ensures OnList(s, e, t) <==> e < |s.events| && Holds(s.events[e], t)
  {
  }

  /** Inserting an owner that is not there makes nobody appear twice. */
  lemma ArrivalIsSingle(list: seq<Entry<Task>>, y: Entry<Task>, t: Task)
    requires !Before(list, t, t) && Before(Insert(list, y), t, t)
    ensures y.owner == t && Holds(list, t)
  {
    var v, p := Insert(list, y), InsertPos(list, y.value);
    InsertAt(list, y, 0);
    var i, j :| 0 <= i < j < |v| && v[i].owner == t && v[j].owner == t;
    InsertAt(list, y, i);
    InsertAt(list, y, j);
    var i0, j0 := if i < p then i else i - 1, if j < p then j else j - 1;
    if i != p {
      assert list[i0].owner == t && list[i0] in list;
    }
    if j != p {
      assert list[j0].owner == t && list[j0] in list;
    }
  }

  /** What the laws above say of task t, after a step to r. */
  ghost predicate After(s: Sched, ev: Event, t: Task, r: Sched)
    requires Inv(s) && Enabled(s, ev) && t < |s.prio| && Shape(r)
  {
    && |r.prio| == |s.prio|
    && (Ready(r, t) <==> Wakes(s, ev, t) || (Ready(s, t) && !Blocks(s, ev, t)))
    && (t in r.pending <==>
          Pends(s, ev, t) || (t in s.pending && !(ev.ResumeAll_? && s.depth == 1) && !(ev.Suspend_? && ev.t == t)))
    && r.notify[t] == NotifyAfter(s, ev, t)
    && (forall e :: OnList(r, e, t) <==> Joins(s, ev, e, t) || (OnList(s, e, t) && !Leaves(s, ev, e, t)))
  }

  lemma AfterStep(s: Sched, ev: Event, t: Task)
    requires Inv(s) && Enabled(s, ev) && t < |s.prio| && Placed(s, t)
    ensures Step(s, ev).prio == s.prio && After(s, ev, t, Step(s, ev))
  {
    hide Inv, Enabled, Step, Before, Ready, OnList, Joins, Leaves, Wakes, Blocks, Pends;
    ReadyAfterStepIff(s, ev, t);
    PendingAfterStepIff(s, ev, t);
    NotifyAfterStep(s, ev, t);
    forall e
      ensures OnList(Step(s, ev), e, t) <==> Joins(s, ev, e, t) || (OnList(s, e, t) && !Leaves(s, ev, e, t))
    {
      ListedAfterStepIff(s, ev, e, t);
    }
  }

  /** Who takes part in a step, as far as places go. */
  lemma Participants(s: Sched, ev: Event)
    requires Inv(s) && Enabled(s, ev)
    ensures ev.Delay_? || ev.WaitOn_? || ev.NotifyWait_? || ev.NotifyFinish_? ==> Ready(s, s.current)
    ensures ev.EventWake_? ==> OnList(s, ev.e, s.events[ev.e][0].owner)
    ensures ev.UnorderedWake_? ==> OnList(s, ev.e, s.events[ev.e][ev.k].owner)
    ensures s.depth == 0 ==> s.pending == []
  {
    if ev.EventWake_? {
      WaiterIsKnown(s, ev.e, 0);
    } else if ev.UnorderedWake_? {
      WaiterIsKnown(s, ev.e, ev.k);
    }
  }

  lemma PlacedAfter(s: Sched, ev: Event, t: Task, r: Sched)
    requires Inv(s) && Enabled(s, ev) && Orderly(s, ev) && !WaitsAgain(s, ev) && t < |s.prio| && Placed(s, t)
    requires Shape(r) && After(s, ev, t, r)
    requires forall e :: 0 <= e < |r.events| ==> !Before(r.events[e], t, t)
    ensures Placed(r, t)
  {
    Participants(s, ev);
    hide Inv, Ready, OnList, Before, Due, Members;
  }

  /** Every orderly step keeps every task in one place. */
  lemma StepKeepsPlaced(s: Sched, ev: Event, t: Task)
    requires Inv(s) && Enabled(s, ev) && Orderly(s, ev) && !WaitsAgain(s, ev) && t < |s.prio| && Placed(s, t)
    ensures Step(s, ev).prio == s.prio && Placed(Step(s, ev), t)
  {
    hide Inv, Enabled, Step, Placed, After;
    AfterStep(s, ev, t);
    StepKeepsSingle(s, ev, t);
    PlacedAfter(s, ev, t, Step(s, ev));
  }

  /** No notification meets a busy event list item: the configASSERT of the notification calls. */
  ghost predicate ItemsFree(s: Sched)
    requires Shape(s)
  {
    forall t :: 0 <= t < |s.prio| && s.notify[t] == Waiting ==> t !in s.pending && forall e :: !OnList(s, e, t)
  }

  ghost predicate AllOrderly(s: Sched, evs: seq<Event>)
    requires Inv(s) && Possible(s, evs)
    decreases evs
  {
    evs == [] || (Orderly(s, evs[0]) && (StepKeepsInv(s, evs[0]); AllOrderly(Step(s, evs[0]), evs[1..])))
  }

  ghost predicate NobodyWaitsAgain(s: Sched, evs: seq<Event>)
    requires Inv(s) && Possible(s, evs)
    decreases evs
  {
    evs == [] || (!WaitsAgain(s, evs[0]) && (StepKeepsInv(s, evs[0]); NobodyWaitsAgain(Step(s, evs[0]), evs[1..])))
  }

  ghost predicate ItemsStayFree(s: Sched, evs: seq<Event>)
    requires Inv(s) && Possible(s, evs)
    decreases evs
  {
    ItemsFree(s) && (evs == [] || (StepKeepsInv(s, evs[0]); ItemsStayFree(Step(s, evs[0]), evs[1..])))
  }

  lemma PlacedItemsAreFree(s: Sched)
    requires Shape(s) && AllPlaced(s)
    ensures ItemsFree(s)
  {
    hide OnList, Ready, Before;
    forall t | 0 <= t < |s.prio| && s.notify[t] == Waiting
      ensures t !in s.pending && forall e :: !OnList(s, e, t)
    {
      assert Placed(s, t);
    }
  }

  lemma StepKeepsAllPlaced(s: Sched, ev: Event)
    requires Inv(s) && Enabled(s, ev) && Orderly(s, ev) && !WaitsAgain(s, ev) && AllPlaced(s)
    ensures AllPlaced(Step(s, ev))
  {
    hide Inv, Step, Enabled, Placed, Orderly, WaitsAgain;
    StepAdvances(s, ev);
    forall t | 0 <= t < |s.prio|
      ensures Placed(Step(s, ev), t)
    {
      StepKeepsPlaced(s, ev, t);
    }
  }

  lemma WaitingAgainClashes(s: Sched, ev: Event)
    requires Inv(s) && Enabled(s, ev) && WaitsAgain(s, ev)
    ensures !ItemsFree(Step(s, ev))
  {
    hide Step;
    StepAdvances(s, ev);
    NotifyAfterStep(s, ev, s.current);
    PendingAfterStepIff(s, ev, s.current);
  }

  /** In every orderly run the assertion of the notification calls is safe in every state if and only if
      no task starts to wait for a notification while a wakeup for it is pending, which takes two waits
      in one suspension of the scheduler. */
  lemma {:induction false} ItemsStayFreeIff(s: Sched, evs: seq<Event>)
    requires Inv(s) && AllPlaced(s) && Possible(s, evs) && AllOrderly(s, evs)
    ensures ItemsStayFree(s, evs) <==> NobodyWaitsAgain(s, evs)
    ensures NobodyWaitsAgain(s, evs) ==> Inv(Run(s, evs)) && AllPlaced(Run(s, evs))
    decreases evs
  {
    hide Step, Enabled, AllPlaced, Orderly, WaitsAgain, ItemsFree, Members, ReadyLists, OneHome, Ahead, RunsHighest;
    PlacedItemsAreFree(s);
    if evs != [] {
      StepKeepsInv(s, evs[0]);
      if WaitsAgain(s, evs[0]) {
        WaitingAgainClashes(s, evs[0]);
      } else {
        StepKeepsAllPlaced(s, evs[0]);
        ItemsStayFreeIff(Step(s, evs[0]), evs[1..]);
      }
    }
  }

  lemma BootPlaced(prio: seq<nat>, objects: nat, first: Task)
    requires first < |prio| && Inv(Boot(prio, objects, first))
    ensures AllPlaced(Boot(prio, objects, first))
  {
  }

  lemma SmallBoot() returns (s: Sched)
    ensures s == Boot([0, 1], 0, 1) && Inv(s) && Running(s)
    ensures s.depth == 0 && s.pending == [] && s.notify == [NotWaiting, NotWaiting] && s.current == 1 && Known(s, 1)
  {
    var prio: seq<nat> := [0, 1];
    s := Boot(prio, 0, 1);
    BootInv(prio, 0, 1);
    TasksAtCount(prio, 1, 2, 1);
    CountMember(s.ready[1].items, 1);
  }

  /** One more step at the front of a run. */
  lemma Then(s: Sched, ev: Event, r: Sched, rest: seq<Event>)
    requires Inv(s) && Enabled(s, ev) && r == Step(s, ev) && Inv(r) && Possible(r, rest)
    ensures Possible(s, [ev] + rest) && Run(s, [ev] + rest) == Run(r, rest)
  {
    Deferral.RunFirst(s, ev, rest);
  }

  /** Such a run from start-up: a task suspends the scheduler and polls for a notification twice, and an
      interrupt notifies it in the first window.  Its event list item is on the pending list when the
      second window opens, and the assertion fails if an interrupt notifies it there too. */
  lemma NotificationItemInUse() returns (s: Sched, evs: seq<Event>)
    ensures s == Boot([0, 1], 0, 1) && Inv(s) && Possible(s, evs)
    ensures forall ev :: ev in evs ==> !ev.WaitOn_?
    ensures var r := Run(s, evs);
            Inv(r) && Enabled(r, NotifyFromIsr_(1, false)) && r.notify[1] == Waiting && 1 in r.pending
  {
    hide Inv, Shape, Step, Running;
    s := SmallBoot();
    var s1 := s.(depth := 1);
    var s2 := s1.(notify := [NotWaiting, Waiting]);
    var s3 := s2.(notify := [NotWaiting, Received], pending := [1]);
    Polls(s, s1, SuspendAll_);
    Polls(s1, s2, NotifyWait_(0));
    Polls(s2, s3, NotifyFromIsr_(1, false));
    var rest := PollsAgain(s3);
    Then(s2, NotifyFromIsr_(1, false), s3, rest);
    Then(s1, NotifyWait_(0), s2, [NotifyFromIsr_(1, false)] + rest);
    evs := [NotifyWait_(0)] + ([NotifyFromIsr_(1, false)] + rest);
    Then(s, SuspendAll_, s1, evs);
    evs := [SuspendAll_] + evs;
  }

  lemma PollsAgain(s: Sched) returns (evs: seq<Event>)
    requires Inv(s) && Running(s) && s.current == 1 && Known(s, 1)
    requires s.notify == [NotWaiting, Received] && s.pending == [1]
    ensures Possible(s, evs) && forall ev :: ev in evs ==> !ev.WaitOn_?
    ensures var r := Run(s, evs);
            Inv(r) && Enabled(r, NotifyFromIsr_(1, false)) && r.notify[1] == Waiting && 1 in r.pending
  {
    hide Inv, Shape, Step, Running;
    var s1 := s.(notify := [NotWaiting, NotWaiting]);
    var s2 := s1.(notify := [NotWaiting, Waiting]);
    Polls(s, s1, NotifyFinish_);
    Polls(s1, s2, NotifyWait_(0));
    Then(s1, NotifyWait_(0), s2, []);
    Then(s, NotifyFinish_, s1, [NotifyWait_(0)]);
    evs := [NotifyFinish_, NotifyWait_(0)];
  }

  lemma Polls(s: Sched, r: Sched, ev: Event)
    requires Inv(s) && Running(s) && s.current == 1 && |s.notify| == 2
    requires match ev
             case SuspendAll_ => r == s.(depth := s.depth + 1)
             case NotifyWait_(ticks) =>
               ticks == 0 && s.notify[1] != Received && r == s.(notify := s.notify[1 := Waiting])
             case NotifyFinish_ => r == s.(notify := s.notify[1 := NotWaiting])
             case NotifyFromIsr_(t, flag) =>
               t == 1 && !flag && s.depth > 0 && s.notify[1] == Waiting
               && r == s.(notify := s.notify[1 := Received], pending := s.pending + [1])
             case _ => false
    ensures Enabled(s, ev) && r == Step(s, ev) && Inv(r) && Running(r)
  {
    hide OneHome, ReadyLists, Ahead, RunsHighest, Members;
    StepKeepsInv(s, ev);
  }

  // ---------- no overtaking ----------

  /** Task a waits on event list e all along. */
  ghost predicate WaitsOn(s: Sched, evs: seq<Event>, e: nat, a: Task)
    requires Inv(s) && Possible(s, evs)
    decreases evs
  {
    OnList(s, e, a) && (evs == [] || (StepKeepsInv(s, evs[0]); WaitsOn(Step(s, evs[0]), evs[1..], e, a)))
  }

  lemma FirstIsInFront(list: seq<Entry<Task>>, a: Task)
    requires Holds(list, a) && list[0].owner != a
    ensures Before(list, list[0].owner, a)
  {
    var x :| x in list && x.owner == a;
    var k :| 0 <= k < |list| && list[k] == x;
    assert list[0].owner == list[0].owner && list[k].owner == a;
  }

  /** As long as task a waits for an event, no task that is not more urgent and was not in front of it
      gets in front, however often it comes and goes; so the event is never given to such a task, and
      tasks of the same priority are woken in the order in which they blocked. */
  lemma {:induction false} NobodyOvertakes(s: Sched, evs: seq<Event>, e: nat, a: Task, b: Task)
    requires Inv(s) && AllInOrder(s) && AllPlaced(s)
    requires Possible(s, evs) && AllOrderly(s, evs) && NobodyWaitsAgain(s, evs) && WaitsOn(s, evs, e, a)
    requires a < |s.prio| && b < |s.prio| && a != b && s.prio[b] <= s.prio[a]
    requires !Before(s.events[e], b, a)
    ensures var r := Run(s, evs);
            OnList(r, e, a) && !Before(r.events[e], b, a) && r.events[e][0].owner != b
    decreases evs
  {
    hide Step, Enabled, Placed, Orderly, WaitsAgain, Members, ReadyLists, OneHome, Ahead, RunsHighest, InOrder, Before,
         Ready;
    HoldsIsListed(s, e, a);
    if evs == [] {
      if s.events[e][0].owner == b {
        FirstIsInFront(s.events[e], a);
      }
    } else {
      var r := Step(s, evs[0]);
      StepKeepsInv(s, evs[0]);
      StepKeepsAllPlaced(s, evs[0]);
      StepKeepsOrder(s, evs[0]);
      StepAdvances(s, evs[0]);
      assert Placed(s, a);
      ListedIsBlocked(s, e, a);
      StepKeepsFront(s, evs[0], e, a, b);
      NobodyOvertakes(r, evs[1..], e, a, b);
    }
  }

  lemma ListedIsBlocked(s: Sched, e: nat, t: Task)
    requires Shape(s) && t < |s.prio| && Placed(s, t) && OnList(s, e, t)
    ensures !Ready(s, t)
  {
  }
}
