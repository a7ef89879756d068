/** What every run of the scheduler keeps: one home per task, ready lists by priority, wake times
    ahead of the clock, and the running task among the most urgent ready ones. */
module SchedulerRuns {
  import opened Ticks
  import opened ListSpec
  import opened DelayLists
  import opened SchedulerSpec

  function Step(s: Sched, ev: Event): (r: Sched)
    requires Inv(s) && Enabled(s, ev)
    ensures Shape(r)
  {
    match ev
    case Tick_ => TickIsr(s)
    case SuspendAll_ => s.(depth := s.depth + 1)
    case ResumeAll_ => ResumeAll(s)
    case Switch_ => HighestKnown(s); SwitchContext(s)
    case Yield_ => s.(switchRequested := true)
    case Delay_(ticks) => BlockCurrent(s, ticks, false)
    case WaitOn_(e, ticks) => PlaceOnEventList(s, e, ticks)
    case EventWake_(e) => assert s.events[e][0] in s.events[e]; EventWake(s, e)
    case UnorderedWake_(e, k) => assert s.events[e][k] in s.events[e]; UnorderedWake(s, e, k)
    case Notify_(t) => Notify(s, t)
    case NotifyFromIsr_(t, flag) => NotifyFromIsr(s, t, flag)
    case NotifyWait_(ticks) => NotifyWait(s, ticks)
    case NotifyFinish_ => NotifyFinish(s)
    case Suspend_(t) => Suspend(s, t)
    case Resume_(t) => Resume(s, t)
  }

  /** The scan of taskSELECT_HIGHEST_PRIORITY_TASK ends at a list of known tasks, so its
      configASSERT never fires. */
  lemma HighestKnown(s: Sched)
    requires Inv(s)
    ensures s.ready[0].items != []
    ensures forall t :: t in s.ready[HighestReady(s.ready, s.top)].items ==> t < |s.prio|
  {
  }

  // ---------- counting ----------

  lemma {:induction false} CountConcat(a: seq<Task>, b: seq<Task>, t: Task)
    ensures Count(a + b, t) == Count(a, t) + Count(b, t)
    decreases a
  {
    if a == [] {
      assert a + b == b;
    } else {
      CountConcat(a[1..], b, t);
      assert (a + b)[1..] == a[1..] + b && (a + b)[0] == a[0];
    }
  }

  lemma {:induction false} CountMember(s: seq<Task>, t: Task)
    ensures t in s <==> Count(s, t) > 0
    decreases s
  {
    if s != [] {
      CountMember(s[1..], t);
      assert t in s <==> t == s[0] || t in s[1..];
    }
  }

  lemma CountSplice(s: seq<Task>, x: Task, k: nat, t: Task)
    requires k <= |s|
    ensures Count(s[..k] + [x] + s[k..], t) == Count(s, t) + if x == t then 1 else 0
  {
    CountConcat(s[..k] + [x], s[k..], t);
    CountConcat(s[..k], [x], t);
    CountConcat(s[..k], s[k..], t);
    assert s == s[..k] + s[k..];
    assert Count([x], t) == if x == t then 1 else 0;
  }

  lemma CountRemoveAt(s: seq<Task>, k: nat, t: Task)
    requires k < |s|
    ensures Count(RemoveAt(s, k), t) == Count(s, t) - if s[k] == t then 1 else 0
  {
    var r := RemoveAt(s, k);
    CountSplice(r, s[k], k, t);
    assert r[..k] + [s[k]] + r[k..] == s;
  }

  lemma {:induction false} CountDropTask(s: seq<Task>, x: Task, t: Task)
    ensures Count(DropTask(s, x), t) == if t == x then 0 else Count(s, t)
    decreases s
  {
    if s != [] {
      CountDropTask(s[1..], x, t);
    }
  }

  lemma {:induction false} CountWithout(s: seq<Entry<Task>>, x: Task, t: Task)
    ensures Count(Owners(Without(s, x)), t) == if t == x then 0 else Count(Owners(s), t)
    decreases s
  {
    if s != [] {
      CountWithout(s[1..], x, t);
      assert Owners(s)[1..] == Owners(s[1..]);
      var w := Without(s[1..], x);
      assert Owners([s[0]] + w) == [s[0].owner] + Owners(w);
    }
  }

  lemma CountInsert(s: seq<Entry<Task>>, e: Entry<Task>, t: Task)
    ensures Count(Owners(Insert(s, e)), t) == Count(Owners(s), t) + if e.owner == t then 1 else 0
  {
    var p := InsertPos(s, e.value);
    CountSplice(Owners(s), e.owner, p, t);
    assert Owners(Insert(s, e)) == Owners(s)[..p] + [e.owner] + Owners(s)[p..];
  }

  lemma CountInsertEnd(r: Ring<Task>, x: Task, t: Task)
    requires WellFormed(r)
    ensures Count(InsertEnd(r, x).items, t) == Count(r.items, t) + if x == t then 1 else 0
  {
    var k := if r.index == 0 then |r.items| else r.index - 1;
    CountSplice(r.items, x, k, t);
    assert InsertEnd(r, x).items == r.items[..k] + [x] + r.items[k..];
  }

  lemma CountDropReady(r: Ring<Task>, x: Task, t: Task)
    requires WellFormed(r)
    ensures Count(DropReady(r, x).items, t) == Count(r.items, t) - if x == t && x in r.items then 1 else 0
  {
    if x in r.items {
      CountRemoveAt(r.items, IndexOf(r.items, x), t);
    }
  }

  lemma InsertEndMember(r: Ring<Task>, x: Task, t: Task)
    requires WellFormed(r)
    ensures t in InsertEnd(r, x).items <==> t == x || t in r.items
  {
    CountInsertEnd(r, x, t);
    CountMember(r.items, t);
    CountMember(InsertEnd(r, x).items, t);
  }

  lemma DropReadyMember(r: Ring<Task>, x: Task, t: Task)
    requires WellFormed(r)
    ensures t in DropReady(r, x).items ==> t in r.items
    ensures t != x ==> (t in DropReady(r, x).items <==> t in r.items)
  {
    CountDropReady(r, x, t);
    CountMember(r.items, t);
    CountMember(DropReady(r, x).items, t);
  }

  // ---------- moving one task ----------

  /** What a task move needs and keeps. */
  ghost predicate Base(s: Sched) {
    Shape(s) && Members(s) && ReadyLists(s) && OneHome(s)
  }

  lemma UnlinkHomes(s: Sched, t: Task, u: Task)
    requires Shape(s) && OneHome(s) && t < |s.prio| && u < |s.prio|
    ensures Homes(UnlinkState(s, t), u) == if u == t then 0 else 1
  {
    CountWithout(s.sleeping, t, u);
    CountDropTask(s.suspended, t, u);
    CountDropReady(s.ready[s.prio[t]], t, u);
    CountMember(s.ready[s.prio[t]].items, t);
    assert Homes(s, u) == 1;
  }

  lemma AddReadyHomes(s: Sched, t: Task, u: Task)
    requires Shape(s) && t < |s.prio| && u < |s.prio|
    ensures Homes(AddReady(s, t), u) == Homes(s, u) + if u == t then 1 else 0
  {
    CountInsertEnd(s.ready[s.prio[t]], t, u);
  }

  lemma InsertEndOnly(prio: seq<nat>, r: Ring<Task>, t: Task, p: nat)
    requires WellFormed(r) && OnlyAt(prio, r.items, p) && t < |prio| && prio[t] == p
    ensures OnlyAt(prio, InsertEnd(r, t).items, p)
  {
    forall u | u in InsertEnd(r, t).items
      ensures u < |prio| && prio[u] == p
    {
      InsertEndMember(r, t, u);
    }
  }

  lemma DropReadyOnly(prio: seq<nat>, r: Ring<Task>, t: Task, p: nat)
    requires WellFormed(r) && OnlyAt(prio, r.items, p)
    ensures OnlyAt(prio, DropReady(r, t).items, p)
  {
    forall u | u in DropReady(r, t).items
      ensures u < |prio| && prio[u] == p
    {
      DropReadyMember(r, t, u);
    }
  }

  lemma UnlinkReadyLists(s: Sched, t: Task)
    requires Shape(s) && ReadyLists(s) && Known(s, t)
    ensures ReadyLists(UnlinkState(s, t))
  {
    var r, p := UnlinkState(s, t), s.prio[t];
    DropReadyOnly(s.prio, s.ready[p], t, p);
    DropReadyMember(s.ready[p], t, IDLE);
    forall q | 0 <= q < MAX_PRIORITIES
      ensures OnlyAt(s.prio, r.ready[q].items, q)
      ensures s.ready[q].items == [] ==> r.ready[q].items == []
    {
      if q != p {
        assert r.ready[q] == s.ready[q];
      }
    }
  }

  lemma AddReadyLists(s: Sched, t: Task)
    requires Shape(s) && ReadyLists(s) && t < |s.prio|
    ensures ReadyLists(AddReady(s, t))
  {
    var r, p := AddReady(s, t), s.prio[t];
    InsertEndOnly(s.prio, s.ready[p], t, p);
    InsertEndMember(s.ready[p], t, IDLE);
    forall q | 0 <= q < MAX_PRIORITIES
      ensures OnlyAt(s.prio, r.ready[q].items, q)
    {
      if q != p {
        assert r.ready[q] == s.ready[q];
      }
    }
  }

  lemma MakeReadyBase(s: Sched, t: Task)
    requires Base(s) && Known(s, t)
    ensures Base(MakeReady(s, t))
    ensures t in MakeReady(s, t).ready[s.prio[t]].items
  {
    MakeReadyMembers(s, t);
    UnlinkReadyLists(s, t);
    AddReadyLists(UnlinkState(s, t), t);
    forall u | 0 <= u < |s.prio|
      ensures Homes(MakeReady(s, t), u) == 1
    {
      UnlinkHomes(s, t, u);
      AddReadyHomes(UnlinkState(s, t), t, u);
    }
    InsertEndMember(UnlinkState(s, t).ready[s.prio[t]], t, t);
  }

  lemma MakeReadyAhead(s: Sched, t: Task)
    requires Shape(s) && Ahead(s) && t < |s.prio|
    ensures Ahead(MakeReady(s, t))
  {
    WithoutSorted(s.sleeping, t);
    forall x | x in Without(s.sleeping, t)
      ensures x in s.sleeping
    {
      WithoutKeeps(s.sleeping, t, x);
    }
  }

  /** With the flag clear the running task is ready and nothing ready is above it. */
  ghost predicate HighestUnless(s: Sched, flag: bool)
    requires Shape(s)
  {
    !flag ==>
      && s.current in s.ready[s.prio[s.current]].items
      && forall p :: s.prio[s.current] < p < MAX_PRIORITIES ==> s.ready[p].items == []
  }

  lemma AddReadyHighest(s: Sched, t: Task, flag: bool)
    requires Shape(s) && HighestUnless(s, flag) && t < |s.prio|
    ensures HighestUnless(AddReady(s, t), flag || s.prio[t] > s.prio[s.current])
  {
    InsertEndMember(s.ready[s.prio[t]], t, s.current);
  }

  lemma MakeReadyHighest(s: Sched, t: Task, flag: bool)
    requires Shape(s) && HighestUnless(s, flag) && t < |s.prio|
    ensures HighestUnless(MakeReady(s, t), flag || s.prio[t] > s.prio[s.current])
  {
    var u := UnlinkState(s, t);
    DropReadyMember(s.ready[s.prio[t]], t, s.current);
    InsertEndMember(u.ready[s.prio[t]], t, s.current);
    var r := MakeReady(s, t);
    if !(flag || s.prio[t] > s.prio[s.current]) {
      forall p | s.prio[s.current] < p < MAX_PRIORITIES
        ensures r.ready[p].items == []
      {
        assert s.ready[p].items == [] && p != s.prio[t];
      }
    }
  }

  lemma SameHomes(s: Sched, r: Sched)
    requires Shape(s) && Shape(r) && OneHome(s)
    requires r.prio == s.prio && r.sleeping == s.sleeping && r.suspended == s.suspended
    requires forall p :: 0 <= p < MAX_PRIORITIES ==> r.ready[p].items == s.ready[p].items
    ensures OneHome(r)
  {
    forall t | 0 <= t < |r.prio|
      ensures Homes(r, t) == 1
    {
      assert Homes(s, t) == 1;
    }
  }

  /** Flags, counters and the pending list say nothing about where tasks are. */
  lemma SameBase(s: Sched, r: Sched)
    requires Base(s) && Ahead(s)
    requires r == s.(pending := r.pending, notify := r.notify, pended := r.pended, depth := r.depth,
                     yieldPending := r.yieldPending, switchRequested := r.switchRequested,
                     selfBlocked := r.selfBlocked)
    requires |r.notify| == |s.notify|
    requires r.pending == s.pending || forall t :: t in r.pending ==> Known(s, t)
    ensures Base(r) && Ahead(r)
  {
    SameHomes(s, r);
  }

  // ---------- ticks ----------

  ghost predicate AheadOrDue(s: Sched) {
    && Sorted(s.sleeping)
    && (forall x :: x in s.sleeping ==> s.now <= x.value < s.now + TICKS)
  }

  lemma WakeHeadHomes(s: Sched)
    requires Shape(s) && OneHome(s) && s.sleeping != [] && s.sleeping[0].owner < |s.prio|
    ensures OneHome(WakeHead(s))
  {
    hide InsertEnd, WellFormed, DropEvent;
    var t := s.sleeping[0].owner;
    var a := s.(sleeping := s.sleeping[1..], events := DropEvent(s.events, t));
    forall u | 0 <= u < |s.prio|
      ensures Homes(WakeHead(s), u) == 1
    {
      AddReadyHomes(a, t, u);
      assert Owners(s.sleeping)[1..] == Owners(a.sleeping);
      assert Homes(s, u) == 1;
    }
  }

  lemma WakeHeadKeeps(s: Sched, flag: bool)
    requires Base(s) && AheadOrDue(s) && s.sleeping != [] && HighestUnless(s, flag)
    ensures s.sleeping[0] in s.sleeping
    ensures Base(WakeHead(s)) && AheadOrDue(WakeHead(s))
    ensures HighestUnless(WakeHead(s), flag || s.prio[s.sleeping[0].owner] >= s.prio[s.current])
  {
    hide Homes, OneHome, InsertEnd, WellFormed, DropEvent;
    var t := s.sleeping[0].owner;
    assert s.sleeping[0] in s.sleeping;
    var a := s.(sleeping := s.sleeping[1..], events := DropEvent(s.events, t));
    assert ReadyLists(a);
    AddReadyLists(a, t);
    AddReadyHighest(a, t, flag);
    WakeHeadHomes(s);
    WakeHeadMembers(s);
  }

  lemma WakeHeadMembers(s: Sched)
    requires Shape(s) && Members(s) && s.sleeping != [] && s.sleeping[0].owner < |s.prio|
    ensures Members(WakeHead(s))
  {
    DropEventMembers(s, s.sleeping[0].owner);
  }

  lemma {:induction false} WakeDueKeeps(s: Sched, urgent: bool, flag: bool)
    requires Base(s) && AheadOrDue(s) && HighestUnless(s, flag || urgent)
    ensures Base(WakeDue(s, urgent).0) && Ahead(WakeDue(s, urgent).0)
    ensures HighestUnless(WakeDue(s, urgent).0, flag || WakeDue(s, urgent).1)
    ensures SameButWoken(s, WakeDue(s, urgent).0)
    decreases |s.sleeping|
  {
    hide Homes, OneHome, ReadyLists, HighestUnless, DropEvent, InsertEnd, WellFormed, AddReady;
    if s.sleeping != [] && s.sleeping[0].value <= s.now {
      WakeHeadKeeps(s, flag || urgent);
      WakeDueKeeps(WakeHead(s), urgent || s.prio[s.sleeping[0].owner] >= s.prio[s.current], flag);
    }
  }

  /** Waking by time touches the sleepers, the ready lists and the event lists, nothing else. */
  ghost predicate SameButWoken(s: Sched, r: Sched) {
    r == s.(sleeping := r.sleeping, ready := r.ready, events := r.events, top := r.top)
  }

  lemma ClockAdvanced(s: Sched, flag: bool)
    requires Base(s) && Ahead(s) && HighestUnless(s, flag)
    ensures var a := s.(now := s.now + 1); Base(a) && AheadOrDue(a) && HighestUnless(a, flag)
  {
    hide Homes;
    var a := s.(now := s.now + 1);
    SameHomes(s, a);
  }

  lemma TickOneKeeps(s: Sched, flag: bool)
    requires Base(s) && Ahead(s) && HighestUnless(s, flag)
    ensures Base(TickOne(s).0) && Ahead(TickOne(s).0)
    ensures HighestUnless(TickOne(s).0, flag || TickOne(s).1)
    ensures SameButWoken(s.(now := s.now + 1), TickOne(s).0)
  {
    hide OneHome, ReadyLists, WakeDue, Members, WellFormed, Ahead, AheadOrDue;
    ClockAdvanced(s, flag);
    WakeDueKeeps(s.(now := s.now + 1), false, flag);
  }

  lemma UnwindOneKeeps(s: Sched)
    requires Base(s) && Ahead(s) && RunsHighest(s)
    ensures Base(UnwindOne(s)) && Ahead(UnwindOne(s)) && RunsHighest(UnwindOne(s))
    ensures SameButTicked(s, UnwindOne(s), 1)
  {
    hide OneHome, ReadyLists, Ahead, Members, WellFormed, TickOne;
    TickOneKeeps(s, SwitchOutstanding(s));
    SameBase(TickOne(s).0, UnwindOne(s));
  }

  /** What n pended ticks may touch. */
  ghost predicate SameButTicked(s: Sched, r: Sched, n: nat) {
    r == s.(sleeping := r.sleeping, ready := r.ready, events := r.events, top := r.top,
            now := s.now + n, yieldPending := r.yieldPending)
  }

  lemma {:induction false} UnwindKeeps(s: Sched, n: nat)
    requires Base(s) && Ahead(s) && RunsHighest(s)
    ensures Base(UnwindTicks(s, n)) && Ahead(UnwindTicks(s, n)) && RunsHighest(UnwindTicks(s, n))
    ensures SameButTicked(s, UnwindTicks(s, n), n)
    decreases n
  {
    hide OneHome, ReadyLists, Ahead, RunsHighest, UnwindOne, WellFormed, Members;
    if n > 0 {
      UnwindOneKeeps(s);
      UnwindKeeps(UnwindOne(s), n - 1);
    }
  }

  lemma {:induction false} DrainKeeps(s: Sched)
    requires Base(s) && Ahead(s) && RunsHighest(s)
    ensures var r := DrainPending(s);
            && Base(r) && Ahead(r) && RunsHighest(r)
            && r == s.(sleeping := r.sleeping, ready := r.ready, suspended := r.suspended, top := r.top,
                       pending := [], yieldPending := r.yieldPending)
    decreases |s.pending|
  {
    hide OneHome, ReadyLists, Ahead, MakeReady, WellFormed;
    if s.pending != [] {
      var t := s.pending[0];
      assert t in s.pending;
      MakeReadyBase(s, t);
      MakeReadyAhead(s, t);
      MakeReadyHighest(s, t, SwitchOutstanding(s));
      SameBase(MakeReady(s, t), DrainOne(s));
      DrainKeeps(DrainOne(s));
    }
  }

  // ---------- one step ----------

  lemma TickKeepsInv(s: Sched)
    requires Inv(s)
    ensures Inv(TickIsr(s))
  {
    if s.depth > 0 {
      SameHomes(s, TickIsr(s));
    } else {
      TickOneKeeps(s, SwitchOutstanding(s));
      SameHomes(TickOne(s).0, TickIsr(s));
    }
  }

  lemma ResumeAllKeepsInv(s: Sched)
    requires Inv(s) && s.depth > 0
    ensures Inv(ResumeAll(s))
  {
    hide DrainPending, UnwindTicks, Homes;
    var a := s.(depth := s.depth - 1);
    SameHomes(s, a);
    if a.depth == 0 {
      assert Base(a) && Ahead(a) && RunsHighest(a);
      DrainKeeps(a);
      UnwindKeeps(DrainPending(a), s.pended);
      SameHomes(UnwindTicks(DrainPending(a), s.pended), ResumeAll(s));
    }
  }

  lemma SwitchKeepsInv(s: Sched)
    requires Inv(s)
    ensures s.ready[0].items != []
    ensures forall t :: t in s.ready[HighestReady(s.ready, s.top)].items ==> t < |s.prio|
    ensures Inv(SwitchContext(s))
  {
    HighestKnown(s);
    var r := SwitchContext(s);
    SameHomes(s, r);
    if s.depth == 0 {
      var p := HighestReady(s.ready, s.top);
      assert OnlyAt(s.prio, s.ready[p].items, p);
      assert r.current in s.ready[p].items;
      forall q | 0 <= q < MAX_PRIORITIES
        ensures OnlyAt(r.prio, r.ready[q].items, q) && r.ready[q].items == s.ready[q].items
      {
        assert OnlyAt(s.prio, s.ready[q].items, q);
      }
    }
  }

  lemma InsertMember(s: seq<Entry<Task>>, e: Entry<Task>, x: Entry<Task>)
    ensures x in Insert(s, e) <==> x == e || x in s
  {
    var p := InsertPos(s, e.value);
    assert s == s[..p] + s[p..];
    assert x in s <==> x in s[..p] || x in s[p..];
  }

  lemma UnlinkSubset(s: Sched, t: Task)
    requires Shape(s) && t < |s.prio|
    ensures forall x :: x in UnlinkState(s, t).sleeping ==> x in s.sleeping
    ensures forall u :: u in UnlinkState(s, t).suspended ==> u in s.suspended
    ensures Sorted(s.sleeping) ==> Sorted(UnlinkState(s, t).sleeping)
  {
    if Sorted(s.sleeping) {
      WithoutSorted(s.sleeping, t);
    }
    forall x
      ensures x in Without(s.sleeping, t) ==> x in s.sleeping
    {
      WithoutKeeps(s.sleeping, t, x);
    }
    forall u
      ensures u in DropTask(s.suspended, t) ==> u in s.suspended
    {
      DropTaskKeeps(s.suspended, t, u);
    }
  }

  lemma BlockHomes(s: Sched, ticks: Tick, forever: bool)
    requires Shape(s) && OneHome(s)
    ensures OneHome(BlockCurrent(s, ticks, forever))
  {
    var c := s.current;
    var a := UnlinkState(s, c);
    forall t | 0 <= t < |s.prio|
      ensures Homes(BlockCurrent(s, ticks, forever), t) == 1
    {
      UnlinkHomes(s, c, t);
      CountConcat(a.suspended, [c], t);
      CountInsert(a.sleeping, Entry(c, s.now + ticks), t);
      assert Count([c], t) == if c == t then 1 else 0;
    }
  }

  lemma InsertAllOf(s: seq<Entry<Task>>, e: Entry<Task>)
    ensures forall x :: x in Insert(s, e) <==> x == e || x in s
  {
    forall x
      ensures x in Insert(s, e) <==> x == e || x in s
    {
      InsertMember(s, e, x);
    }
  }

  lemma BlockMembers(s: Sched, ticks: Tick, forever: bool)
    requires Shape(s) && Members(s) && s.current != IDLE
    ensures Members(BlockCurrent(s, ticks, forever))
  {
    hide Insert, UnlinkState;
    UnlinkSubset(s, s.current);
    InsertAllOf(UnlinkState(s, s.current).sleeping, Entry(s.current, s.now + ticks));
  }

  lemma InsertAhead(s: seq<Entry<Task>>, x: Entry<Task>, lo: int, hi: int)
    requires Sorted(s) && forall y :: y in s ==> lo < y.value < hi
    requires lo < x.value < hi
    ensures Sorted(Insert(s, x)) && forall y :: y in Insert(s, x) ==> lo < y.value < hi
  {
    InsertIsStable(s, x);
    InsertAllOf(s, x);
  }

  lemma BlockAhead(s: Sched, ticks: Tick, forever: bool)
    requires Shape(s) && Ahead(s) && ticks > 0
    ensures Ahead(BlockCurrent(s, ticks, forever))
  {
    hide Insert, UnlinkState;
    UnlinkSubset(s, s.current);
    InsertAhead(UnlinkState(s, s.current).sleeping, Entry(s.current, s.now + ticks), s.now, s.now + TICKS);
  }

  lemma BlockReadyLists(s: Sched, ticks: Tick, forever: bool)
    requires Shape(s) && ReadyLists(s) && s.current != IDLE
    ensures ReadyLists(BlockCurrent(s, ticks, forever))
  {
    UnlinkReadyLists(s, s.current);
    var a, r := UnlinkState(s, s.current), BlockCurrent(s, ticks, forever);
    assert r.ready == a.ready && r.top == a.top && r.prio == a.prio;
  }

  lemma BlockKeepsInv(s: Sched, ticks: Tick, forever: bool)
    requires Base(s) && Ahead(s) && NothingDeferred(s) && s.current != IDLE && ticks > 0
    ensures Inv(BlockCurrent(s, ticks, forever))
  {
    hide Homes, OneHome, ReadyLists, Ahead, UnlinkState;
    BlockHomes(s, ticks, forever);
    BlockMembers(s, ticks, forever);
    BlockAhead(s, ticks, forever);
    BlockReadyLists(s, ticks, forever);
  }

  function OnEventList(s: Sched, e: nat): (a: Sched)
    requires Shape(s) && e < |s.events|
    ensures Shape(a)
  {
    s.(events := s.events[e := Insert(s.events[e], Entry(s.current, MAX_PRIORITIES - s.prio[s.current]))])
  }

  lemma OnEventListKeeps(s: Sched, e: nat)
    requires Inv(s) && s.current != IDLE && e < |s.events|
    ensures Base(OnEventList(s, e)) && Ahead(OnEventList(s, e)) && NothingDeferred(OnEventList(s, e))
  {
    hide Insert;
    WaitMembers(s, e, Entry(s.current, MAX_PRIORITIES - s.prio[s.current]));
    OtherEvents(s, OnEventList(s, e));
  }

  lemma WaitKeepsInv(s: Sched, e: nat, ticks: Tick)
    requires Inv(s) && s.current != IDLE && ticks > 0 && e < |s.events|
    ensures Inv(PlaceOnEventList(s, e, ticks))
  {
    OnEventListKeeps(s, e);
    BlockKeepsInv(OnEventList(s, e), ticks, true);
    assert PlaceOnEventList(s, e, ticks) == BlockCurrent(OnEventList(s, e), ticks, true);
  }

  lemma WaitMembers(s: Sched, e: nat, item: Entry<Task>)
    requires Members(s) && e < |s.events| && Known(s, item.owner)
    ensures Members(s.(events := s.events[e := Insert(s.events[e], item)]))
  {
    InsertAllOf(s.events[e], item);
  }

  /** Making a task ready keeps everything, if the flags record that it may be more urgent. */
  lemma WakeKeepsInv(a: Sched, t: Task, r: Sched)
    requires Base(a) && Ahead(a) && NothingDeferred(a) && Known(a, t)
    requires HighestUnless(a, SwitchOutstanding(a))
    requires r == MakeReady(a, t).(notify := r.notify, yieldPending := r.yieldPending,
        switchRequested := r.switchRequested)
    requires |r.notify| == |a.notify|
    requires SwitchOutstanding(a) || a.prio[t] > a.prio[a.current] ==> SwitchOutstanding(r)
    ensures Inv(r)
  {
    MakeReadyBase(a, t);
    MakeReadyAhead(a, t);
    MakeReadyHighest(a, t, SwitchOutstanding(a));
    SameHomes(MakeReady(a, t), r);
  }

  lemma OtherEvents(s: Sched, a: Sched)
    requires Inv(s) && a == s.(events := a.events) && Members(a)
    ensures Base(a) && Ahead(a) && NothingDeferred(a) && HighestUnless(a, SwitchOutstanding(a))
  {
    SameHomes(s, a);
  }

  lemma FewerEvents(s: Sched, a: Sched)
    requires Inv(s) && a == s.(events := a.events) && |a.events| == |s.events|
    requires forall e, x :: 0 <= e < |s.events| && x in a.events[e] ==> x in s.events[e]
    ensures Base(a) && Ahead(a) && NothingDeferred(a) && HighestUnless(a, SwitchOutstanding(a))
  {
    OtherEvents(s, a);
  }

  /** Leaving the task on the pending ready list changes no state list. */
  lemma PendKeepsInv(a: Sched, t: Task, r: Sched)
    requires Base(a) && Ahead(a) && Known(a, t) && a.depth > 0
    requires HighestUnless(a, SwitchOutstanding(a))
    requires r == a.(pending := a.pending + [t], yieldPending := r.yieldPending, switchRequested := r.switchRequested)
    requires SwitchOutstanding(a) ==> SwitchOutstanding(r)
    ensures Inv(r)
  {
    SameHomes(a, r);
  }

  lemma EventWakeKeepsInv(s: Sched, e: nat)
    requires Inv(s) && e < |s.events| && s.events[e] != []
    ensures s.events[e][0] in s.events[e]
    ensures Inv(EventWake(s, e))
  {
    assert s.events[e][0] in s.events[e];
    var t := s.events[e][0].owner;
    var a := s.(events := s.events[e := s.events[e][1..]]);
    FewerEvents(s, a);
    if s.depth == 0 {
      WakeKeepsInv(a, t, EventWake(s, e));
    } else {
      PendKeepsInv(a, t, EventWake(s, e));
    }
  }

  lemma UnorderedWakeKeepsInv(s: Sched, e: nat, k: nat)
    requires Inv(s) && e < |s.events| && k < |s.events[e]|
    ensures s.events[e][k] in s.events[e]
    ensures Inv(UnorderedWake(s, e, k))
  {
    assert s.events[e][k] in s.events[e];
    var a := s.(events := s.events[e := RemoveAt(s.events[e], k)]);
    FewerEvents(s, a);
    WakeKeepsInv(a, s.events[e][k].owner, UnorderedWake(s, e, k));
  }

  lemma NotifyStateKeepsInv(s: Sched, a: Sched)
    requires Inv(s) && a == s.(notify := a.notify) && |a.notify| == |s.notify|
    ensures Inv(a) && HighestUnless(a, SwitchOutstanding(a))
  {
    hide Homes, ReadyLists, WellFormed;
    SameHomes(s, a);
    ReadyListsOnly(s, a);
  }

  lemma ReadyListsOnly(s: Sched, a: Sched)
    requires Shape(s) && Shape(a) && ReadyLists(s) && a.ready == s.ready && a.prio == s.prio && a.top == s.top
    ensures ReadyLists(a)
  {
  }

  lemma NotifyKeepsInv(s: Sched, t: Task)
    requires Inv(s) && Known(s, t)
    ensures Inv(Notify(s, t))
  {
    hide MakeReady, OneHome, ReadyLists, Ahead, HighestUnless, WellFormed;
    var a := s.(notify := s.notify[t := Received]);
    NotifyStateKeepsInv(s, a);
    if s.notify[t] == Waiting {
      WakeKeepsInv(a, t, Notify(s, t));
    }
  }

  lemma NotifyFromIsrKeepsInv(s: Sched, t: Task, flag: bool)
    requires Inv(s) && Known(s, t)
    ensures Inv(NotifyFromIsr(s, t, flag))
  {
    hide MakeReady, OneHome, ReadyLists, Ahead, HighestUnless, WellFormed;
    var a := s.(notify := s.notify[t := Received]);
    NotifyStateKeepsInv(s, a);
    if s.notify[t] == Waiting {
      if s.depth == 0 {
        WakeKeepsInv(a, t, NotifyFromIsr(s, t, flag));
      } else {
        PendKeepsInv(a, t, NotifyFromIsr(s, t, flag));
      }
    }
  }

  lemma NotifyFinishKeepsInv(s: Sched)
    requires Inv(s)
    ensures Inv(NotifyFinish(s))
  {
    hide OneHome, ReadyLists, Ahead, RunsHighest, Members;
    NotifyStateKeepsInv(s, NotifyFinish(s));
  }

  lemma RequestKeepsInv(s: Sched)
    requires Inv(s)
    ensures Inv(s.(switchRequested := true))
  {
    hide Homes;
    SameHomes(s, s.(switchRequested := true));
  }

  lemma NotifyWaitKeepsInv(s: Sched, ticks: Tick)
    requires Inv(s) && s.current != IDLE
    ensures Inv(NotifyWait(s, ticks))
  {
    hide BlockCurrent, OneHome, ReadyLists, Ahead, HighestUnless, RunsHighest, Members, WellFormed;
    if s.notify[s.current] != Received {
      var a := s.(notify := s.notify[s.current := Waiting]);
      NotifyStateKeepsInv(s, a);
      if ticks > 0 {
        BlockKeepsInv(a, ticks, true);
        RequestKeepsInv(BlockCurrent(a, ticks, true));
      }
    }
  }

  lemma SuspendHomes(s: Sched, t: Task)
    requires Shape(s) && OneHome(s) && t < |s.prio|
    ensures OneHome(Suspend(s, t))
  {
    hide DropEvent, WellFormed;
    var a, r := UnlinkState(s, t), Suspend(s, t);
    forall u | 0 <= u < |s.prio|
      ensures Homes(r, u) == 1
    {
      UnlinkHomes(s, t, u);
      CountConcat(a.suspended, [t], u);
      assert Count([t], u) == if t == u then 1 else 0;
    }
  }

  lemma SuspendMembers(s: Sched, t: Task)
    requires Shape(s) && Members(s) && Known(s, t)
    ensures Members(Suspend(s, t))
  {
    hide UnlinkState, DropEvent, WellFormed;
    UnlinkSubset(s, t);
    forall u
      ensures u in DropTask(s.pending, t) ==> u in s.pending
    {
      DropTaskKeeps(s.pending, t, u);
    }
    DropEventMembers(s, t);
  }

  lemma SuspendKeepsBase(s: Sched, t: Task)
    requires Base(s) && Ahead(s) && Known(s, t)
    ensures Base(Suspend(s, t)) && Ahead(Suspend(s, t))
  {
    hide OneHome, Members, WellFormed, DropEvent, DropReady;
    SuspendHomes(s, t);
    SuspendMembers(s, t);
    UnlinkReadyLists(s, t);
    ReadyListsOnly(UnlinkState(s, t), Suspend(s, t));
    MakeReadyAhead(s, t);
  }

  lemma SuspendKeepsInv(s: Sched, t: Task)
    requires Inv(s) && Known(s, t)
    ensures Inv(Suspend(s, t))
  {
    hide Homes, OneHome, Members, Ahead, WellFormed, DropEvent;
    var r := Suspend(s, t);
    SuspendKeepsBase(s, t);
    UnlinkReadyLists(s, t);
    DropReadyMember(s.ready[s.prio[t]], t, s.current);
    if !SwitchOutstanding(r) {
      forall p | s.prio[s.current] < p < MAX_PRIORITIES
        ensures r.ready[p].items == []
      {
        assert s.ready[p].items == [];
      }
    }
  }

  lemma ResumeKeepsInv(s: Sched, t: Task)
    requires Inv(s) && Known(s, t)
    ensures Inv(Resume(s, t))
  {
    if Resume(s, t) != s {
      WakeKeepsInv(s, t, Resume(s, t));
    }
  }

  lemma SuspendAllKeepsInv(s: Sched)
    requires Inv(s)
    ensures Inv(s.(depth := s.depth + 1))
  {
    hide Homes;
    SameHomes(s, s.(depth := s.depth + 1));
  }

  lemma StepKeepsInv(s: Sched, ev: Event)
    requires Inv(s) && Enabled(s, ev)
    ensures Inv(Step(s, ev))
  {
    hide OneHome, ReadyLists, Ahead, RunsHighest, Members, NothingDeferred, WellFormed, TickIsr, ResumeAll,
         SwitchContext, BlockCurrent, PlaceOnEventList, EventWake, UnorderedWake, Notify, NotifyFromIsr, NotifyWait,
         NotifyFinish, Suspend, Resume;
    match ev
    case Tick_ => TickKeepsInv(s);
    case SuspendAll_ => SuspendAllKeepsInv(s);
    case ResumeAll_ => ResumeAllKeepsInv(s);
    case Switch_ => SwitchKeepsInv(s);
    case Yield_ => RequestKeepsInv(s);
    case Delay_(ticks) => BlockKeepsInv(s, ticks, false);
    case WaitOn_(e, ticks) => WaitKeepsInv(s, e, ticks);
    case EventWake_(e) => EventWakeKeepsInv(s, e);
    case UnorderedWake_(e, k) => UnorderedWakeKeepsInv(s, e, k);
    case Notify_(t) => NotifyKeepsInv(s, t);
    case NotifyFromIsr_(t, flag) => NotifyFromIsrKeepsInv(s, t, flag);
    case NotifyWait_(ticks) => NotifyWaitKeepsInv(s, ticks);
    case NotifyFinish_ => NotifyFinishKeepsInv(s);
    case Suspend_(t) => SuspendKeepsInv(s, t);
    case Resume_(t) => ResumeKeepsInv(s, t);
  }
}
