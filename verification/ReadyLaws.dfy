/** Where a task that becomes ready joins the order in which the tasks of its priority run. */
module ReadyLaws {
  import opened Ticks
  import opened ListSpec
  import opened DelayLists
  import opened SchedulerSpec
  import opened SchedulerRuns
  import opened SchedulerTheorems
  import opened SchedulerLaws
  import Deferral

  /** a waits for its turn: the cursor does not stand on it. */
  ghost predicate InLine(r: Ring<Task>, a: Task) {
    exists p: nat :: StillWaiting(r, p) && Upcoming(r)[p] == a
  }

  /** a and b wait for their turns, and a's comes first. */
  ghost predicate InLineBefore(r: Ring<Task>, a: Task, b: Task) {
    exists p: nat, q: nat ::
      StillWaiting(r, p) && StillWaiting(r, q) && p < q && Upcoming(r)[p] == a && Upcoming(r)[q] == b
  }

  /** A newcomer goes behind everybody that waits for its turn. */
  lemma NewcomerGoesLast(r: Ring<Task>, x: Task, a: Task)
    requires InLine(r, a)
    ensures InLineBefore(InsertEnd(r, x), a, x)
  {
    var p: nat :| StillWaiting(r, p) && Upcoming(r)[p] == a;
    InsertEndKeepsTurn(r, x, p);
    var v := InsertEnd(r, x);
    var q := if r.index == 0 then |r.items| else |r.items| - 1;
    if r.index > 0 {
      var i := r.index;
      assert Upcoming(v) == r.items[i..] + (r.items[..i - 1] + [x] + [r.items[i - 1]]);
    }
    assert StillWaiting(v, q) && Upcoming(v)[q] == x;
  }

  lemma NewcomerIsInLine(r: Ring<Task>, x: Task)
    requires WellFormed(r)
    ensures InLine(InsertEnd(r, x), x)
  {
    var v := InsertEnd(r, x);
    var q := if r.index == 0 then |r.items| else |r.items| - 1;
    if r.index > 0 {
      var i := r.index;
      assert Upcoming(v) == r.items[i..] + (r.items[..i - 1] + [x] + [r.items[i - 1]]);
    }
    assert StillWaiting(v, q) && Upcoming(v)[q] == x;
  }

  lemma NewcomerKeepsLine(r: Ring<Task>, x: Task, a: Task)
    requires InLine(r, a)
    ensures InLine(InsertEnd(r, x), a)
  {
    var p: nat :| StillWaiting(r, p) && Upcoming(r)[p] == a;
    InsertEndKeepsTurn(r, x, p);
  }

  lemma NewcomerKeepsOrder(r: Ring<Task>, x: Task, a: Task, b: Task)
    requires InLineBefore(r, a, b)
    ensures InLineBefore(InsertEnd(r, x), a, b)
  {
    var p: nat, q: nat :|
      StillWaiting(r, p) && StillWaiting(r, q) && p < q && Upcoming(r)[p] == a && Upcoming(r)[q] == b;
    InsertEndKeepsTurn(r, x, p);
    InsertEndKeepsTurn(r, x, q);
  }

  lemma WakeHeadReady(s: Sched, p: nat)
    requires Shape(s) && s.sleeping != [] && s.sleeping[0].owner < |s.prio| && p < MAX_PRIORITIES
    ensures var t := s.sleeping[0].owner;
            WakeHead(s).ready[p] == if s.prio[t] == p then InsertEnd(s.ready[p], t) else s.ready[p]
    ensures WakeHead(s).prio == s.prio && WakeHead(s).now == s.now && WakeHead(s).sleeping == s.sleeping[1..]
  {
    hide InsertEnd, DropEvent;
  }

  lemma {:induction false} WakeDueKeepsLine(s: Sched, urgent: bool, p: nat, a: Task, b: Task)
    requires Shape(s) && Members(s) && p < MAX_PRIORITIES && InLineBefore(s.ready[p], a, b)
    ensures InLineBefore(WakeDue(s, urgent).0.ready[p], a, b)
    decreases |s.sleeping|
  {
    hide InLineBefore, WakeHead, InsertEnd, Members, WellFormed;
    if s.sleeping != [] && s.sleeping[0].value <= s.now {
      Deferral.FirstSleeper(s);
      WakeHeadMembers(s);
      WakeHeadReady(s, p);
      NewcomerKeepsOrder(s.ready[p], s.sleeping[0].owner, a, b);
      WakeDueKeepsLine(WakeHead(s), urgent || s.prio[s.sleeping[0].owner] >= s.prio[s.current], p, a, b);
    }
  }

  /** A task that waits for its turn stays in front of one that is woken. */
  lemma {:induction false} WakeDueJoins(s: Sched, urgent: bool, a: Task, y: Entry<Task>)
    requires Shape(s) && Members(s) && Sorted(s.sleeping) && y in s.sleeping && y.value <= s.now
    requires y.owner < |s.prio| && InLine(s.ready[s.prio[y.owner]], a)
    ensures InLineBefore(WakeDue(s, urgent).0.ready[s.prio[y.owner]], a, y.owner)
    decreases |s.sleeping|
  {
    hide InLineBefore, InLine, WakeHead, InsertEnd, WellFormed;
    var h, p := s.sleeping[0], s.prio[y.owner];
    assert h.value <= s.now;
    Deferral.FirstSleeper(s);
    WakeHeadMembers(s);
    WakeHeadReady(s, p);
    var u := urgent || s.prio[h.owner] >= s.prio[s.current];
    if h == y {
      NewcomerGoesLast(s.ready[p], y.owner, a);
      hide Members;
      WakeDueKeepsLine(WakeHead(s), u, p, a, y.owner);
    } else {
      if s.prio[h.owner] == p {
        NewcomerKeepsLine(s.ready[p], h.owner, a);
      }
      assert s.sleeping == [h] + s.sleeping[1..];
      WakeDueJoins(WakeHead(s), u, a, y);
    }
  }

  /** Two sleepers that are due at once join in the order of the delayed list. */
  lemma {:induction false} WakeDueInOrder(s: Sched, urgent: bool, i: nat, j: nat)
    requires Shape(s) && Members(s) && Sorted(s.sleeping) && i < j < |s.sleeping| && s.sleeping[j].value <= s.now
    requires s.sleeping[i].owner < |s.prio| && s.sleeping[j].owner < |s.prio|
    requires s.prio[s.sleeping[i].owner] == s.prio[s.sleeping[j].owner]
    ensures var p := s.prio[s.sleeping[i].owner];
            InLineBefore(WakeDue(s, urgent).0.ready[p], s.sleeping[i].owner, s.sleeping[j].owner)
    decreases |s.sleeping|
  {
    hide InLineBefore, InLine, WakeHead, InsertEnd, WellFormed;
    var h, p := s.sleeping[0], s.prio[s.sleeping[i].owner];
    assert h.value <= s.sleeping[j].value;
    Deferral.FirstSleeper(s);
    WakeHeadMembers(s);
    hide Members;
    WakeHeadReady(s, p);
    var u := urgent || s.prio[h.owner] >= s.prio[s.current];
    if i == 0 {
      NewcomerIsInLine(s.ready[p], h.owner);
      assert s.sleeping[j] == WakeHead(s).sleeping[j - 1];
      WakeDueJoins(WakeHead(s), u, h.owner, s.sleeping[j]);
    } else {
      WakeDueInOrder(WakeHead(s), u, i - 1, j - 1);
    }
  }

  lemma TickJoins(s: Sched, a: Task, t: Task)
    requires Inv(s) && s.depth == 0 && t < |s.prio| && Due(s.sleeping, t, s.now + 1) && InLine(s.ready[s.prio[t]], a)
    ensures InLineBefore(TickIsr(s).ready[s.prio[t]], a, t)
  {
    hide OneHome, ReadyLists, RunsHighest, InLine, InLineBefore, WakeDue;
    var y :| y in s.sleeping && y.owner == t && y.value <= s.now + 1;
    WakeDueJoins(s.(now := s.now + 1), false, a, y);
  }

  lemma WokenAtEnd(s: Sched, t: Task, a: Task)
    requires Shape(s) && t < |s.prio| && !Ready(s, t) && InLine(s.ready[s.prio[t]], a)
    ensures InLineBefore(MakeReady(s, t).ready[s.prio[t]], a, t)
  {
    hide InLineBefore, InLine;
    NewcomerGoesLast(s.ready[s.prio[t]], t, a);
  }

  lemma WakesJoin(s: Sched, ev: Event, a: Task, t: Task)
    requires Inv(s) && Enabled(s, ev) && t < |s.prio| && Wakes(s, ev, t) && !Ready(s, t)
    requires InLine(s.ready[s.prio[t]], a) && !ev.Tick_? && !ev.ResumeAll_?
    ensures Step(s, ev).prio == s.prio && InLineBefore(Step(s, ev).ready[s.prio[t]], a, t)
  {
    hide OneHome, ReadyLists, Ahead, RunsHighest, WellFormed, Members, MakeReady, InLine, InLineBefore, OnList;
    match ev
    case EventWake_(e) => WokenAtEnd(s.(events := s.events[e := s.events[e][1..]]), t, a);
    case UnorderedWake_(e, k) => WokenAtEnd(s.(events := s.events[e := RemoveAt(s.events[e], k)]), t, a);
    case Notify_(_) => WokenAtEnd(s.(notify := s.notify[t := Received]), t, a);
    case NotifyFromIsr_(_, _) => WokenAtEnd(s.(notify := s.notify[t := Received]), t, a);
    case Resume_(_) =>
      ResumableIff(s, t);
      WokenAtEnd(s, t, a);
  }

  /** A task that a tick, an event, a notification or vTaskResume makes ready joins behind every task of
      its priority that waits for its turn.  xTaskResumeAll comes to the same as those one by one
      (Deferral.ResumeAllCatchesUp). */
  lemma WokenJoinsBehind(s: Sched, ev: Event, a: Task, t: Task)
    requires Inv(s) && Enabled(s, ev) && t < |s.prio| && Wakes(s, ev, t) && !Ready(s, t)
    requires InLine(s.ready[s.prio[t]], a) && !ev.ResumeAll_?
    ensures Step(s, ev).prio == s.prio && InLineBefore(Step(s, ev).ready[s.prio[t]], a, t)
  {
    if ev.Tick_? {
      StepAdvances(s, ev);
      TickJoins(s, a, t);
    } else {
      WakesJoin(s, ev, a, t);
    }
  }

  /** Tasks of the same priority whose delays end with the same tick become ready in the order of the
      delayed list, which is the order in which they blocked. */
  lemma SleepersJoinInOrder(s: Sched, i: nat, j: nat)
    requires Inv(s) && s.depth == 0 && i < j < |s.sleeping| && s.sleeping[j].value <= s.now + 1
    requires s.sleeping[i].owner < |s.prio| && s.sleeping[j].owner < |s.prio|
    requires s.prio[s.sleeping[i].owner] == s.prio[s.sleeping[j].owner]
    ensures var r := Step(s, Tick_);
            r.prio == s.prio &&
            InLineBefore(r.ready[s.prio[s.sleeping[i].owner]], s.sleeping[i].owner, s.sleeping[j].owner)
  {
    StepAdvances(s, Tick_);
    hide OneHome, ReadyLists, RunsHighest, InLineBefore, WakeDue;
    WakeDueInOrder(s.(now := s.now + 1), false, i, j);
  }

  // ---------- when the running task leaves ----------

  ghost predicate Unique(s: seq<Task>) {
    forall i, j :: 0 <= i < j < |s| ==> s[i] != s[j]
  }

  lemma InLineIff(r: Ring<Task>, a: Task)
    requires WellFormed(r) && Unique(r.items)
    ensures InLine(r, a) <==> a in r.items && (r.index == 0 || r.items[r.index - 1] != a)
  {
    var n, i := |r.items|, r.index;
    if InLine(r, a) {
      var p: nat :| StillWaiting(r, p) && Upcoming(r)[p] == a;
      assert r.items[if p < n - i then i + p else p - (n - i)] == a;
    }
    if a in r.items && (i == 0 || r.items[i - 1] != a) {
      var j :| 0 <= j < n && r.items[j] == a;
      var p: nat := if j < i then n - i + j else j - i;
      assert StillWaiting(r, p) && Upcoming(r)[p] == a;
    }
  }

  lemma RemovalMember(s: seq<Task>, k: nat, t: Task)
    requires k < |s| && Unique(s)
    ensures t in RemoveAt(s, k) <==> t in s && t != s[k]
  {
    var v := RemoveAt(s, k);
    if t in v {
      var i :| 0 <= i < |v| && v[i] == t;
      assert s[if i < k then i else i + 1] == t;
    }
    if t in s && t != s[k] {
      var i :| 0 <= i < |s| && s[i] == t;
      assert v[if i < k then i else i - 1] == t;
    }
  }

  lemma RemovalUnique(s: seq<Task>, k: nat)
    requires k < |s| && Unique(s)
    ensures Unique(RemoveAt(s, k))
  {
  }

  lemma NewcomerUnique(r: Ring<Task>, x: Task)
    requires WellFormed(r) && Unique(r.items) && x !in r.items
    ensures Unique(InsertEnd(r, x).items)
  {
  }

  /** The code takes the cursor for the task that ran last.  When that task leaves the list, the cursor
      falls back on the one in front of it.  So whatever member leaves and whatever task then becomes
      ready, the newcomer goes behind every member a that was waiting for its turn, with exactly one
      exception: the running task left and a had run just before it. */
  lemma NewcomerBehindIff(r: Ring<Task>, k: nat, x: Task, a: Task)
    requires WellFormed(r) && Unique(r.items) && k < |r.items| && x !in r.items
    requires InLine(r, a) && a != r.items[k]
    ensures InLineBefore(InsertEnd(RemoveItem(r, k), x), a, x)
      <==> !(r.index == k + 1 && k > 0 && r.items[k - 1] == a)
  {
    var v := RemoveItem(r, k);
    RemovalUnique(r.items, k);
    RemovalMember(r.items, k, a);
    RemovalMember(r.items, k, x);
    InLineIff(r, a);
    InLineIff(v, a);
    if InLine(v, a) {
      NewcomerGoesLast(v, x, a);
    } else {
      NewcomerUnique(v, x);
      InLineIff(InsertEnd(v, x), a);
      OnlyInLine(InsertEnd(v, x), a, x);
    }
  }

  lemma OnlyInLine(r: Ring<Task>, a: Task, b: Task)
    ensures InLineBefore(r, a, b) ==> InLine(r, a)
  {
  }
}
