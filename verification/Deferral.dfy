/** What happens to interrupts while the scheduler is suspended: they only leave notes, and the
    outermost xTaskResumeAll catches up as if they had come in a fixed order. */
module Deferral {
  import opened Ticks
  import opened ListSpec
  import opened DelayLists
  import opened SchedulerSpec
  import opened SchedulerRuns
  import opened SchedulerTheorems

  /** The calls an interrupt may make. */
  predicate FromIsr(ev: Event) {
    ev.Tick_? || ev.EventWake_? || ev.NotifyFromIsr_?
  }

  function TicksIn(evs: seq<Event>): (n: nat)
    decreases evs
  {
    if evs == [] then 0 else (if evs[0].Tick_? then 1 else 0) + TicksIn(evs[1..])
  }

  /** The state without the flags that only say whether a switch is due, and without the number of
      ticks left to catch up with. */
  function Core(s: Sched): (r: Sched) {
    s.(yieldPending := false, switchRequested := false, pended := 0)
  }

  /** While the scheduler is suspended an interrupt leaves every ready and delayed list alone. */
  lemma IsrTouchesNoStateList(s: Sched, ev: Event)
    requires Inv(s) && Enabled(s, ev) && FromIsr(ev) && s.depth > 0
    ensures var r := Step(s, ev);
            && r.ready == s.ready && r.sleeping == s.sleeping && r.suspended == s.suspended
            && r.now == s.now && r.current == s.current && r.top == s.top && r.depth == s.depth
            && r.pended == s.pended + (if ev.Tick_? then 1 else 0)
            && (ev.Tick_? ==> Core(r) == Core(s))
  {
    hide OneHome, ReadyLists, RunsHighest, Ahead, MakeReady, TickOne, WellFormed;
  }

  /** The wakeups among evs, in order, each as it would be done with the scheduler running;
      s has the scheduler running. */
  ghost function WakeNow(s: Sched, evs: seq<Event>): (r: Sched)
    requires Shape(s) && Members(s) && s.depth == 0 && s.pending == []
    requires WakesPossible(s, evs)
    ensures Shape(r) && Members(r)
    decreases evs
  {
    if evs == [] then s
    else if evs[0].Tick_? then WakeNow(s, evs[1..])
    else WakeOneMembers(s, evs[0]); WakeNow(WakeOne(s, evs[0]), evs[1..])
  }

  ghost predicate WakeOnePossible(s: Sched, ev: Event) {
    match ev
    case Tick_ => true
    case EventWake_(e) => e < |s.events| && s.events[e] != []
    case NotifyFromIsr_(t, _) => Known(s, t)
    case _ => false
  }

  /** xTaskRemoveFromEventList or xTaskGenericNotifyFromISR. */
  ghost function IsrWake(s: Sched, ev: Event): (r: Sched)
    requires Shape(s) && Members(s) && WakeOnePossible(s, ev) && !ev.Tick_?
    ensures Shape(r)
  {
    match ev
    case EventWake_(e) => assert s.events[e][0] in s.events[e]; EventWake(s, e)
    case NotifyFromIsr_(t, flag) => NotifyFromIsr(s, t, flag)
  }

  /** The same with the scheduler running. */
  ghost function WakeOne(s: Sched, ev: Event): (r: Sched)
    requires Shape(s) && Members(s) && s.depth == 0 && WakeOnePossible(s, ev) && !ev.Tick_?
    ensures Shape(r)
  {
    Core(IsrWake(s, ev))
  }

  lemma WakeOneMembers(s: Sched, ev: Event)
    requires Shape(s) && Members(s) && s.depth == 0 && s.pending == [] && WakeOnePossible(s, ev) && !ev.Tick_?
    ensures Members(WakeOne(s, ev)) && WakeOne(s, ev).depth == 0 && WakeOne(s, ev).pending == []
  {
    hide MakeReady;
    match ev
    case EventWake_(e) =>
      assert s.events[e][0] in s.events[e];
      var a := s.(events := s.events[e := s.events[e][1..]]);
      assert Members(a);
      MakeReadyMembers(a, s.events[e][0].owner);
    case NotifyFromIsr_(t, flag) =>
      var a := s.(notify := s.notify[t := Received]);
      assert Members(a);
      MakeReadyMembers(a, t);
  }

  ghost predicate WakesPossible(s: Sched, evs: seq<Event>)
    requires Shape(s) && Members(s) && s.depth == 0 && s.pending == []
    decreases evs
  {
    evs == [] ||
    (if evs[0].Tick_? then WakesPossible(s, evs[1..])
     else WakeOnePossible(s, evs[0])
          && (WakeOneMembers(s, evs[0]); WakesPossible(WakeOne(s, evs[0]), evs[1..])))
  }

  // ---------- the flags do not matter ----------

  lemma {:induction false} DrainCore(a: Sched, b: Sched)
    requires Shape(a) && Members(a) && Shape(b) && Members(b) && Core(a) == Core(b)
    ensures Core(DrainPending(a)) == Core(DrainPending(b))
    decreases |a.pending|
  {
    hide MakeReady, UnlinkState, AddReady;
    if a.pending != [] {
      assert a.pending[0] in a.pending;
      MakeReadyCore(a, b, a.pending[0]);
      DrainCore(DrainOne(a), DrainOne(b));
    }
  }

  lemma MakeReadyCore(a: Sched, b: Sched, t: Task)
    requires Shape(a) && Shape(b) && Core(a) == Core(b)
    requires t < |a.prio|
    ensures Core(MakeReady(a, t)) == Core(MakeReady(b, t))
  {
  }

  lemma FirstSleeper(s: Sched)
    requires Members(s) && s.sleeping != []
    ensures s.sleeping[0].owner < |s.prio|
  {
    assert s.sleeping[0] in s.sleeping;
  }

  lemma WakeHeadCore(a: Sched, b: Sched)
    requires Shape(a) && Shape(b) && Core(a) == Core(b)
    requires a.sleeping != [] && a.sleeping[0].owner < |a.prio|
    ensures Core(WakeHead(a)) == Core(WakeHead(b)) && |WakeHead(a).sleeping| == |a.sleeping| - 1
  {
    hide DropEvent, InsertEnd;
  }

  lemma {:induction false} WakeDueCore(a: Sched, b: Sched, x: bool, y: bool)
    requires Shape(a) && Members(a) && Shape(b) && Members(b) && Core(a) == Core(b)
    ensures Core(WakeDue(a, x).0) == Core(WakeDue(b, y).0)
    decreases |a.sleeping|
  {
    hide WakeHead, Members;
    if a.sleeping != [] && a.sleeping[0].value <= a.now {
      FirstSleeper(a);
      FirstSleeper(b);
      WakeHeadMembers(a);
      WakeHeadMembers(b);
      WakeHeadCore(a, b);
      var urgent := a.prio[a.sleeping[0].owner] >= a.prio[a.current];
      WakeDueCore(WakeHead(a), WakeHead(b), x || urgent, y || urgent);
    }
  }

  lemma UnwindOneCore(a: Sched, b: Sched)
    requires Shape(a) && Members(a) && Shape(b) && Members(b) && Core(a) == Core(b)
    ensures Core(UnwindOne(a)) == Core(UnwindOne(b))
  {
    hide WakeDue;
    WakeDueCore(a.(now := a.now + 1), b.(now := b.now + 1), false, false);
  }

  lemma {:induction false} UnwindCore(a: Sched, b: Sched, n: nat)
    requires Shape(a) && Members(a) && Shape(b) && Members(b) && Core(a) == Core(b)
    ensures Core(UnwindTicks(a, n)) == Core(UnwindTicks(b, n))
    decreases n
  {
    hide UnwindOne;
    if n > 0 {
      UnwindOneCore(a, b);
      UnwindCore(UnwindOne(a), UnwindOne(b), n - 1);
    }
  }

  lemma EventWakeCore(a: Sched, b: Sched, e: nat)
    requires Shape(a) && Shape(b) && Core(a) == Core(b) && a.depth == 0
    requires e < |a.events| && a.events[e] != [] && a.events[e][0].owner < |a.prio|
    ensures Core(EventWake(a, e)) == Core(EventWake(b, e))
  {
    hide MakeReady, WellFormed;
    var x := a.events[e := a.events[e][1..]];
    MakeReadyCore(a.(events := x), b.(events := x), a.events[e][0].owner);
  }

  lemma NotifyFromIsrCore(a: Sched, b: Sched, t: Task, flag: bool)
    requires Shape(a) && Shape(b) && Core(a) == Core(b) && a.depth == 0 && t < |a.prio|
    ensures Core(NotifyFromIsr(a, t, flag)) == Core(NotifyFromIsr(b, t, flag))
  {
    hide MakeReady, WellFormed;
    var x := a.notify[t := Received];
    MakeReadyCore(a.(notify := x), b.(notify := x), t);
  }

  lemma WakeOneCore(a: Sched, b: Sched, ev: Event)
    requires Shape(a) && Members(a) && Shape(b) && Members(b) && Core(a) == Core(b)
    requires a.depth == 0 && WakeOnePossible(a, ev) && !ev.Tick_?
    ensures WakeOnePossible(b, ev) && WakeOne(a, ev) == WakeOne(b, ev)
  {
    hide EventWake, NotifyFromIsr, WellFormed;
    match ev
    case EventWake_(e) =>
      assert a.events[e][0] in a.events[e];
      EventWakeCore(a, b, e);
    case NotifyFromIsr_(t, flag) => NotifyFromIsrCore(a, b, t, flag);
  }

  /** The first loop of the outermost xTaskResumeAll. */
  ghost function Drained(s: Sched): (r: Sched)
    requires Shape(s) && Members(s)
    ensures Shape(r) && Members(r) && r.pending == []
  {
    DrainPending(s.(depth := 0))
  }

  lemma {:induction false} DrainFrame(s: Sched)
    requires Shape(s) && Members(s)
    ensures var d := DrainPending(s);
            && d.events == s.events && d.notify == s.notify && d.prio == s.prio
            && d.depth == s.depth && d.pended == s.pended
    decreases |s.pending|
  {
    hide MakeReady;
    if s.pending != [] {
      DrainFrame(DrainOne(s));
    }
  }

  lemma DrainedCore(a: Sched, b: Sched)
    requires Shape(a) && Members(a) && Shape(b) && Members(b) && Core(a) == Core(b)
    ensures Core(Drained(a)) == Core(Drained(b))
  {
    hide DrainPending;
    DrainCore(a.(depth := 0), b.(depth := 0));
  }

  lemma DrainedFrame(s: Sched)
    requires Shape(s) && Members(s)
    ensures var d := Drained(s);
            d.events == s.events && d.notify == s.notify && d.prio == s.prio && d.depth == 0 && d.pended == s.pended
  {
    hide DrainPending;
    DrainFrame(s.(depth := 0));
  }

  // ---------- one deferred wakeup ----------

  /** State r is state s with another task pended behind the others, and other event lists and
      notification states. */
  ghost predicate Pended(s: Sched, r: Sched, t: Task) {
    Core(r) == Core(s.(events := r.events, notify := r.notify, pending := s.pending + [t]))
  }

  lemma PendedAlone(s: Sched, r: Sched, t: Task)
    requires Shape(s) && Members(s) && Shape(r) && Members(r) && t < |s.prio| && Pended(s, r, t) && s.pending == []
    ensures Core(DrainPending(r)) == Core(MakeReady(s.(events := r.events, notify := r.notify), t))
  {
    hide MakeReady, WellFormed;
    assert r.pending == [t];
    assert DrainPending(r) == DrainOne(r);
    MakeReadyCore(r, s.(events := r.events, notify := r.notify, pending := [t]), t);
    PendingAside(s.(events := r.events, notify := r.notify), [t], t);
  }

  lemma PendedBehind(s: Sched, r: Sched, t: Task)
    requires Shape(s) && Members(s) && Shape(r) && Members(r) && Pended(s, r, t) && s.pending != []
    ensures r.pending != [] && Pended(DrainOne(s), DrainOne(r), t)
    ensures DrainOne(r).events == r.events && DrainOne(r).notify == r.notify
  {
    hide MakeReady, WellFormed;
    var u := s.pending[0];
    assert u in s.pending && r.pending[0] == u && r.pending[1..] == s.pending[1..] + [t];
    MakeReadyCore(r, s.(events := r.events, notify := r.notify, pending := r.pending), u);
    MakeReadyAside(s, r.events, r.notify, r.pending, u);
  }

  /** That task becomes ready after the others, and what the interrupt did to the event lists and
      notification states commutes with draining the list. */
  lemma {:induction false} DrainAfterPend(s: Sched, r: Sched, t: Task)
    requires Shape(s) && Members(s) && Shape(r) && Members(r) && t < |s.prio| && Pended(s, r, t)
    ensures var d := DrainPending(s).(events := r.events, notify := r.notify);
            Shape(d) && t < |d.prio| && Core(DrainPending(r)) == Core(MakeReady(d, t))
    decreases |s.pending|
  {
    hide MakeReady, DrainOne, Pended, Core, WellFormed, Members;
    if s.pending == [] {
      NotifiesSize(s, r, t);
      PendedAlone(s, r, t);
    } else {
      PendedBehind(s, r, t);
      DrainOneKeepsPrio(s);
      DrainAfterPend(DrainOne(s), DrainOne(r), t);
    }
  }

  lemma NotifiesSize(s: Sched, r: Sched, t: Task)
    requires Shape(s) && Shape(r) && Pended(s, r, t)
    ensures Shape(s.(events := r.events, notify := r.notify))
  {
  }

  lemma DrainOneKeepsPrio(s: Sched)
    requires Shape(s) && Members(s) && s.pending != []
    ensures DrainOne(s).prio == s.prio
  {
    hide MakeReady;
  }

  lemma PendingAside(s: Sched, pending: seq<Task>, t: Task)
    requires Shape(s) && t < |s.prio|
    ensures MakeReady(s.(pending := pending), t) == MakeReady(s, t).(pending := pending)
  {
  }

  lemma MakeReadyAside(s: Sched, events: seq<seq<Entry<Task>>>, notify: seq<NotifyState>, pending: seq<Task>, t: Task)
    requires Shape(s) && t < |s.prio| && |notify| == |s.prio|
    ensures MakeReady(s.(events := events, notify := notify, pending := pending), t)
         == MakeReady(s, t).(events := events, notify := notify, pending := pending)
  {
  }

  lemma EventCommutes(s: Sched, e: nat)
    requires Shape(s) && Members(s) && s.depth == 1 && e < |s.events| && s.events[e] != []
    requires s.events[e][0].owner < |s.prio| && Members(EventWake(s, e))
    ensures var d := Drained(s);
            && d.depth == 0 && d.events == s.events && d.prio == s.prio
            && Core(Drained(EventWake(s, e))) == Core(EventWake(d, e))
  {
    hide MakeReady, DrainPending;
    DrainFrame(s.(depth := 0));
    DrainAfterPend(s.(depth := 0), EventWake(s, e).(depth := 0), s.events[e][0].owner);
  }

  /** What xTaskGenericNotifyFromISR leaves behind with the scheduler suspended. */
  lemma NotifyPends(s: Sched, t: Task, flag: bool)
    requires Shape(s) && s.depth > 0 && t < |s.prio|
    ensures var r := NotifyFromIsr(s, t, flag);
            Core(r) == Core(s.(notify := s.notify[t := Received],
                               pending := s.pending + if s.notify[t] == Waiting then [t] else []))
            && r.pended == s.pended
  {
    hide MakeReady, WellFormed;
  }

  /** And with the scheduler running. */
  lemma NotifyWakes(s: Sched, t: Task, flag: bool)
    requires Shape(s) && s.depth == 0 && t < |s.prio|
    ensures var a := s.(notify := s.notify[t := Received]);
            Core(NotifyFromIsr(s, t, flag)) == Core(if s.notify[t] == Waiting then MakeReady(a, t) else a)
  {
    hide MakeReady, WellFormed;
  }

  lemma NotifyCommutes(s: Sched, t: Task, flag: bool)
    requires Shape(s) && Members(s) && s.depth == 1 && Known(s, t) && Members(NotifyFromIsr(s, t, flag))
    ensures var d := Drained(s);
            && d.depth == 0 && d.notify == s.notify && d.prio == s.prio
            && Core(Drained(NotifyFromIsr(s, t, flag))) == Core(NotifyFromIsr(d, t, flag))
  {
    hide MakeReady, DrainPending, NotifyFromIsr, WellFormed;
    DrainedFrame(s);
    NotifyPends(s, t, flag);
    NotifyWakes(Drained(s), t, flag);
    if s.notify[t] == Waiting {
      DrainAfterPend(s.(depth := 0), NotifyFromIsr(s, t, flag).(depth := 0), t);
    } else {
      DrainNotify(s.(depth := 0), s.notify[t := Received]);
      DrainedCore(NotifyFromIsr(s, t, flag), s.(notify := s.notify[t := Received]));
    }
  }

  lemma StepIsIsrWake(s: Sched, ev: Event)
    requires Inv(s) && Enabled(s, ev) && FromIsr(ev) && !ev.Tick_?
    ensures WakeOnePossible(s, ev) && Step(s, ev) == IsrWake(s, ev)
  {
    hide EventWake, NotifyFromIsr, OneHome, ReadyLists, RunsHighest, Ahead;
  }

  lemma {:induction false} DrainNotify(s: Sched, notify: seq<NotifyState>)
    requires Shape(s) && Members(s) && |notify| == |s.prio|
    ensures Members(s.(notify := notify))
    ensures DrainPending(s.(notify := notify)) == DrainPending(s).(notify := notify)
    decreases |s.pending|
  {
    if s.pending != [] {
      assert s.pending[0] in s.pending;
      MakeReadyAside(s, s.events, notify, s.pending, s.pending[0]);
      DrainNotify(DrainOne(s), notify);
    }
  }

  /** One deferred wakeup, drained, is that wakeup at once. */
  lemma WakeupCatchesUp(s: Sched, ev: Event)
    requires Inv(s) && Enabled(s, ev) && FromIsr(ev) && !ev.Tick_? && s.depth == 1 && Inv(Step(s, ev))
    ensures Drained(s).depth == 0 && WakeOnePossible(Drained(s), ev)
    ensures Core(Drained(Step(s, ev))) == WakeOne(Drained(s), ev)
  {
    hide Step, Drained, EventWake, NotifyFromIsr, OneHome, ReadyLists, RunsHighest, Ahead, WellFormed;
    StepIsIsrWake(s, ev);
    match ev {
      case EventWake_(e) =>
        assert s.events[e][0] in s.events[e];
        EventCommutes(s, e);
      case NotifyFromIsr_(t, flag) => NotifyCommutes(s, t, flag);
    }
  }

  // ---------- whole suspensions ----------

  ghost predicate AllFromIsr(evs: seq<Event>) {
    forall i :: 0 <= i < |evs| ==> FromIsr(evs[i])
  }

  /** After any interrupts during a suspension, draining the pending list gives what doing the
      wakeups at once would have given. */
  lemma {:induction false} DrainCatchesUp(s: Sched, evs: seq<Event>, d: Sched)
    requires Inv(s) && Possible(s, evs) && AllFromIsr(evs) && s.depth == 1
    requires d == Core(Drained(s))
    ensures Shape(d) && Members(d) && d.depth == 0 && WakesPossible(d, evs)
    ensures var r := Run(s, evs);
            && Inv(r) && r.depth == 1 && r.pended == s.pended + TicksIn(evs)
            && Core(Drained(r)) == WakeNow(d, evs)
    decreases evs
  {
    hide Step, Drained, OneHome, ReadyLists, RunsHighest, Ahead, WellFormed, WakeOne, Enabled;
    DrainedFrame(s);
    if evs != [] {
      var ev := evs[0];
      assert FromIsr(ev);
      var r := Step(s, ev);
      StepKeepsInv(s, ev);
      IsrTouchesNoStateList(s, ev);
      if ev.Tick_? {
        DrainedCore(r, s);
        DrainCatchesUp(r, evs[1..], d);
      } else {
        WakeupCatchesUp(s, ev);
        WakeOneCore(Drained(s), d, ev);
        WakeOneMembers(d, ev);
        DrainCatchesUp(r, evs[1..], WakeOne(d, ev));
      }
    }
  }

  // ---------- the steps of the task that suspended the scheduler ----------

  /** What a task does in such a window: it blocks itself, takes tasks off an event list in any
      order, and suspends and resumes once more inside. */
  predicate Own(ev: Event) {
    ev.Delay_? || ev.WaitOn_? || ev.UnorderedWake_? || ev.SuspendAll_? || ev.ResumeAll_?
  }

  /** Its event lists are those of `lists`, which interrupts leave alone: a queue is locked, and
      event groups have no interrupt calls. */
  predicate Apart(ev: Event, lists: set<nat>) {
    match ev
    case WaitOn_(e, _) => e in lists
    case UnorderedWake_(e, _) => e in lists
    case EventWake_(e) => e !in lists
    case _ => true
  }

  /** A step inside the window: of an interrupt, of the task, or one that only asks for a switch. */
  predicate Inside(s: Sched, ev: Event, lists: set<nat>) {
    && (FromIsr(ev) || Own(ev) || ev.Switch_? || ev.Yield_?)
    && Apart(ev, lists) && s.depth > 0 && (ev.ResumeAll_? ==> s.depth > 1)
  }

  ghost predicate Window(s: Sched, evs: seq<Event>, lists: set<nat>)
    requires Inv(s) && Possible(s, evs)
    decreases evs
  {
    evs == [] ||
    (Inside(s, evs[0], lists) && (StepKeepsInv(s, evs[0]); Window(Step(s, evs[0]), evs[1..], lists)))
  }

  function OwnPart(evs: seq<Event>): (r: seq<Event>)
    decreases evs
  {
    if evs == [] then [] else (if Own(evs[0]) then [evs[0]] else []) + OwnPart(evs[1..])
  }

  function IsrPart(evs: seq<Event>): (r: seq<Event>)
    ensures AllFromIsr(r)
    decreases evs
  {
    if evs == [] then [] else (if FromIsr(evs[0]) then [evs[0]] else []) + IsrPart(evs[1..])
  }

  /** What the steps of the task read and write. */
  ghost predicate OwnSide(a: Sched, b: Sched, lists: set<nat>) {
    && a.prio == b.prio && a.now == b.now && a.sleeping == b.sleeping && a.suspended == b.suspended
    && a.ready == b.ready && a.depth == b.depth && a.top == b.top && a.current == b.current
    && a.selfBlocked == b.selfBlocked && |a.events| == |b.events|
    && (forall e :: 0 <= e < |a.events| && e in lists ==> a.events[e] == b.events[e])
  }

  /** What interrupts read and write while the scheduler is suspended. */
  ghost predicate IsrSide(a: Sched, b: Sched, lists: set<nat>) {
    && a.prio == b.prio && a.pending == b.pending && a.notify == b.notify && a.pended == b.pended
    && |a.events| == |b.events|
    && (forall e :: 0 <= e < |a.events| && e !in lists ==> a.events[e] == b.events[e])
  }

  lemma BothSides(a: Sched, b: Sched, lists: set<nat>)
    requires OwnSide(a, b, lists) && IsrSide(a, b, lists)
    ensures Core(a) == Core(b) && a.pended == b.pended
  {
    forall e | 0 <= e < |a.events|
      ensures a.events[e] == b.events[e]
    {
      assert e in lists || e !in lists;
    }
    assert a.events == b.events;
  }

  lemma OwnDelays(a: Sched, b: Sched, ev: Event, lists: set<nat>)
    requires Inv(a) && Inv(b) && OwnSide(a, b, lists) && Enabled(a, ev) && Inside(a, ev, lists) && ev.Delay_?
    ensures Enabled(b, ev) && OwnSide(Step(a, ev), Step(b, ev), lists)
  {
    hide OneHome, ReadyLists, RunsHighest, Ahead, DropReady, Insert, InsertEnd, WellFormed, Members;
  }

  lemma OwnWaits(a: Sched, b: Sched, ev: Event, lists: set<nat>)
    requires Inv(a) && Inv(b) && OwnSide(a, b, lists) && Enabled(a, ev) && Inside(a, ev, lists) && ev.WaitOn_?
    ensures Enabled(b, ev) && OwnSide(Step(a, ev), Step(b, ev), lists)
  {
    hide OneHome, ReadyLists, RunsHighest, Ahead, DropReady, Insert, InsertEnd, WellFormed, Members;
  }

  lemma OwnWakes(a: Sched, b: Sched, ev: Event, lists: set<nat>)
    requires Inv(a) && Inv(b) && OwnSide(a, b, lists) && Enabled(a, ev) && Inside(a, ev, lists) && ev.UnorderedWake_?
    ensures Enabled(b, ev) && OwnSide(Step(a, ev), Step(b, ev), lists)
  {
    hide OneHome, ReadyLists, RunsHighest, Ahead, DropReady, Insert, InsertEnd, WellFormed, Members;
  }

  lemma OwnStep(a: Sched, b: Sched, ev: Event, lists: set<nat>)
    requires Inv(a) && Inv(b) && OwnSide(a, b, lists) && Enabled(a, ev) && Inside(a, ev, lists) && Own(ev)
    ensures Enabled(b, ev) && OwnSide(Step(a, ev), Step(b, ev), lists)
  {
    hide OneHome, ReadyLists, RunsHighest, Ahead, UnlinkState, Insert, DrainPending, UnwindTicks, Members;
    match ev
    case Delay_(_) => OwnDelays(a, b, ev, lists);
    case WaitOn_(_, _) => OwnWaits(a, b, ev, lists);
    case UnorderedWake_(_, _) => OwnWakes(a, b, ev, lists);
    case SuspendAll_ =>
    case ResumeAll_ =>
  }

  lemma IsrWakes(a: Sched, b: Sched, ev: Event, lists: set<nat>)
    requires Inv(a) && Inv(b) && IsrSide(a, b, lists) && a.depth > 0 && b.depth > 0
    requires Enabled(a, ev) && Inside(a, ev, lists) && ev.EventWake_?
    ensures Enabled(b, ev) && IsrSide(Step(a, ev), Step(b, ev), lists)
  {
    hide OneHome, ReadyLists, RunsHighest, Ahead, MakeReady, Members, WellFormed;
  }

  lemma IsrNotifies(a: Sched, b: Sched, ev: Event, lists: set<nat>)
    requires Inv(a) && Inv(b) && IsrSide(a, b, lists) && a.depth > 0 && b.depth > 0
    requires Enabled(a, ev) && Inside(a, ev, lists) && ev.NotifyFromIsr_?
    ensures Enabled(b, ev) && IsrSide(Step(a, ev), Step(b, ev), lists)
  {
    hide OneHome, ReadyLists, RunsHighest, Ahead, NotifyFromIsr, Members, WellFormed;
    NotifyPends(a, ev.t, ev.flag);
    NotifyPends(b, ev.t, ev.flag);
  }

  lemma IsrStep(a: Sched, b: Sched, ev: Event, lists: set<nat>)
    requires Inv(a) && Inv(b) && IsrSide(a, b, lists) && a.depth > 0 && b.depth > 0
    requires Enabled(a, ev) && Inside(a, ev, lists) && FromIsr(ev)
    ensures Enabled(b, ev) && IsrSide(Step(a, ev), Step(b, ev), lists)
  {
    hide OneHome, ReadyLists, RunsHighest, Ahead, EventWake, NotifyFromIsr, TickOne, Members, WellFormed;
    match ev
    case Tick_ =>
    case EventWake_(_) => IsrWakes(a, b, ev, lists);
    case NotifyFromIsr_(_, _) => IsrNotifies(a, b, ev, lists);
  }

  lemma OthersKeepOwnSide(s: Sched, ev: Event, lists: set<nat>)
    requires Inv(s) && Enabled(s, ev) && Inside(s, ev, lists) && !Own(ev)
    ensures OwnSide(s, Step(s, ev), lists)
  {
    hide OneHome, ReadyLists, RunsHighest, Ahead;
  }

  lemma OthersKeepIsrSide(s: Sched, ev: Event, lists: set<nat>)
    requires Inv(s) && Enabled(s, ev) && Inside(s, ev, lists) && !FromIsr(ev)
    ensures IsrSide(s, Step(s, ev), lists)
  {
    hide OneHome, ReadyLists, RunsHighest, Ahead, DropReady, Insert, InsertEnd, DrainPending, UnwindTicks;
  }

  lemma RunFirst(s: Sched, ev: Event, evs: seq<Event>)
    requires Inv(s) && Enabled(s, ev) && Inv(Step(s, ev)) && Possible(Step(s, ev), evs)
    ensures Possible(s, [ev] + evs) && Run(s, [ev] + evs) == Run(Step(s, ev), evs)
  {
    hide Step, Enabled, Inv;
    assert ([ev] + evs)[0] == ev && ([ev] + evs)[1..] == evs;
  }

  /** The steps of the task alone, without the interrupts. */
  lemma {:induction false} OwnRun(a: Sched, b: Sched, evs: seq<Event>, lists: set<nat>)
    requires Inv(a) && Inv(b) && OwnSide(a, b, lists) && Possible(a, evs) && Window(a, evs, lists)
    ensures Possible(b, OwnPart(evs))
    ensures OwnSide(Run(a, evs), Run(b, OwnPart(evs)), lists) && IsrSide(b, Run(b, OwnPart(evs)), lists)
    decreases evs
  {
    hide Step, Enabled, Inv, Own;
    if evs != [] {
      var ev := evs[0];
      StepKeepsInv(a, ev);
      if Own(ev) {
        OwnStep(a, b, ev, lists);
        StepKeepsInv(b, ev);
        OwnSideInside(a, b, ev, lists);
        OthersKeepIsrSide(b, ev, lists);
        OwnRun(Step(a, ev), Step(b, ev), evs[1..], lists);
        RunFirst(b, ev, OwnPart(evs[1..]));
      } else {
        OthersKeepOwnSide(a, ev, lists);
        OwnRun(Step(a, ev), b, evs[1..], lists);
        assert OwnPart(evs) == OwnPart(evs[1..]);
      }
    }
  }

  lemma OwnSideInside(a: Sched, b: Sched, ev: Event, lists: set<nat>)
    requires OwnSide(a, b, lists) && Inside(a, ev, lists) && Own(ev)
    ensures Inside(b, ev, lists) && !FromIsr(ev)
  {
  }

  lemma IsrSideInside(a: Sched, b: Sched, ev: Event, lists: set<nat>)
    requires Inside(a, ev, lists) && b.depth > 0 && FromIsr(ev)
    ensures Inside(b, ev, lists) && !Own(ev)
  {
  }

  /** The interrupts alone, after the steps of the task. */
  lemma {:induction false} IsrRun(a: Sched, b: Sched, evs: seq<Event>, lists: set<nat>)
    requires Inv(a) && Inv(b) && IsrSide(a, b, lists) && Possible(a, evs) && Window(a, evs, lists) && b.depth > 0
    ensures Possible(b, IsrPart(evs))
    ensures IsrSide(Run(a, evs), Run(b, IsrPart(evs)), lists) && OwnSide(b, Run(b, IsrPart(evs)), lists)
    decreases evs
  {
    hide Step, Enabled, Inv, FromIsr;
    if evs != [] {
      var ev := evs[0];
      StepKeepsInv(a, ev);
      if FromIsr(ev) {
        IsrStep(a, b, ev, lists);
        StepKeepsInv(b, ev);
        IsrSideInside(a, b, ev, lists);
        OthersKeepOwnSide(b, ev, lists);
        IsrRun(Step(a, ev), Step(b, ev), evs[1..], lists);
        RunFirst(b, ev, IsrPart(evs[1..]));
      } else {
        OthersKeepIsrSide(a, ev, lists);
        IsrRun(Step(a, ev), b, evs[1..], lists);
        assert IsrPart(evs) == IsrPart(evs[1..]);
      }
    }
  }

  /** A window comes to the same, but for the flags, with the task's steps first and the interrupts
      after them. */
  lemma WindowSplits(s: Sched, evs: seq<Event>, lists: set<nat>)
    requires Inv(s) && s.depth == 1 && s.pending == [] && s.pended == 0
    requires Possible(s, evs) && Window(s, evs, lists) && Run(s, evs).depth == 1
    ensures Possible(s, OwnPart(evs)) && Inv(Run(s, evs)) && Run(s, evs).now == s.now
    ensures var r, a := Run(s, evs), Run(s, OwnPart(evs));
            && Inv(a) && a.depth == 1 && a.pending == [] && a.pended == 0
            && Possible(a, IsrPart(evs)) && Inv(Run(a, IsrPart(evs)))
            && Core(r) == Core(Run(a, IsrPart(evs))) && r.pended == Run(a, IsrPart(evs)).pended
  {
    hide Inv, Step, Possible, Window, IsrPart, OwnPart, Run, Core;
    OwnRun(s, s, evs, lists);
    RunKeepsInv(s, evs);
    RunKeepsInv(s, OwnPart(evs));
    NoTimePasses(s, evs, lists);
    var r, a := Run(s, evs), Run(s, OwnPart(evs));
    IsrRun(s, a, evs, lists);
    RunKeepsInv(a, IsrPart(evs));
    BothSides(r, Run(a, IsrPart(evs)), lists);
  }

  /** The state in which the scheduler would run at once. */
  function Released(s: Sched): (r: Sched) {
    Core(s).(depth := 0)
  }

  /** Interrupts that come when nothing is deferred yet. */
  lemma IsrsCatchUp(a: Sched, isrs: seq<Event>)
    requires Inv(a) && a.depth == 1 && a.pending == [] && a.pended == 0
    requires Possible(a, isrs) && AllFromIsr(isrs)
    ensures Shape(Released(a)) && Members(Released(a)) && WakesPossible(Released(a), isrs)
    ensures var x := Run(a, isrs);
            && Inv(x) && x.pended == TicksIn(isrs)
            && Core(Drained(x)) == WakeNow(Released(a), isrs)
  {
    hide WakeNow, Step, Run, WakesPossible, OneHome, ReadyLists, RunsHighest, Ahead, Possible, AllFromIsr;
    assert Drained(a) == a.(depth := 0);
    DrainCatchesUp(a, isrs, Released(a));
  }

  /** Deferral: whatever the task that suspended the scheduler and the interrupts do in such a
      window, in whatever order, the outermost xTaskResumeAll empties the pending ready list,
      advances the tick count by exactly the ticks that came, and reaches the state in which the
      task's own steps happened first, then the wakeups by interrupts, in order and with the
      scheduler running, and then those ticks one by one. */
  lemma ResumeAllCatchesUp(s: Sched, evs: seq<Event>, lists: set<nat>)
    requires Inv(s) && s.depth == 1 && s.pending == [] && s.pended == 0
    requires Possible(s, evs) && Window(s, evs, lists) && Run(s, evs).depth == 1
    ensures Possible(s, OwnPart(evs))
    ensures var r, b := Run(s, evs), Released(Run(s, OwnPart(evs)));
            && Inv(r) && Shape(b) && Members(b) && b.pending == [] && WakesPossible(b, IsrPart(evs))
            && ResumeAll(r).pending == [] && ResumeAll(r).pended == 0
            && ResumeAll(r).now == s.now + TicksIn(evs)
            && Core(ResumeAll(r)) == Core(UnwindTicks(WakeNow(b, IsrPart(evs)), TicksIn(evs)))
  {
    hide WakeNow, UnwindTicks, ResumeAll, Step, Run, WakesPossible, OneHome, ReadyLists, RunsHighest, Ahead;
    hide Possible, AllFromIsr, Window, IsrPart, OwnPart, DrainPending, NothingDeferred, TicksIn;
    WindowSplits(s, evs, lists);
    var r, a := Run(s, evs), Run(s, OwnPart(evs));
    IsrsCatchUp(a, IsrPart(evs));
    var x := Run(a, IsrPart(evs));
    DrainCore(r.(depth := 0), x.(depth := 0));
    TicksAreIsr(evs);
    ResumeAllAdvances(r);
    ResumeAllUnwinds(r, WakeNow(Released(a), IsrPart(evs)));
  }

  lemma {:induction false} TicksAreIsr(evs: seq<Event>)
    ensures TicksIn(IsrPart(evs)) == TicksIn(evs)
    decreases evs
  {
    if evs != [] {
      TicksAreIsr(evs[1..]);
      if FromIsr(evs[0]) {
        assert IsrPart(evs)[0] == evs[0] && IsrPart(evs)[1..] == IsrPart(evs[1..]);
      } else {
        assert IsrPart(evs) == IsrPart(evs[1..]);
      }
    }
  }

  lemma ResumeAllUnwinds(r: Sched, w: Sched)
    requires Inv(r) && r.depth == 1
    requires Shape(w) && Members(w) && Core(Drained(r)) == Core(w)
    ensures Core(ResumeAll(r)) == Core(UnwindTicks(w, r.pended))
  {
    hide DrainPending, UnwindTicks;
    UnwindCore(Drained(r), w, r.pended);
  }

  lemma InsideKeepsNow(s: Sched, ev: Event, lists: set<nat>)
    requires Inv(s) && Enabled(s, ev) && Inside(s, ev, lists)
    ensures Step(s, ev).now == s.now
  {
    hide OneHome, ReadyLists, RunsHighest, Ahead, Insert, DrainPending, UnwindTicks;
  }

  lemma {:induction false} NoTimePasses(s: Sched, evs: seq<Event>, lists: set<nat>)
    requires Inv(s) && Possible(s, evs) && Window(s, evs, lists)
    ensures Run(s, evs).now == s.now
    decreases evs
  {
    hide Step, Enabled, Inside;
    if evs != [] {
      StepKeepsInv(s, evs[0]);
      InsideKeepsNow(s, evs[0], lists);
      NoTimePasses(Step(s, evs[0]), evs[1..], lists);
    }
  }
}
