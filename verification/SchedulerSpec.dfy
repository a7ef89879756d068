/** The scheduler of FreeRTOS/tasks.c on an unbounded clock.

    One sorted list of sleeping tasks stands for the two delayed lists and their cached next
    unblock time; class Kernel in module KernelLists has the lists as the code has them.  A
    critical section is one step, and `switchRequested` is the pending context switch interrupt
    that portYIELD raises. */
module SchedulerSpec {
  import opened Ticks
  import opened ListSpec
  import opened DelayLists

  type Task = nat

  /** configMAX_PRIORITIES. */
  const MAX_PRIORITIES: nat := 5
  /** The idle task: always ready, at tskIDLE_PRIORITY. */
  const IDLE: Task := 0

  datatype NotifyState = NotWaiting | Waiting | Received

  datatype Sched = Sched(
    prio: seq<nat>,                  // uxPriority, fixed in the runs considered here
    now: nat,                        // ticks processed
    sleeping: seq<Entry<Task>>,      // blocked with a timeout, by true wake time
    suspended: seq<Task>,            // xSuspendedTaskList
    ready: seq<Ring<Task>>,          // pxReadyTasksLists
    events: seq<seq<Entry<Task>>>,   // the event lists of all kernel objects
    pending: seq<Task>,              // xPendingReadyList
    notify: seq<NotifyState>,        // ucNotifyState
    pended: nat,                     // uxPendedTicks
    depth: nat,                      // uxSchedulerSuspended
    top: nat,                        // uxTopReadyPriority
    current: Task,                   // pxCurrentTCB
    yieldPending: bool,              // xYieldPending
    switchRequested: bool,           // a context switch interrupt is pending
    selfBlocked: bool)               // the running task has blocked itself and is about to yield

  function DropTask(s: seq<Task>, t: Task): (r: seq<Task>)
    decreases s
  {
    if s == [] then [] else if s[0] == t then DropTask(s[1..], t) else [s[0]] + DropTask(s[1..], t)
  }

  function IndexOf(s: seq<Task>, t: Task): (k: nat)
    requires t in s
    ensures k < |s| && s[k] == t
    decreases s
  {
    if s[0] == t then 0 else 1 + IndexOf(s[1..], t)
  }

  /** uxListRemove of a state list item, if it is in this ready list. */
  function DropReady(r: Ring<Task>, t: Task): (q: Ring<Task>)
    requires WellFormed(r)
    ensures WellFormed(q)
  {
    if t in r.items then RemoveItem(r, IndexOf(r.items, t)) else r
  }

  function DropEvent(events: seq<seq<Entry<Task>>>, t: Task): (r: seq<seq<Entry<Task>>>)
    ensures |r| == |events|
    ensures forall i :: 0 <= i < |r| ==> r[i] == Without(events[i], t)
  {
    seq(|events|, i requires 0 <= i < |events| => Without(events[i], t))
  }

  /** Sizes agree and every number is in range. */
  ghost predicate Shape(s: Sched) {
    && |s.ready| == MAX_PRIORITIES
    && |s.prio| == |s.notify| && IDLE < |s.prio| && s.current < |s.prio|
    && (forall t :: 0 <= t < |s.prio| ==> s.prio[t] < MAX_PRIORITIES)
    && s.prio[IDLE] == 0
    && s.top < MAX_PRIORITIES
    && (forall p :: 0 <= p < MAX_PRIORITIES ==> WellFormed(s.ready[p]))
  }

  ghost predicate Known(s: Sched, t: Task) {
    t < |s.prio| && t != IDLE
  }

  /** Every list holds tasks of this system, and none but ready lists hold the idle task. */
  ghost predicate Members(s: Sched) {
    && (forall x :: x in s.sleeping ==> Known(s, x.owner))
    && (forall t :: t in s.suspended ==> Known(s, t))
    && (forall t :: t in s.pending ==> Known(s, t))
    && (forall e, x :: 0 <= e < |s.events| && x in s.events[e] ==> Known(s, x.owner))
  }

  /** uxListRemove( &( pxTCB->xStateListItem ) ), whichever list that item is in. */
  function UnlinkState(s: Sched, t: Task): (r: Sched)
    requires Shape(s) && t < |s.prio|
    ensures Shape(r)
    ensures r == s.(sleeping := r.sleeping, suspended := r.suspended, ready := r.ready)
  {
    var p := s.prio[t];
    s.(sleeping := Without(s.sleeping, t),
       suspended := DropTask(s.suspended, t),
       ready := s.ready[p := DropReady(s.ready[p], t)])
  }

  /** prvAddTaskToReadyList. */
  function AddReady(s: Sched, t: Task): (r: Sched)
    requires Shape(s) && t < |s.prio|
    ensures Shape(r)
    ensures r == s.(ready := r.ready, top := r.top)
  {
    var p := s.prio[t];
    s.(ready := s.ready[p := InsertEnd(s.ready[p], t)],
       top := if p > s.top then p else s.top)
  }

  function MakeReady(s: Sched, t: Task): (r: Sched)
    requires Shape(s) && t < |s.prio|
    ensures Shape(r)
    ensures r == s.(sleeping := r.sleeping, suspended := r.suspended, ready := r.ready, top := r.top)
  {
    AddReady(UnlinkState(s, t), t)
  }

  /** One round of the loop of xTaskIncrementTick: the first sleeping task becomes ready. */
  function WakeHead(s: Sched): (r: Sched)
    requires Shape(s) && s.sleeping != [] && s.sleeping[0].owner < |s.prio|
    ensures Shape(r)
  {
    var t := s.sleeping[0].owner;
    AddReady(s.(sleeping := s.sleeping[1..], events := DropEvent(s.events, t)), t)
  }

  /** The loop of xTaskIncrementTick: every task whose time has come, in list order; the flag
      says whether one of them is at least as urgent as the running task. */
  function WakeDue(s: Sched, urgent: bool): (r: (Sched, bool))
    requires Shape(s) && Members(s)
    ensures Shape(r.0) && Members(r.0)
    decreases |s.sleeping|
  {
    if s.sleeping != [] && s.sleeping[0].value <= s.now then
      assert s.sleeping[0] in s.sleeping;
      DropEventMembers(s, s.sleeping[0].owner);
      WakeDue(WakeHead(s), urgent || s.prio[s.sleeping[0].owner] >= s.prio[s.current])
    else (s, urgent)
  }

  lemma DropEventMembers(s: Sched, t: Task)
    requires Members(s)
    ensures forall e, x :: 0 <= e < |s.events| && x in DropEvent(s.events, t)[e] ==> x in s.events[e]
  {
    forall e, x | 0 <= e < |s.events| && x in DropEvent(s.events, t)[e]
      ensures x in s.events[e]
    {
      WithoutKeeps(s.events[e], t, x);
    }
  }

  /** xTaskIncrementTick with the scheduler running; the flag is its return value. */
  function TickOne(s: Sched): (r: (Sched, bool))
    requires Shape(s) && Members(s)
    ensures Shape(r.0) && Members(r.0)
  {
    var w := WakeDue(s.(now := s.now + 1), false);
    (w.0, w.1 || |w.0.ready[w.0.prio[w.0.current]].items| > 1 || s.yieldPending)
  }

  /** The tick interrupt; the port requests a switch when xTaskIncrementTick says so. */
  function TickIsr(s: Sched): (r: Sched)
    requires Shape(s) && Members(s)
    ensures Shape(r) && Members(r)
  {
    if s.depth > 0 then
      s.(pended := s.pended + 1, switchRequested := s.switchRequested || s.yieldPending)
    else
      var (t, ret) := TickOne(s);
      t.(switchRequested := s.switchRequested || ret)
  }

  lemma {:induction false} DropTaskKeeps(s: seq<Task>, t: Task, x: Task)
    ensures x in DropTask(s, t) <==> x in s && x != t
    decreases s
  {
    if s != [] {
      DropTaskKeeps(s[1..], t, x);
      assert x in s <==> x == s[0] || x in s[1..];
    }
  }

  lemma MakeReadyMembers(s: Sched, t: Task)
    requires Shape(s) && Members(s) && t < |s.prio|
    ensures Members(MakeReady(s, t))
  {
    forall x | x in MakeReady(s, t).sleeping
      ensures x in s.sleeping
    {
      WithoutKeeps(s.sleeping, t, x);
    }
    forall x | x in MakeReady(s, t).suspended
      ensures x in s.suspended
    {
      DropTaskKeeps(s.suspended, t, x);
    }
  }

  /** One round of the first loop of xTaskResumeAll. */
  function DrainOne(s: Sched): (r: Sched)
    requires Shape(s) && Members(s) && s.pending != []
    ensures Shape(r) && Members(r) && r.pending == s.pending[1..]
  {
    var t := s.pending[0];
    assert t in s.pending;
    MakeReadyMembers(s, t);
    var a := MakeReady(s, t);
    assert forall x :: x in s.pending[1..] ==> x in a.pending;
    a.(pending := s.pending[1..], yieldPending := s.yieldPending || s.prio[t] >= s.prio[s.current])
  }

  /** The first loop of xTaskResumeAll. */
  function DrainPending(s: Sched): (r: Sched)
    requires Shape(s) && Members(s)
    ensures Shape(r) && Members(r) && r.pending == []
    decreases |s.pending|
  {
    if s.pending == [] then s else DrainPending(DrainOne(s))
  }

  /** One round of the second loop of xTaskResumeAll. */
  function UnwindOne(s: Sched): (r: Sched)
    requires Shape(s) && Members(s)
    ensures Shape(r) && Members(r)
  {
    var (t, ret) := TickOne(s);
    t.(yieldPending := t.yieldPending || ret)
  }

  /** The second loop of xTaskResumeAll: n pended ticks. */
  function UnwindTicks(s: Sched, n: nat): (r: Sched)
    requires Shape(s) && Members(s)
    ensures Shape(r) && Members(r)
    decreases n
  {
    if n == 0 then s else UnwindTicks(UnwindOne(s), n - 1)
  }

  /** xTaskResumeAll. */
  function ResumeAll(s: Sched): (r: Sched)
    requires Shape(s) && Members(s) && s.depth > 0
    ensures Shape(r) && Members(r)
  {
    var a := s.(depth := s.depth - 1);
    if a.depth > 0 then a
    else
      var b := UnwindTicks(DrainPending(a), s.pended);
      b.(pended := 0, switchRequested := b.switchRequested || b.yieldPending)
  }

  /** The scan of taskSELECT_HIGHEST_PRIORITY_TASK. */
  function HighestReady(ready: seq<Ring<Task>>, top: nat): (p: nat)
    requires top < |ready| && ready[0].items != []
    ensures p <= top && ready[p].items != []
    ensures forall q :: p < q <= top ==> ready[q].items == []
    decreases top
  {
    if ready[top].items != [] then top else HighestReady(ready, top - 1)
  }

  /** vTaskSwitchContext, run by the context switch interrupt. */
  function SwitchContext(s: Sched): (r: Sched)
    requires Shape(s) && s.ready[0].items != []
    requires forall t :: t in s.ready[HighestReady(s.ready, s.top)].items ==> t < |s.prio|
    ensures Shape(r) && r.now == s.now && r.prio == s.prio
  {
    if s.depth > 0 then s.(yieldPending := true, switchRequested := false)
    else
      var p := HighestReady(s.ready, s.top);
      var list := Advance(s.ready[p]);
      assert Selected(list) in s.ready[p].items;
      s.(yieldPending := false, switchRequested := false, selfBlocked := false,
         top := p, ready := s.ready[p := list], current := Selected(list))
  }

  /** prvAddCurrentTaskToDelayedList. */
  function BlockCurrent(s: Sched, ticks: Tick, forever: bool): (r: Sched)
    requires Shape(s)
    ensures Shape(r)
    ensures r == s.(sleeping := r.sleeping, suspended := r.suspended, ready := r.ready, selfBlocked := true)
  {
    var a := UnlinkState(s, s.current);
    if ticks == MAX_DELAY && forever then a.(suspended := a.suspended + [s.current], selfBlocked := true)
    else a.(sleeping := Insert(a.sleeping, Entry(s.current, s.now + ticks)), selfBlocked := true)
  }

  /** vTaskPlaceOnEventList: in priority order on the event list, and blocked. */
  function PlaceOnEventList(s: Sched, e: nat, ticks: Tick): (r: Sched)
    requires Shape(s) && e < |s.events|
    ensures Shape(r) && r.now == s.now && r.prio == s.prio
  {
    var item := Entry(s.current, MAX_PRIORITIES - s.prio[s.current]);
    BlockCurrent(s.(events := s.events[e := Insert(s.events[e], item)]), ticks, true)
  }

  /** xTaskRemoveFromEventList. */
  function EventWake(s: Sched, e: nat): (r: Sched)
    requires Shape(s) && e < |s.events| && s.events[e] != [] && s.events[e][0].owner < |s.prio|
    ensures Shape(r) && r.now == s.now && r.prio == s.prio
  {
    var t := s.events[e][0].owner;
    var a := s.(events := s.events[e := s.events[e][1..]]);
    var b := if s.depth == 0 then MakeReady(a, t) else a.(pending := a.pending + [t]);
    b.(yieldPending := s.yieldPending || s.prio[t] > s.prio[s.current])
  }

  /** vTaskRemoveFromUnorderedEventList, called by event groups with the scheduler suspended. */
  function UnorderedWake(s: Sched, e: nat, k: nat): (r: Sched)
    requires Shape(s) && e < |s.events| && k < |s.events[e]| && s.events[e][k].owner < |s.prio|
    ensures Shape(r) && r.now == s.now && r.prio == s.prio
  {
    var t := s.events[e][k].owner;
    MakeReady(s.(events := s.events[e := RemoveAt(s.events[e], k)]), t)
      .(yieldPending := s.yieldPending || s.prio[t] > s.prio[s.current])
  }

  /** xTaskGenericNotify, called by a task. */
  function Notify(s: Sched, t: Task): (r: Sched)
    requires Shape(s) && t < |s.prio|
    ensures Shape(r) && r.now == s.now && r.prio == s.prio
  {
    var a := s.(notify := s.notify[t := Received]);
    if s.notify[t] != Waiting then a
    else MakeReady(a, t).(switchRequested := s.switchRequested || s.prio[t] > s.prio[s.current])
  }

  /** xTaskGenericNotifyFromISR; with a flag argument the interrupt requests the switch itself. */
  function NotifyFromIsr(s: Sched, t: Task, flag: bool): (r: Sched)
    requires Shape(s) && t < |s.prio|
    ensures Shape(r) && r.now == s.now && r.prio == s.prio
  {
    var a := s.(notify := s.notify[t := Received]);
    if s.notify[t] != Waiting then a
    else
      var b := if s.depth == 0 then MakeReady(a, t) else a.(pending := a.pending + [t]);
      var urgent := s.prio[t] > s.prio[s.current];
      b.(switchRequested := s.switchRequested || (urgent && flag),
         yieldPending := s.yieldPending || (urgent && !flag))
  }

  /** The first critical section of xTaskNotifyWait. */
  function NotifyWait(s: Sched, ticks: Tick): (r: Sched)
    requires Shape(s)
    ensures Shape(r) && r.now == s.now && r.prio == s.prio
  {
    if s.notify[s.current] == Received then s
    else
      var a := s.(notify := s.notify[s.current := Waiting]);
      if ticks == 0 then a else BlockCurrent(a, ticks, true).(switchRequested := true)
  }

  /** The second critical section of xTaskNotifyWait. */
  function NotifyFinish(s: Sched): (r: Sched)
    requires Shape(s)
    ensures Shape(r) && r.now == s.now && r.prio == s.prio
  {
    s.(notify := s.notify[s.current := NotWaiting])
  }

  /** vTaskSuspend. */
  function Suspend(s: Sched, t: Task): (r: Sched)
    requires Shape(s) && t < |s.prio|
    ensures Shape(r) && r.now == s.now && r.prio == s.prio
  {
    var a := UnlinkState(s, t);
    a.(events := DropEvent(s.events, t), pending := DropTask(s.pending, t),
       suspended := a.suspended + [t],
       notify := if s.notify[t] == Waiting then s.notify[t := NotWaiting] else s.notify,
       selfBlocked := s.selfBlocked || t == s.current)
  }

  /** vTaskResume. */
  function Resume(s: Sched, t: Task): (r: Sched)
    requires Shape(s) && t < |s.prio|
    ensures Shape(r) && r.now == s.now && r.prio == s.prio
  {
    if t != s.current && t in s.suspended && t !in s.pending
       && (forall e :: 0 <= e < |s.events| ==> t !in Owners(s.events[e]))
    then MakeReady(s, t).(switchRequested := s.switchRequested || s.prio[t] >= s.prio[s.current])
    else s
  }

  datatype Event =
    | Tick_
    | SuspendAll_
    | ResumeAll_
    | Switch_
    | Yield_
    | Delay_(ticks: Tick)
    | WaitOn_(e: nat, ticks: Tick)
    | EventWake_(e: nat)
    | UnorderedWake_(e: nat, k: nat)
    | Notify_(t: Task)
    | NotifyFromIsr_(t: Task, flag: bool)
    | NotifyWait_(ticks: Tick)
    | NotifyFinish_
    | Suspend_(t: Task)
    | Resume_(t: Task)

  /** The current task is really running: no switch away from it is due, and it has not blocked. */
  ghost predicate Running(s: Sched)
    requires Shape(s)
  {
    s.current in s.ready[s.prio[s.current]].items && !s.selfBlocked
  }

  /** When a step can happen.  A task-level call that blocks needs a running task other than the
      idle task; the other conditions are the code's own assertions. */
  ghost predicate Enabled(s: Sched, ev: Event)
    requires Shape(s)
  {
    match ev
    case Tick_ => true
    case SuspendAll_ => true
    case ResumeAll_ => s.depth > 0
    case Switch_ => s.switchRequested
    case Yield_ => true
    case Delay_(ticks) => Running(s) && s.current != IDLE && ticks > 0
    case WaitOn_(e, ticks) => Running(s) && s.current != IDLE && ticks > 0 && e < |s.events|
    case EventWake_(e) => e < |s.events| && s.events[e] != []
    case UnorderedWake_(e, k) => s.depth > 0 && e < |s.events| && k < |s.events[e]|
    case Notify_(t) => Known(s, t)
    case NotifyFromIsr_(t, _) => Known(s, t)
    case NotifyWait_(_) => Running(s) && s.current != IDLE
    case NotifyFinish_ => Running(s) && s.current != IDLE
    case Suspend_(t) => Known(s, t) && (t == s.current ==> Running(s) && s.depth == 0)
    case Resume_(t) => Known(s, t)
  }

  /** Every task has exactly one home among the state lists. */
  function Count(s: seq<Task>, t: Task): (n: nat)
    decreases s
  {
    if s == [] then 0 else (if s[0] == t then 1 else 0) + Count(s[1..], t)
  }

  function Homes(s: Sched, t: Task): (n: nat)
    requires Shape(s) && t < |s.prio|
  {
    Count(s.ready[s.prio[t]].items, t) + Count(Owners(s.sleeping), t) + Count(s.suspended, t)
  }

  ghost predicate OneHome(s: Sched)
    requires Shape(s)
  {
    forall t :: 0 <= t < |s.prio| ==> Homes(s, t) == 1
  }

  ghost predicate OnlyAt(prio: seq<nat>, items: seq<Task>, p: nat) {
    forall t :: t in items ==> t < |prio| && prio[t] == p
  }

  /** Ready list p holds tasks of priority p only, nothing lies above uxTopReadyPriority, and the
      idle task is there. */
  ghost predicate ReadyLists(s: Sched)
    requires Shape(s)
  {
    && (forall p :: 0 <= p < MAX_PRIORITIES ==> OnlyAt(s.prio, s.ready[p].items, p))
    && (forall p :: s.top < p < MAX_PRIORITIES ==> s.ready[p].items == [])
    && IDLE in s.ready[0].items
  }

  /** Sleeping tasks are in order of their wake times, which lie ahead, by less than one wrap. */
  ghost predicate Ahead(s: Sched) {
    && Sorted(s.sleeping)
    && (forall x :: x in s.sleeping ==> s.now < x.value < s.now + TICKS)
  }

  ghost predicate NothingDeferred(s: Sched) {
    s.depth == 0 ==> s.pending == [] && s.pended == 0
  }

  ghost predicate SwitchOutstanding(s: Sched) {
    s.yieldPending || s.switchRequested || s.selfBlocked
  }

  /** With no switch outstanding the running task is ready, and nothing ready is above it. */
  ghost predicate RunsHighest(s: Sched)
    requires Shape(s)
  {
    !SwitchOutstanding(s) ==>
      && s.current in s.ready[s.prio[s.current]].items
      && forall p :: s.prio[s.current] < p < MAX_PRIORITIES ==> s.ready[p].items == []
  }

  ghost predicate Inv(s: Sched) {
    && Shape(s) && Members(s)
    && ReadyLists(s) && OneHome(s) && Ahead(s) && NothingDeferred(s) && RunsHighest(s)
  }
}
