/** Mutexes with single-level priority inheritance (FreeRTOS/tasks.c and FreeRTOS/queue.c), as
    steps of tasks that take, block on, time out on and give several mutexes. */
module MutexProtocol {
  import opened Common

  type TaskId = nat
  type MutexId = nat

  datatype Status = Ready | Sleeping | WaitingOn(m: MutexId)

  /** Where a task is in a take or a recursive give. */
  datatype Pc =
    | Free
    | AtTop(m: MutexId)           // the critical section at the top of xQueueSemaphoreTake
    | Deciding(m: MutexId)        // found it taken; next, with the scheduler suspended, block or give up
    | TimedOut(m: MutexId)        // about to look whether the mutex is still taken
    | Disinheriting(m: MutexId)   // gives up after inheritance: about to take back the priority
    | Counting(m: MutexId)        // has a recursive mutex, about to count the call
    | Giving(m: MutexId)          // call count unwound, about to give the recursive mutex

  datatype Task = Task(
    base: nat,              // uxBasePriority
    prio: nat,              // uxPriority
    held: nat,              // uxMutexesHeld
    status: Status,
    pc: Pc,
    inherited: bool,        // xInheritanceOccurred
    ticks: bool)            // xTicksToWait is not 0

  datatype Mutex = Mutex(
    recursive: bool,
    count: nat,             // uxMessagesWaiting
    holder: Option<TaskId>, // pxMutexHolder
    calls: nat,             // uxRecursiveCallCount
    waiters: seq<TaskId>,   // xTasksWaitingToReceive
    woken: set<TaskId>)     // taken off the list by a give and not back at the top yet

  datatype Sys = Sys(tasks: seq<Task>, mutexes: seq<Mutex>)

  /** Decide is the check of the timeout with the scheduler suspended: whether it has expired and,
      if so, whether xTicksToWait is left above 0, which it is only after a whole wrap. */
  datatype Event =
    | Begin(t: TaskId, m: MutexId, wait: bool)
    | Top(t: TaskId)
    | Decide(t: TaskId, expired: bool, left: bool)
    | Look(t: TaskId)
    | Disinherit(t: TaskId)
    | Count(t: TaskId)
    | TakeAgain(t: TaskId, m: MutexId)
    | GiveCall(t: TaskId, m: MutexId)
    | Give(t: TaskId, m: MutexId)
    | Expire(t: TaskId)
    | Sleep(t: TaskId)
    | Wake(t: TaskId)

  predicate InRange(w: seq<TaskId>, n: nat) {
    forall i :: 0 <= i < |w| ==> w[i] < n
  }

  // ---------- the code's functions ----------

  /** xTaskPriorityInherit: the holder's new priority, and whether inheritance occurred. */
  function Inherit(holder: Task, caller: nat): (r: (Task, bool)) {
    if holder.prio < caller then (holder.(prio := caller), true)
    else (holder, holder.base < caller)
  }

  /** xTaskPriorityDisinherit, called when the holder gives a mutex. */
  function Disinherited(holder: Task): (r: Task)
    requires holder.held > 0
  {
    var a := holder.(held := holder.held - 1);
    if a.prio != a.base && a.held == 0 then a.(prio := a.base) else a
  }

  /** vTaskPriorityDisinheritAfterTimeout. */
  function AfterTimeout(holder: Task, highest: nat): (r: Task) {
    var use := if holder.base < highest then highest else holder.base;
    if holder.prio != use && holder.held == 1 then holder.(prio := use) else holder
  }

  /** prvGetDisinheritPriorityAfterTimeout. */
  function HighestWaiting(s: Sys, m: MutexId): (p: nat)
    requires m < |s.mutexes| && InRange(s.mutexes[m].waiters, |s.tasks|)
  {
    var w := s.mutexes[m].waiters;
    if w == [] then 0 else s.tasks[w[0]].prio
  }

  /** vListInsert by priority, behind waiters of the same priority. */
  function InsertWaiter(tasks: seq<Task>, w: seq<TaskId>, t: TaskId): (r: seq<TaskId>)
    requires t < |tasks| && InRange(w, |tasks|)
    decreases w
  {
    if w == [] || tasks[w[0]].prio < tasks[t].prio then [t] + w
    else [w[0]] + InsertWaiter(tasks, w[1..], t)
  }

  function DropWaiter(w: seq<TaskId>, t: TaskId): (r: seq<TaskId>)
    decreases w
  {
    if w == [] then [] else if w[0] == t then w[1..] else [w[0]] + DropWaiter(w[1..], t)
  }

  // ---------- steps ----------

  function WithTask(s: Sys, t: TaskId, x: Task): (r: Sys)
    requires t < |s.tasks|
  {
    s.(tasks := s.tasks[t := x])
  }

  function WithMutex(s: Sys, m: MutexId, x: Mutex): (r: Sys)
    requires m < |s.mutexes|
  {
    s.(mutexes := s.mutexes[m := x])
  }

  function Goto(s: Sys, t: TaskId, pc: Pc): (r: Sys)
    requires t < |s.tasks|
  {
    WithTask(s, t, s.tasks[t].(pc := pc))
  }

  /** The task is back at the top and no longer counts as woken. */
  function Recheck(s: Sys, t: TaskId, m: MutexId): (r: Sys)
    requires m < |s.mutexes|
  {
    WithMutex(s, m, s.mutexes[m].(woken := s.mutexes[m].woken - {t}))
  }

  /** The successful critical section of xQueueSemaphoreTake on a mutex. */
  function Take(s: Sys, t: TaskId, m: MutexId): (r: Sys)
    requires t < |s.tasks| && m < |s.mutexes|
  {
    var x := s.mutexes[m];
    WithTask(WithMutex(s, m, x.(count := 0, holder := Some(t), woken := x.woken - {t})),
             t, s.tasks[t].(held := s.tasks[t].held + 1, pc := if x.recursive then Counting(m) else Free))
  }

  /** Inherit and block: what a task does on a taken mutex with the scheduler suspended. */
  function Block(s: Sys, t: TaskId, m: MutexId): (r: Sys)
    requires Sane(s) && t < |s.tasks| && m < |s.mutexes|
    requires s.mutexes[m].holder.Some? && s.mutexes[m].holder.value != t
  {
    var h := s.mutexes[m].holder.value;
    var (x, inherited) := Inherit(s.tasks[h], s.tasks[t].prio);
    var a := WithTask(s, h, x);
    var b := WithMutex(a, m, a.mutexes[m].(waiters := InsertWaiter(s.tasks, s.mutexes[m].waiters, t)));
    WithTask(b, t, b.tasks[t].(status := WaitingOn(m), pc := AtTop(m), inherited := inherited))
  }

  /** xQueueGenericSend on a mutex: disinherit, free it, wake the first waiter. */
  function GiveBack(s: Sys, t: TaskId, m: MutexId): (r: Sys)
    requires Sane(s) && t < |s.tasks| && m < |s.mutexes| && s.tasks[t].held > 0
  {
    var a := WithTask(s, t, Disinherited(s.tasks[t]).(pc := Free));
    var x := s.mutexes[m].(count := 1, holder := None);
    if x.waiters == [] then WithMutex(a, m, x)
    else
      var w := x.waiters[0];
      var b := WithMutex(a, m, x.(waiters := x.waiters[1..], woken := x.woken + {w}));
      WithTask(b, w, b.tasks[w].(status := Ready))
  }

  /** Task numbers are in range. */
  predicate Sane(s: Sys) {
    forall m :: 0 <= m < |s.mutexes| ==>
      && (s.mutexes[m].holder.Some? ==> s.mutexes[m].holder.value < |s.tasks|)
      && InRange(s.mutexes[m].waiters, |s.tasks|)
  }

  predicate Holds(s: Sys, t: TaskId, m: MutexId) {
    m < |s.mutexes| && s.mutexes[m].holder == Some(t)
  }

  /** When a step can happen.  Waiters hold no mutex themselves, which is what the code's
      single-level inheritance is for, and only holders give. */
  ghost predicate Enabled(s: Sys, ev: Event) {
    && Sane(s)
    && (ev.t < |s.tasks|)
    && match ev
       case Begin(t, m, _) => s.tasks[t].status.Ready? && s.tasks[t].pc.Free? && m < |s.mutexes| && !Holds(s, t, m)
       case Top(t) => s.tasks[t].status.Ready? && s.tasks[t].pc.AtTop? && s.tasks[t].pc.m < |s.mutexes|
       case Decide(t, expired, _) =>
         && s.tasks[t].status.Ready? && s.tasks[t].pc.Deciding? && s.tasks[t].pc.m < |s.mutexes|
         && var x := s.mutexes[s.tasks[t].pc.m];
            !expired && x.count == 0 ==> s.tasks[t].held == 0 && x.holder.Some? && x.holder.value != t
       case Look(t) => s.tasks[t].status.Ready? && s.tasks[t].pc.TimedOut? && s.tasks[t].pc.m < |s.mutexes|
       case Disinherit(t) => s.tasks[t].status.Ready? && s.tasks[t].pc.Disinheriting? && s.tasks[t].pc.m < |s.mutexes|
       case Count(t) => s.tasks[t].status.Ready? && s.tasks[t].pc.Counting? && s.tasks[t].pc.m < |s.mutexes|
       case TakeAgain(t, m) => s.tasks[t].status.Ready? && s.tasks[t].pc.Free? && Holds(s, t, m)
           && s.mutexes[m].recursive
       case GiveCall(t, m) => s.tasks[t].status.Ready? && s.tasks[t].pc.Free? && Holds(s, t, m)
                              && s.mutexes[m].recursive && s.mutexes[m].calls > 0
       case Give(t, m) => s.tasks[t].status.Ready? && Holds(s, t, m) && s.tasks[t].held > 0
                          && s.tasks[t].pc == if s.mutexes[m].recursive then Giving(m) else Free
       case Expire(t) => s.tasks[t].status.WaitingOn? && s.tasks[t].status.m < |s.mutexes|
       case Sleep(t) => s.tasks[t].status.Ready? && s.tasks[t].pc.Free?
       case Wake(t) => s.tasks[t].status.Sleeping?
  }

  function Step(s: Sys, ev: Event): (r: Sys)
    requires Enabled(s, ev)
  {
    match ev
    case Begin(t, m, wait) => WithTask(s, t, s.tasks[t].(pc := AtTop(m), inherited := false, ticks := wait))
    case Top(t) =>
      var m := s.tasks[t].pc.m;
      if s.mutexes[m].count > 0 then Take(s, t, m)
      else Goto(Recheck(s, t, m), t, if s.tasks[t].ticks then Deciding(m) else Free)
    case Decide(t, expired, left) =>
      var m := s.tasks[t].pc.m;
      if expired then WithTask(s, t, s.tasks[t].(pc := TimedOut(m), ticks := left))
      else if s.mutexes[m].count > 0 then Goto(s, t, AtTop(m))
      else Block(s, t, m)
    case Look(t) =>
      var m := s.tasks[t].pc.m;
      Goto(s, t, if s.mutexes[m].count > 0 then AtTop(m) else if s.tasks[t].inherited then Disinheriting(m) else Free)
    case Disinherit(t) =>
      var m := s.tasks[t].pc.m;
      var a := Goto(s, t, Free);
      if s.mutexes[m].holder.None? then a
      else var h := s.mutexes[m].holder.value; WithTask(a, h, AfterTimeout(a.tasks[h], HighestWaiting(s, m)))
    case Count(t) =>
      var m := s.tasks[t].pc.m;
      Goto(WithMutex(s, m, s.mutexes[m].(calls := s.mutexes[m].calls + 1)), t, Free)
    case TakeAgain(t, m) => WithMutex(s, m, s.mutexes[m].(calls := s.mutexes[m].calls + 1))
    case GiveCall(t, m) =>
      var a := WithMutex(s, m, s.mutexes[m].(calls := s.mutexes[m].calls - 1));
      if s.mutexes[m].calls == 1 then Goto(a, t, Giving(m)) else a
    case Give(t, m) => GiveBack(s, t, m)
    case Expire(t) =>
      var m := s.tasks[t].status.m;
      WithTask(WithMutex(s, m, s.mutexes[m].(waiters := DropWaiter(s.mutexes[m].waiters, t))), t,
          s.tasks[t].(status := Ready))
    case Sleep(t) => WithTask(s, t, s.tasks[t].(status := Sleeping))
    case Wake(t) => WithTask(s, t, s.tasks[t].(status := Ready))
  }

  // ---------- the invariants ----------

  function HeldBy(s: Sys, t: TaskId): (r: set<MutexId>) {
    set m | 0 <= m < |s.mutexes| && s.mutexes[m].holder == Some(t)
  }

  /** Ownership accounting. */
  ghost predicate Accounts(s: Sys) {
    && (forall m :: 0 <= m < |s.mutexes| ==>
          s.mutexes[m].count == if s.mutexes[m].holder.Some? then 0 else 1)
    && (forall t :: 0 <= t < |s.tasks| ==> s.tasks[t].held == |HeldBy(s, t)|)
  }

  /** A priority is never below the base priority, and is the base priority without a mutex. */
  ghost predicate Priorities(s: Sys) {
    forall t :: 0 <= t < |s.tasks| ==>
      && s.tasks[t].base <= s.tasks[t].prio
      && (s.tasks[t].held == 0 ==> s.tasks[t].prio == s.tasks[t].base)
  }

  predicate SortedByBase(tasks: seq<Task>, w: seq<TaskId>) {
    && InRange(w, |tasks|)
    && (forall i, j :: 0 <= i < j < |w| ==> tasks[w[i]].base >= tasks[w[j]].base)
  }

  /** The wait list of mutex m: the tasks that wait on it, each once, highest first. */
  ghost predicate WaitList(s: Sys, m: MutexId, w: seq<TaskId>) {
    && SortedByBase(s.tasks, w)
    && (forall i, j :: 0 <= i < j < |w| ==> w[i] != w[j])
    && (forall t :: 0 <= t < |s.tasks| ==>
          (t in w <==> s.tasks[t].status == WaitingOn(m)))
  }

  ghost predicate OnItsWay(s: Sys, t: TaskId, m: MutexId) {
    t < |s.tasks| && s.tasks[t].held == 0 && s.tasks[t].status == Ready && s.tasks[t].pc == AtTop(m)
  }

  /** A woken task is ready, at the top of its take, and holds nothing. */
  ghost predicate WokenTasks(s: Sys) {
    forall m: nat, t: nat :: m < |s.mutexes| && t in s.mutexes[m].woken ==> OnItsWay(s, t, m)
  }

  ghost predicate WaitLists(s: Sys) {
    forall m :: 0 <= m < |s.mutexes| ==> WaitList(s, m, s.mutexes[m].waiters)
  }

  /** A waiting task holds nothing and will go on at the top of its take. */
  ghost predicate WaitingTasks(s: Sys) {
    forall t :: 0 <= t < |s.tasks| && s.tasks[t].status.WaitingOn? ==>
      && s.tasks[t].held == 0 && s.tasks[t].pc == AtTop(s.tasks[t].status.m)
      && s.tasks[t].status.m < |s.mutexes|
  }

  ghost predicate Pcs(s: Sys) {
    forall t :: 0 <= t < |s.tasks| && s.tasks[t].pc != Free ==> s.tasks[t].pc.m < |s.mutexes|
  }

  ghost predicate Waiting(s: Sys) {
    WaitLists(s) && WaitingTasks(s) && WokenTasks(s) && Pcs(s)
  }

  /** Single-level inheritance: a holder is at least as urgent as every task blocked on what it
      holds. */
  ghost predicate Inherited(s: Sys) {
    forall m, w :: 0 <= m < |s.mutexes| && s.mutexes[m].holder.Some? && w in s.mutexes[m].waiters ==>
      s.mutexes[m].holder.value < |s.tasks| && w < |s.tasks|
      && s.tasks[w].prio <= s.tasks[s.mutexes[m].holder.value].prio
  }

  /** A free mutex with waiters left has a woken task on its way that is at least as urgent. */
  ghost predicate Successor(s: Sys) {
    forall m :: 0 <= m < |s.mutexes| && s.mutexes[m].holder.None? && s.mutexes[m].waiters != [] ==>
      exists k :: k in s.mutexes[m].woken && AboveAll(s, k, s.mutexes[m].waiters)
  }

  ghost predicate AboveAll(s: Sys, k: TaskId, w: seq<TaskId>) {
    k < |s.tasks| && forall x :: x in w ==> x < |s.tasks| && s.tasks[x].prio <= s.tasks[k].prio
  }

  /** A recursive mutex between calls: its call count is positive exactly while it is held. */
  ghost predicate Calls(s: Sys) {
    forall m :: 0 <= m < |s.mutexes| && s.mutexes[m].recursive ==>
      match s.mutexes[m].holder
      case None => s.mutexes[m].calls == 0
      case Some(t) =>
        t < |s.tasks| && (s.mutexes[m].calls == 0 <==> s.tasks[t].pc == Counting(m) || s.tasks[t].pc == Giving(m))
  }

  /** Only the holder of a recursive mutex is counting or giving it. */
  ghost predicate Counters(s: Sys) {
    forall t :: 0 <= t < |s.tasks| && (s.tasks[t].pc.Counting? || s.tasks[t].pc.Giving?) ==>
      Holds(s, t, s.tasks[t].pc.m) && s.mutexes[s.tasks[t].pc.m].recursive && s.tasks[t].status == Ready
  }

  /** What holds however the ready tasks are scheduled. */
  ghost predicate Core(s: Sys) {
    Sane(s) && Accounts(s) && Priorities(s) && Waiting(s) && Calls(s) && Counters(s)
  }

  /** What holds as well when scheduling is by strict priority. */
  ghost predicate Inv(s: Sys) {
    Core(s) && Inherited(s) && Successor(s)
  }

  /** Nothing ready is more urgent than t. */
  ghost predicate Highest(s: Sys, t: TaskId) {
    t < |s.tasks| && forall u :: 0 <= u < |s.tasks| && s.tasks[u].status.Ready? ==> s.tasks[u].prio <= s.tasks[t].prio
  }

  /** Strict-priority scheduling, as far as it matters: a task that is about to take a free mutex
      is the most urgent ready task. */
  ghost predicate Strict(s: Sys, ev: Event) {
    ev.Top? ==> Highest(s, ev.t)
  }
}
