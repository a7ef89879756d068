/** Two runs in which a promise about mutexes is not kept, from creation on, and exactly when the
    second one is. */
module MutexScenarios {
  import opened Common
  import opened MutexProtocol
  import opened MutexRuns
  import opened MutexExact
  import opened MutexTheorems

  /** State b is reached from a by a run of a strict-priority schedule. */
  ghost predicate Reaches(a: Sys, b: Sys) {
    exists states: seq<Sys>, evs: seq<Event> :: StrictRun(states, evs) && states[0] == a && states[|evs|] == b
  }

  lemma ReachesItself(a: Sys)
    ensures Reaches(a, a)
  {
    assert StrictRun([a], []);
  }

  lemma ReachesNext(a: Sys, b: Sys, ev: Event)
    requires Reaches(a, b) && Enabled(b, ev) && Strict(b, ev)
    ensures Reaches(a, Step(b, ev))
  {
    hide Enabled, Step, Strict;
    var states: seq<Sys>, evs: seq<Event> :| StrictRun(states, evs) && states[0] == a && states[|evs|] == b;
    var more, evs' := states + [Step(b, ev)], evs + [ev];
    forall i | 0 <= i < |evs'|
      ensures Enabled(more[i], evs'[i]) && Strict(more[i], evs'[i]) && more[i + 1] == Step(more[i], evs'[i])
    {
      if i < |evs| {
        assert evs'[i] == evs[i];
      }
    }
    assert StrictRun(more, evs');
  }

  lemma ReachesNext2(a: Sys, b: Sys, ev: Event, next: Event)
    requires Reaches(a, b) && Enabled(b, ev) && Strict(b, ev)
    requires Enabled(Step(b, ev), next) && Strict(Step(b, ev), next)
    ensures Reaches(a, Step(Step(b, ev), next))
  {
    hide Reaches, Enabled, Strict, Step;
    ReachesNext(a, b, ev);
    ReachesNext(a, Step(b, ev), next);
  }

  lemma SameMutex(x: Mutex, y: Mutex)
    requires x.recursive == y.recursive && x.count == y.count && x.holder == y.holder && x.calls == y.calls
    requires x.waiters == y.waiters && x.woken == y.woken
    ensures x == y
  {
  }

  lemma SameSys(a: Sys, b: Sys)
    requires a.tasks == b.tasks && |a.mutexes| == |b.mutexes|
    requires forall m :: 0 <= m < |a.mutexes| ==> a.mutexes[m] == b.mutexes[m]
    ensures a == b
  {
    assert a.mutexes == b.mutexes;
  }

  // ---------- a late give ----------

  function Asleep(base: nat): (x: Task) {
    Task(base, base, 0, Sleeping, Free, false, false)
  }

  function Awake(base: nat): (x: Task) {
    Task(base, base, 0, Ready, Free, false, false)
  }

  function Blocked(base: nat, m: MutexId, inherited: bool): (x: Task) {
    Task(base, base, 0, WaitingOn(m), AtTop(m), inherited, true)
  }

  /** Task 0 with `held` mutexes at priority prio. */
  function Owner(prio: nat, held: nat): (x: Task) {
    Task(1, prio, held, Ready, Free, false, true)
  }

  function Held(owner: TaskId, waiters: seq<TaskId>): (x: Mutex) {
    Mutex(false, 0, Some(owner), 0, waiters, {})
  }

  const UNUSED := Mutex(false, 1, None, 0, [], {})

  function Late0(): (s: Sys) {
    Sys([Awake(1), Asleep(3), Asleep(2), Asleep(1)], [UNUSED, UNUSED])
  }

  /** Task 0 has taken both mutexes, ... */
  function Late1(): (s: Sys) {
    Sys([Owner(1, 2), Asleep(3), Asleep(2), Asleep(1)], [Held(0, []), Held(0, [])])
  }

  /** ... task 3 waits for the second, task 2 for the first, and then task 1. */
  function Late2(): (s: Sys) {
    Sys([Owner(1, 2), Asleep(3), Asleep(2), Blocked(1, 1, false)], [Held(0, []), Held(0, [3])])
  }

  function Late3(): (s: Sys) {
    Sys([Owner(2, 2), Asleep(3), Blocked(2, 0, true), Blocked(1, 1, false)], [Held(0, [2]), Held(0, [3])])
  }

  function Late4(): (s: Sys) {
    Sys([Owner(3, 2), Blocked(3, 0, true), Blocked(2, 0, true), Blocked(1, 1, false)],
        [Held(0, [1, 2]), Held(0, [3])])
  }

  function LateHalf(): (s: Sys) {
    Sys([Owner(1, 1), Asleep(3), Asleep(2), Asleep(1)], [Held(0, []), UNUSED])
  }

  lemma OneTaken()
    ensures Created(Late0()) && Reaches(Late0(), LateHalf())
  {
    hide Reaches;
    ReachesItself(Late0());
    ReachesNext2(Late0(), Late0(), Begin(0, 0, true), Top(0));
    var s := Step(Step(Late0(), Begin(0, 0, true)), Top(0));
    SameMutex(s.mutexes[0], Held(0, []));
    SameSys(s, LateHalf());
  }

  lemma BothTaken()
    ensures Created(Late0()) && Reaches(Late0(), Late1())
  {
    hide Reaches;
    OneTaken();
    ReachesNext2(Late0(), LateHalf(), Begin(0, 1, true), Top(0));
    var r := Step(Step(LateHalf(), Begin(0, 1, true)), Top(0));
    SameMutex(r.mutexes[1], Held(0, []));
    SameSys(r, Late1());
  }

  /** A sleeping task wakes, finds mutex m taken, and blocks on it. */
  lemma WakesAndBlocks(a: Sys, s: Sys, t: TaskId, m: MutexId)
    requires Reaches(a, s) && Sane(s) && t < |s.tasks| && m < |s.mutexes|
    requires s.tasks[t] == Asleep(s.tasks[t].base)
    requires s.mutexes[m].count == 0 && s.mutexes[m].holder.Some? && s.mutexes[m].holder.value != t
    requires s.mutexes[m].woken == {} && Highest(s, s.mutexes[m].holder.value)
    requires s.tasks[s.mutexes[m].holder.value].prio <= s.tasks[t].prio
    ensures var b := WithTask(s, t, Task(s.tasks[t].base, s.tasks[t].base, 0, Ready, Deciding(m), false, true));
            Sane(b) && Reaches(a, Block(b, t, m))
  {
    hide Reaches, InsertWaiter;
    var s1 := Step(s, Wake(t));
    ReachesNext2(a, s, Wake(t), Begin(t, m, true));
    var s2 := Step(s1, Begin(t, m, true));
    assert Highest(s2, t);
    ReachesNext2(a, s2, Top(t), Decide(t, false, false));
    var b := WithTask(s, t, Task(s.tasks[t].base, s.tasks[t].base, 0, Ready, Deciding(m), false, true));
    var s3 := Step(s2, Top(t));
    SameMutex(s3.mutexes[m], s.mutexes[m]);
    SameSys(s3, b);
  }

  lemma AllBlocked()
    ensures Reaches(Late0(), Late4())
  {
    hide Reaches;
    BothTaken();
    WakesAndBlocks(Late0(), Late1(), 3, 1);
    var b2 := Block(WithTask(Late1(), 3, Task(1, 1, 0, Ready, Deciding(1), false, true)), 3, 1);
    SameMutex(b2.mutexes[1], Held(0, [3]));
    SameSys(b2, Late2());
    WakesAndBlocks(Late0(), Late2(), 2, 0);
    var b3 := Block(WithTask(Late2(), 2, Task(2, 2, 0, Ready, Deciding(0), false, true)), 2, 0);
    SameMutex(b3.mutexes[0], Held(0, [2]));
    SameSys(b3, Late3());
    WakesAndBlocks(Late0(), Late3(), 1, 0);
    var b4 := Block(WithTask(Late3(), 1, Task(3, 3, 0, Ready, Deciding(0), false, true)), 1, 0);
    SameMutex(b4.mutexes[0], Held(0, [1, 2]));
    SameSys(b4, Late4());
  }

  /** The state from which inheritance can fail, by one step that strict priorities would not
      allow, is reached from creation by a run that keeps them. */
  lemma LateGiveIsReached()
    ensures Created(Late0()) && Reaches(Late0(), LateGive())
  {
    hide Reaches;
    BothTaken();
    AllBlocked();
    ReachesNext(Late0(), Late4(), Give(0, 0));
    var r := Step(Late4(), Give(0, 0));
    SameMutex(r.mutexes[0], LateGive().mutexes[0]);
    SameSys(r, LateGive());
  }

  // ---------- an assertion of the code ----------

  /** xQueueSemaphoreTake asserts at the top, with the mutex taken and no time left, that no
      inheritance has occurred.  The assertion fails in this step. */
  predicate Fails(s: Sys, ev: Event)
    requires Enabled(s, ev)
  {
    && ev.Top? && s.mutexes[s.tasks[ev.t].pc.m].count == 0
    && !s.tasks[ev.t].ticks && s.tasks[ev.t].inherited
  }

  /** At the top again without time left and with inheritance on record. */
  predicate LateRetry(x: Task) {
    x.pc.AtTop? && !x.ticks && x.inherited
  }

  /** A task from which was inherited has timed out, finds the mutex free after all, and goes back
      to the top. */
  predicate FreeAfterTimeout(s: Sys, ev: Event)
    requires Enabled(s, ev)
  {
    ev.Look? && s.mutexes[s.tasks[ev.t].pc.m].count > 0 && s.tasks[ev.t].inherited && !s.tasks[ev.t].ticks
  }

  /** Every task is in its call as CallOk says. */
  ghost predicate CallsOk(s: Sys) {
    forall t: TaskId :: t < |s.tasks| ==> CallOk(s.tasks[t])
  }

  /** A step of another task leaves a task where it is in its call, but may make it ready. */
  lemma OthersStay(s: Sys, ev: Event, t: TaskId)
    requires Enabled(s, ev) && t < |s.tasks| && t != ev.t
    ensures |Step(s, ev).tasks| == |s.tasks|
    ensures var (x, y) := (s.tasks[t], Step(s, ev).tasks[t]);
            && y.pc == x.pc && y.inherited == x.inherited && y.ticks == x.ticks
            && (y.status == x.status || y.status == Ready)
  {
    hide InsertWaiter, DropWaiter, HighestWaiting;
  }

  /** What a task's own step makes of its place in the call. */
  lemma OwnStep(s: Sys, ev: Event)
    requires Enabled(s, ev) && CallOk(s.tasks[ev.t])
    ensures |Step(s, ev).tasks| == |s.tasks| && CallOk(Step(s, ev).tasks[ev.t])
    ensures ev.Expire? ==> Step(s, ev).tasks[ev.t].ticks
    ensures !ev.Expire? ==> (LateRetry(Step(s, ev).tasks[ev.t]) <==> FreeAfterTimeout(s, ev))
  {
    hide InsertWaiter, DropWaiter, HighestWaiting;
  }

  lemma StepKeepsCallsOk(s: Sys, ev: Event)
    requires CallsOk(s) && Enabled(s, ev)
    ensures CallsOk(Step(s, ev))
  {
    hide Step, Sane, FreeAfterTimeout;
    assert CallOk(s.tasks[ev.t]);
    OwnStep(s, ev);
    forall t: TaskId | t < |s.tasks|
      ensures CallOk(Step(s, ev).tasks[t])
    {
      if t != ev.t {
        assert CallOk(s.tasks[t]);
        OthersStay(s, ev, t);
      }
    }
  }

  /** That step, and no other, makes a task a late retry; and it stays one until its next step. */
  lemma LateRetryIff(s: Sys, ev: Event, t: TaskId)
    requires CallsOk(s) && Enabled(s, ev) && t < |s.tasks|
    ensures |Step(s, ev).tasks| == |s.tasks|
    ensures LateRetry(Step(s, ev).tasks[t]) <==>
            if ev.t == t then FreeAfterTimeout(s, ev) else LateRetry(s.tasks[t])
  {
    hide Step, Enabled;
    if t == ev.t {
      OwnStep(s, ev);
    } else {
      OthersStay(s, ev, t);
    }
  }

  /** The last step of task t among the first i was that one. */
  ghost predicate LastWasFreeAfterTimeout(states: seq<Sys>, evs: seq<Event>, t: TaskId, i: nat)
    requires Run(states, evs) && i <= |evs|
  {
    exists j :: 0 <= j < i && evs[j].t == t && FreeAfterTimeout(states[j], evs[j])
                && forall k :: j < k < i ==> evs[k].t != t
  }

  lemma {:induction false} LateRetries(states: seq<Sys>, evs: seq<Event>, t: TaskId, i: nat)
    requires Run(states, evs) && Created(states[0]) && i < |states| && t < |states[0].tasks|
    ensures CallsOk(states[i]) && |states[i].tasks| == |states[0].tasks|
    ensures LateRetry(states[i].tasks[t]) <==> LastWasFreeAfterTimeout(states, evs, t, i)
    decreases i
  {
    hide Core, Step, Enabled, CallOk, FreeAfterTimeout;
    if i > 0 {
      LateRetries(states, evs, t, i - 1);
      StepKeepsCallsOk(states[i - 1], evs[i - 1]);
      LateRetryIff(states[i - 1], evs[i - 1], t);
      LastStep(states, evs, t, i);
    } else {
      CreatedIsSettled(states[0]);
    }
  }

  lemma LastStep(states: seq<Sys>, evs: seq<Event>, t: TaskId, i: nat)
    requires Run(states, evs) && 0 < i <= |evs|
    ensures LastWasFreeAfterTimeout(states, evs, t, i) <==>
            if evs[i - 1].t == t then FreeAfterTimeout(states[i - 1], evs[i - 1])
            else LastWasFreeAfterTimeout(states, evs, t, i - 1)
  {
    hide Step, Enabled, FreeAfterTimeout;
  }

  lemma CreatedIsSettled(s: Sys)
    requires Created(s)
    ensures CallsOk(s) && forall t: TaskId :: t < |s.tasks| ==> !LateRetry(s.tasks[t])
  {
  }

  /** Exactly when the assertion fails, in every run from creation, whatever the schedule and however
      many mutexes the tasks take: the task is at the top of a taken mutex, and its last step was to
      find that mutex free after its timeout. */
  lemma AssertionFailsIff(states: seq<Sys>, evs: seq<Event>, i: nat)
    requires Run(states, evs) && Created(states[0]) && i < |evs| && evs[i].Top?
    ensures evs[i].t < |states[i].tasks| && states[i].tasks[evs[i].t].pc.AtTop?
    ensures states[i].tasks[evs[i].t].pc.m < |states[i].mutexes|
    ensures Fails(states[i], evs[i]) <==>
              && states[i].mutexes[states[i].tasks[evs[i].t].pc.m].count == 0
              && LastWasFreeAfterTimeout(states, evs, evs[i].t, i)
  {
    hide Core, Step, FreeAfterTimeout, LastWasFreeAfterTimeout;
    SameTasks(states, evs, i);
    LateRetries(states, evs, evs[i].t, i);
  }

  lemma {:induction false} SameTasks(states: seq<Sys>, evs: seq<Event>, i: nat)
    requires Run(states, evs) && i < |states|
    ensures |states[i].tasks| == |states[0].tasks|
    decreases i
  {
    if i > 0 {
      SameTasks(states, evs, i - 1);
    }
  }

  function Retrying(): (x: Task) {
    Task(2, 2, 0, Ready, AtTop(0), true, false)
  }

  function Raced0(): (s: Sys) {
    Sys([Awake(1), Asleep(2), Asleep(3)], [UNUSED])
  }

  /** Task 0 has taken the mutex and task 1 waits for it with a timeout, ... */
  function Raced1(): (s: Sys) {
    Sys([Owner(2, 1), Blocked(2, 0, true), Asleep(3)], [Held(0, [1])])
  }

  /** ... times out just before the mutex is given and goes back to take it, ... */
  function Raced2(): (s: Sys) {
    Sys([Owner(1, 0), Retrying(), Asleep(3)], [UNUSED])
  }

  /** ... but task 2 is faster, and keeps it for a while. */
  function Raced3(): (s: Sys) {
    Sys([Owner(1, 0), Retrying(), Task(3, 3, 1, Sleeping, Free, false, true)], [Held(2, [])])
  }

  lemma WaitsWithTimeout()
    ensures Created(Raced0()) && Reaches(Raced0(), Raced1())
  {
    hide Reaches;
    ReachesItself(Raced0());
    ReachesNext2(Raced0(), Raced0(), Begin(0, 0, true), Top(0));
    var s := Step(Step(Raced0(), Begin(0, 0, true)), Top(0));
    var taken := Sys([Owner(1, 1), Asleep(2), Asleep(3)], [Held(0, [])]);
    SameMutex(s.mutexes[0], Held(0, []));
    SameSys(s, taken);
    WakesAndBlocks(Raced0(), taken, 1, 0);
    var b := Block(WithTask(taken, 1, Task(2, 2, 0, Ready, Deciding(0), false, true)), 1, 0);
    SameMutex(b.mutexes[0], Held(0, [1]));
    SameSys(b, Raced1());
  }

  lemma GoesBack()
    ensures Reaches(Raced0(), Raced2())
  {
    hide Reaches;
    WaitsWithTimeout();
    ReachesNext2(Raced0(), Raced1(), Expire(1), Top(1));
    var s := Step(Step(Raced1(), Expire(1)), Top(1));
    var late := Sys([Owner(2, 1), Task(2, 2, 0, Ready, Deciding(0), true, true), Asleep(3)], [Held(0, [])]);
    SameMutex(s.mutexes[0], Held(0, []));
    SameSys(s, late);
    ReachesNext2(Raced0(), late, Decide(1, true, false), Give(0, 0));
    var given := Step(Step(late, Decide(1, true, false)), Give(0, 0));
    ReachesNext(Raced0(), given, Look(1));
    var r := Step(given, Look(1));
    SameMutex(r.mutexes[0], UNUSED);
    SameSys(r, Raced2());
  }

  /** The assertion can fail, in a strict-priority run from creation: task 1 is about to be at the
      top with the mutex taken, no time left, and inheritance on record. */
  lemma AssertionCanFail()
    ensures Created(Raced0()) && Reaches(Raced0(), Raced3())
    ensures Enabled(Raced3(), Top(1)) && Strict(Raced3(), Top(1)) && Fails(Raced3(), Top(1))
  {
    hide Reaches;
    WaitsWithTimeout();
    GoesBack();
    ReachesNext2(Raced0(), Raced2(), Wake(2), Begin(2, 0, true));
    var s := Step(Step(Raced2(), Wake(2)), Begin(2, 0, true));
    ReachesNext2(Raced0(), s, Top(2), Sleep(2));
    var r := Step(Step(s, Top(2)), Sleep(2));
    SameMutex(r.mutexes[0], Held(2, []));
    SameSys(r, Raced3());
  }
}
