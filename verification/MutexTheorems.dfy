/** What the mutex protocol promises over whole runs, and where the promise of priority
    inheritance stops. */
module MutexTheorems {
  import opened Common
  import opened MutexProtocol
  import opened MutexRuns
  import opened MutexExact

  /** As tasks and mutexes are created. */
  ghost predicate Created(s: Sys) {
    && (forall t :: 0 <= t < |s.tasks| ==>
          s.tasks[t].prio == s.tasks[t].base && s.tasks[t].held == 0 && s.tasks[t].pc == Free
          && !s.tasks[t].status.WaitingOn?)
    && (forall m :: 0 <= m < |s.mutexes| ==>
          s.mutexes[m] == Mutex(s.mutexes[m].recursive, 1, None, 0, [], {}))
  }

  lemma CreatedInv(s: Sys)
    requires Created(s)
    ensures Inv(s)
  {
    forall t | 0 <= t < |s.tasks|
      ensures |HeldBy(s, t)| == 0
    {
      assert HeldBy(s, t) == {};
    }
  }

  /** A run: states[i + 1] is what event i makes of states[i]. */
  ghost predicate Run(states: seq<Sys>, evs: seq<Event>) {
    && |states| == |evs| + 1
    && (forall i :: 0 <= i < |evs| ==> Enabled(states[i], evs[i]) && states[i + 1] == Step(states[i], evs[i]))
  }

  ghost predicate StrictRun(states: seq<Sys>, evs: seq<Event>) {
    Run(states, evs) && forall i :: 0 <= i < |evs| ==> Strict(states[i], evs[i])
  }

  lemma {:induction false} RunKeepsCore(states: seq<Sys>, evs: seq<Event>, i: nat)
    requires Run(states, evs) && Created(states[0]) && i < |states|
    ensures Core(states[i])
  {
    hide Core, Step, Enabled, Created;
    if i == 0 {
      CreatedInv(states[0]);
    } else {
      RunKeepsCore(states, evs, i - 1);
      StepKeepsCore(states[i - 1], evs[i - 1]);
    }
  }

  /** No take overtakes a more urgent task that waits. */
  ghost predicate OrderlyRun(states: seq<Sys>, evs: seq<Event>) {
    Run(states, evs) && forall i :: 0 <= i < |evs| ==> !Overtakes(states[i], evs[i])
  }

  lemma {:induction false} RunKeepsInv(states: seq<Sys>, evs: seq<Event>, i: nat)
    requires Run(states, evs) && Created(states[0]) && i < |states|
    requires forall j :: 0 <= j < i ==> !Overtakes(states[j], evs[j])
    ensures Inv(states[i])
  {
    hide Inv, Step, Enabled, Created, Overtakes;
    if i == 0 {
      CreatedInv(states[0]);
    } else {
      RunKeepsInv(states, evs, i - 1);
      StepKeepsInv(states[i - 1], evs[i - 1]);
    }
  }

  ghost predicate AllInherit(states: seq<Sys>, n: nat)
    requires n <= |states|
  {
    forall j :: 0 <= j < n ==> Inherited(states[j])
  }

  /** Whatever the schedule: in all states so far every holder is at least as urgent as every task
      blocked on what it holds, if and only if no take so far has overtaken a more urgent waiter. */
  lemma {:induction false} HoldersInheritIff(states: seq<Sys>, evs: seq<Event>, n: nat)
    requires Run(states, evs) && Created(states[0]) && n <= |evs|
    ensures AllInherit(states, n + 1) <==> forall j :: 0 <= j < n ==> !Overtakes(states[j], evs[j])
    decreases n
  {
    hide Core, Successor, Inherited, Step, Enabled, Created, Overtakes;
    if n == 0 {
      CreatedInv(states[0]);
    } else {
      HoldersInheritIff(states, evs, n - 1);
      if AllInherit(states, n) {
        RunKeepsInv(states, evs, n - 1);
        InheritedKeptIff(states[n - 1], evs[n - 1]);
        assert AllInherit(states, n + 1) <==> Inherited(states[n]);
      } else {
        assert !AllInherit(states, n + 1);
        var j :| 0 <= j < n - 1 && Overtakes(states[j], evs[j]);
      }
    }
  }

  lemma {:induction false} StrictIsOrderly(states: seq<Sys>, evs: seq<Event>, i: nat)
    requires StrictRun(states, evs) && Created(states[0]) && i < |states|
    ensures forall j :: 0 <= j < i ==> !Overtakes(states[j], evs[j])
    decreases i
  {
    hide Inv, Step, Enabled, Created, Overtakes, Strict;
    if i > 0 {
      StrictIsOrderly(states, evs, i - 1);
      RunKeepsInv(states, evs, i - 1);
      StrictNeverOvertakes(states[i - 1], evs[i - 1]);
    }
  }

  /** In every state of every strict-priority run, the holder of a mutex is at least as urgent as
      every task blocked on it. */
  lemma HoldersInherit(states: seq<Sys>, evs: seq<Event>, i: nat, m: MutexId, t: TaskId)
    requires StrictRun(states, evs) && Created(states[0]) && i < |states|
    requires m < |states[i].mutexes| && t < |states[i].tasks| && states[i].tasks[t].status == WaitingOn(m)
    requires states[i].mutexes[m].holder.Some?
    ensures states[i].mutexes[m].holder.value < |states[i].tasks|
    ensures states[i].tasks[t].prio <= states[i].tasks[states[i].mutexes[m].holder.value].prio
  {
    hide Step, Enabled, Created, Strict, Overtakes, HeldBy, Calls, Counters, Successor;
    StrictIsOrderly(states, evs, i);
    RunKeepsInv(states, evs, i);
    assert WaitList(states[i], m, states[i].mutexes[m].waiters);
  }

  /** In every state of every run, a priority is never below the base priority, and is the base
      priority again once no mutex is held. */
  lemma PrioritiesReturn(states: seq<Sys>, evs: seq<Event>, i: nat, t: TaskId)
    requires Run(states, evs) && Created(states[0]) && i < |states| && t < |states[i].tasks|
    ensures states[i].tasks[t].base <= states[i].tasks[t].prio
    ensures HeldBy(states[i], t) == {} ==> states[i].tasks[t].prio == states[i].tasks[t].base
  {
    hide Step, Enabled, Created, HeldBy, Calls, Counters, Waiting;
    RunKeepsCore(states, evs, i);
  }

  /** In every state of every run: a mutex is free exactly when nobody holds it, and a task's
      count of held mutexes is the number of mutexes that name it as their holder. */
  lemma OwnershipAccounts(states: seq<Sys>, evs: seq<Event>, i: nat)
    requires Run(states, evs) && Created(states[0]) && i < |states|
    ensures forall m :: 0 <= m < |states[i].mutexes| ==>
              (states[i].mutexes[m].count == 0 <==> states[i].mutexes[m].holder.Some?)
    ensures forall t :: 0 <= t < |states[i].tasks| ==> states[i].tasks[t].held == |HeldBy(states[i], t)|
  {
    hide Step, Enabled, Created, HeldBy, Calls, Counters, Waiting, Priorities;
    RunKeepsCore(states, evs, i);
  }

  /** +1 when a take of recursive mutex m completes, -1 when one is given back. */
  function CallDelta(s: Sys, ev: Event, m: MutexId): (d: int)
    requires ev.Count? ==> ev.t < |s.tasks| && s.tasks[ev.t].pc.Counting?
  {
    match ev
    case Count(t) => if s.tasks[t].pc.m == m then 1 else 0
    case TakeAgain(_, k) => if k == m then 1 else 0
    case GiveCall(_, k) => if k == m then -1 else 0
    case _ => 0
  }

  /** Completed recursive takes of mutex m minus gives, over the first n events of a run. */
  ghost function Balance(states: seq<Sys>, evs: seq<Event>, m: MutexId, n: nat): (b: int)
    requires Run(states, evs) && n <= |evs|
    decreases n
  {
    if n == 0 then 0
    else
      assert Enabled(states[n - 1], evs[n - 1]);
      Balance(states, evs, m, n - 1) + CallDelta(states[n - 1], evs[n - 1], m)
  }

  lemma StepCalls(s: Sys, ev: Event, m: MutexId)
    requires Enabled(s, ev) && m < |s.mutexes|
    ensures m < |Step(s, ev).mutexes| && Step(s, ev).mutexes[m].recursive == s.mutexes[m].recursive
    ensures Step(s, ev).mutexes[m].calls == s.mutexes[m].calls + CallDelta(s, ev, m)
  {
    hide InsertWaiter, DropWaiter, Inherit, Disinherited, AfterTimeout, HighestWaiting, Sane;
  }

  lemma {:induction false} CallsAreBalance(states: seq<Sys>, evs: seq<Event>, m: MutexId, n: nat)
    requires Run(states, evs) && Created(states[0]) && n <= |evs| && m < |states[0].mutexes|
    ensures m < |states[n].mutexes| && states[n].mutexes[m].calls == Balance(states, evs, m, n)
    ensures states[n].mutexes[m].recursive == states[0].mutexes[m].recursive
    decreases n
  {
    hide Step, Enabled, CallDelta;
    if n > 0 {
      CallsAreBalance(states, evs, m, n - 1);
      StepCalls(states[n - 1], evs[n - 1], m);
    }
  }

  /** The call count of a recursive mutex is its holder's takes minus gives, and between API calls
      of the holder it is positive exactly while the mutex is held. */
  lemma RecursiveCalls(states: seq<Sys>, evs: seq<Event>, m: MutexId, n: nat)
    requires Run(states, evs) && Created(states[0]) && n <= |evs| && m < |states[0].mutexes|
    requires states[0].mutexes[m].recursive
    ensures m < |states[n].mutexes| && states[n].mutexes[m].calls == Balance(states, evs, m, n)
    ensures states[n].mutexes[m].holder.None? ==> Balance(states, evs, m, n) == 0
    ensures states[n].mutexes[m].holder.Some? ==>
              states[n].mutexes[m].holder.value < |states[n].tasks|
              && (states[n].tasks[states[n].mutexes[m].holder.value].pc == Free ==> Balance(states, evs, m, n) > 0)
  {
    hide Created, Step, Enabled, Balance, Waiting, Accounts, Priorities;
    CallsAreBalance(states, evs, m, n);
    RunKeepsCore(states, evs, n);
  }

  // ---------- inheritance is exact ----------

  ghost predicate OneMutexRun(states: seq<Sys>, evs: seq<Event>) {
    OrderlyRun(states, evs) && forall i :: 0 <= i < |evs| ==> OneAtATime(states[i], evs[i])
  }

  lemma CreatedExact(s: Sys)
    requires Created(s)
    ensures ExactInv(s)
  {
    hide Inv;
    CreatedInv(s);
  }

  lemma {:induction false} RunKeepsExact(states: seq<Sys>, evs: seq<Event>, i: nat)
    requires OneMutexRun(states, evs) && Created(states[0]) && i < |states|
    ensures ExactInv(states[i])
  {
    hide ExactInv, Step, Enabled, Created, Overtakes, OneAtATime;
    if i == 0 {
      CreatedExact(states[0]);
    } else {
      RunKeepsExact(states, evs, i - 1);
      assert OneAtATime(states[i - 1], evs[i - 1]);
      StepKeepsExact(states[i - 1], evs[i - 1]);
    }
  }

  /** When tasks take one mutex at a time and none overtakes, a priority above the base priority is always the
      priority of some task that waits for the mutex held, or has not yet left its call. */
  lemma ExcessIsOwed(states: seq<Sys>, evs: seq<Event>, i: nat, h: TaskId)
    requires OneMutexRun(states, evs) && Created(states[0]) && i < |states|
    requires h < |states[i].tasks| && states[i].tasks[h].prio > states[i].tasks[h].base
    ensures Justified(states[i], h)
  {
    hide Step, Enabled, Created, Overtakes, OneAtATime, Inv, Justified;
    RunKeepsExact(states, evs, i);
  }

  /** And while nobody is on its way out of a wait for it, the holder of a mutex has exactly the
      priority of the most urgent waiter, or its own if that is higher. */
  lemma PriorityIsExact(states: seq<Sys>, evs: seq<Event>, i: nat, m: MutexId, h: TaskId)
    requires OneMutexRun(states, evs) && Created(states[0]) && i < |states|
    requires m < |states[i].mutexes| && states[i].mutexes[m].holder == Some(h)
    requires forall x :: 0 <= x < |states[i].tasks| ==> !Leaving(states[i].tasks[x], m)
    ensures h < |states[i].tasks| && InRange(states[i].mutexes[m].waiters, |states[i].tasks|)
    ensures states[i].tasks[h].prio
         == var w := HighestWaiting(states[i], m); if w > states[i].tasks[h].base then w else states[i].tasks[h].base
  {
    hide Step, Enabled, Created, Overtakes, OneAtATime, Calls, Counters, Successor, HeldBy, Transit, WaiterFlags,
        WokenTasks;
    RunKeepsExact(states, evs, i);
    var s := states[i];
    HolderHolds(s, m);
    FirstIsHighest(s, m);
    var w := s.mutexes[m].waiters;
    assert w != [] ==> w[0] in w;
    if s.tasks[h].prio > s.tasks[h].base {
      var k: MutexId, x: TaskId :| Holds(s, h, k) && Backs(s, x, h, k);
      OnlyMutex(s, h, m, k);
      assert WaitList(s, m, w);
      assert x in w;
    }
  }

  // ---------- where strict priorities are not kept ----------

  /** Whether xQueueGenericSend asks for a context switch after giving mutex m.  A priority that
      was given back asks for one only when nobody waited for the mutex. */
  function AsksToSwitch(s: Sys, t: TaskId, m: MutexId): (b: bool)
    requires Sane(s) && t < |s.tasks| && m < |s.mutexes| && s.tasks[t].held > 0
  {
    var x := Disinherited(s.tasks[t]);
    if s.mutexes[m].waiters != [] then
      s.tasks[s.mutexes[m].waiters[0]].prio > x.prio
    else x.prio != s.tasks[t].prio
  }

  /** Whether the giver can be left running below a ready task without having asked for a switch:
      exactly when its priority was given back, the woken waiter is not above what is left of it,
      and some other ready task is. */
  lemma SwitchIsSkippedIff(s: Sys, t: TaskId, m: MutexId)
    requires Core(s) && Enabled(s, Give(t, m)) && Highest(s, t)
    ensures !AsksToSwitch(s, t, m) && !Highest(GiveBack(s, t, m), t) <==>
              && s.tasks[t].held == 1 && s.mutexes[m].waiters != []
              && s.tasks[s.mutexes[m].waiters[0]].prio <= s.tasks[t].base
              && exists u :: 0 <= u < |s.tasks| && s.tasks[u].status.Ready?
                  && s.tasks[t].base < s.tasks[u].prio && u != t
  {
    hide HeldBy, Calls, Counters, Accounts, Priorities;
    var r, w := GiveBack(s, t, m), s.mutexes[m].waiters;
    assert WaitList(s, m, w);
    if w != [] {
      assert w[0] in w;
      assert s.tasks[w[0]].status == WaitingOn(m);
    }
    if exists u :: 0 <= u < |s.tasks| && s.tasks[u].status.Ready? && s.tasks[t].base < s.tasks[u].prio && u != t {
      var u :| 0 <= u < |s.tasks| && s.tasks[u].status.Ready? && s.tasks[t].base < s.tasks[u].prio && u != t;
      assert r.tasks[u].status.Ready? && r.tasks[u].prio == s.tasks[u].prio;
    }
    if !Highest(r, t) {
      var u :| 0 <= u < |r.tasks| && r.tasks[u].status.Ready? && r.tasks[u].prio > r.tasks[t].prio;
      assert u != t && r.tasks[u].prio == s.tasks[u].prio;
    }
  }

  /** Task 0 holds mutexes 0 and 1.  It has already given mutex 0 once: task 1 is on its way to it
      and task 2 still waits.  Task 3 waits on mutex 1 no more urgently than task 0's base. */
  function LateGive(): (s: Sys) {
    Sys([Task(1, 3, 1, Ready, Free, false, true),
         Task(3, 3, 0, Ready, AtTop(0), true, true),
         Task(2, 2, 0, WaitingOn(0), AtTop(0), true, true),
         Task(1, 1, 0, WaitingOn(1), AtTop(1), false, true)],
        [Mutex(false, 1, None, 0, [2], {1}),
         Mutex(false, 0, Some(0), 0, [3], {})])
  }

  lemma LateGiveHolders()
    ensures HeldBy(LateGive(), 0) == {1} && HeldBy(LateGive(), 1) == {}
    ensures HeldBy(LateGive(), 2) == {} && HeldBy(LateGive(), 3) == {}
  {
  }

  lemma LateGiveAccounts()
    ensures Sane(LateGive()) && Accounts(LateGive()) && Priorities(LateGive())
  {
    LateGiveHolders();
    hide HeldBy;
  }

  lemma LateGiveCalls()
    ensures Calls(LateGive()) && Counters(LateGive())
  {
  }

  lemma LateGiveWaitLists()
    ensures WaitList(LateGive(), 0, [2]) && WaitList(LateGive(), 1, [3])
  {
  }

  lemma LateGiveLists()
    ensures Waiting(LateGive())
  {
    hide WaitList;
    LateGiveWaitLists();
  }

  lemma LateGiveInv()
    ensures Inv(LateGive())
  {
    hide Sane, Accounts, Priorities, Calls, Counters, Waiting;
    LateGiveAccounts();
    LateGiveCalls();
    LateGiveLists();
    assert AboveAll(LateGive(), 1, [2]) && 1 in LateGive().mutexes[0].woken;
  }

  /** Strict priorities are needed: task 0 gives mutex 1, no switch is asked for, and it goes on
      below task 1 and takes mutex 0 again, less urgent than task 2 that waits for it. */
  lemma InheritanceCanFail()
    ensures Inv(LateGive()) && Highest(LateGive(), 0) && Enabled(LateGive(), Give(0, 1))
    ensures !AsksToSwitch(LateGive(), 0, 1)
    ensures var a := Step(LateGive(), Give(0, 1));
            && Enabled(a, Begin(0, 0, true)) && Enabled(Step(a, Begin(0, 0, true)), Top(0))
            && !Highest(a, 0)
            && !Inherited(Step(Step(a, Begin(0, 0, true)), Top(0)))
  {
    LateGiveInv();
    hide Inv;
    var a := Step(LateGive(), Give(0, 1));
    assert a.tasks[1].prio == 3 && a.tasks[0].prio == 1 && a.tasks[1].status.Ready?;
    var r := Step(Step(a, Begin(0, 0, true)), Top(0));
    assert r.mutexes[0].waiters == [2] && r.mutexes[0].holder == Some(0);
    assert 2 in r.mutexes[0].waiters && r.tasks[2].prio == 2 && r.tasks[0].prio == 1;
  }
}
