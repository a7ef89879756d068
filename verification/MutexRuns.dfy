/** Every step of the mutex protocol keeps ownership accounting, and under strict priorities
    single-level priority inheritance. */
module MutexRuns {
  import opened Common
  import opened MutexProtocol

  // ---------- lists ----------

  lemma {:induction false} InsertWaiterMember(tasks: seq<Task>, w: seq<TaskId>, t: TaskId, x: TaskId)
    requires t < |tasks| && InRange(w, |tasks|)
    ensures x in InsertWaiter(tasks, w, t) <==> x == t || x in w
    decreases w
  {
    if !(w == [] || tasks[w[0]].prio < tasks[t].prio) {
      InsertWaiterMember(tasks, w[1..], t, x);
      assert x in w <==> x == w[0] || x in w[1..];
    }
  }

  ghost predicate AtBase(tasks: seq<Task>, w: seq<TaskId>) {
    InRange(w, |tasks|) && forall i :: 0 <= i < |w| ==> tasks[w[i]].prio == tasks[w[i]].base
  }

  lemma ConsSorted(tasks: seq<Task>, x: TaskId, r: seq<TaskId>)
    requires SortedByBase(tasks, r) && Distinct(r) && x < |tasks|
    requires forall i :: 0 <= i < |r| ==> tasks[x].base >= tasks[r[i]].base && r[i] != x
    ensures SortedByBase(tasks, [x] + r) && Distinct([x] + r)
  {
  }

  lemma {:induction false} InsertWaiterSorted(tasks: seq<Task>, w: seq<TaskId>, t: TaskId)
    requires t < |tasks| && SortedByBase(tasks, w) && AtBase(tasks, w) && tasks[t].prio == tasks[t].base
    requires Distinct(w) && t !in w
    ensures SortedByBase(tasks, InsertWaiter(tasks, w, t)) && Distinct(InsertWaiter(tasks, w, t))
    decreases w
  {
    if w == [] || tasks[w[0]].prio < tasks[t].prio {
      ConsSorted(tasks, t, w);
    } else {
      InsertWaiterSorted(tasks, w[1..], t);
      var r := InsertWaiter(tasks, w[1..], t);
      forall i | 0 <= i < |r|
        ensures tasks[w[0]].base >= tasks[r[i]].base && r[i] != w[0]
      {
        InsertWaiterMember(tasks, w[1..], t, r[i]);
      }
      ConsSorted(tasks, w[0], r);
    }
  }

  lemma {:induction false} DropWaiterMember(w: seq<TaskId>, t: TaskId, x: TaskId)
    requires Distinct(w)
    ensures x in DropWaiter(w, t) <==> x in w && x != t
    decreases w
  {
    if w != [] {
      assert x in w <==> x == w[0] || x in w[1..];
      if w[0] != t {
        DropWaiterMember(w[1..], t, x);
      }
    }
  }

  lemma {:induction false} DropWaiterSorted(tasks: seq<Task>, w: seq<TaskId>, t: TaskId)
    requires SortedByBase(tasks, w) && Distinct(w)
    ensures SortedByBase(tasks, DropWaiter(w, t)) && Distinct(DropWaiter(w, t))
    decreases w
  {
    hide SortedByBase, Distinct;
    if w != [] {
      TailSorted(tasks, w);
      if w[0] != t {
        DropWaiterSorted(tasks, w[1..], t);
        var r := DropWaiter(w[1..], t);
        forall i | 0 <= i < |r|
          ensures r[i] < |tasks| && tasks[w[0]].base >= tasks[r[i]].base && r[i] != w[0]
        {
          DropWaiterMember(w[1..], t, r[i]);
          assert r[i] in w[1..];
        }
        ConsSorted(tasks, w[0], r);
      }
    }
  }

  lemma TailSorted(tasks: seq<Task>, w: seq<TaskId>)
    requires w != [] && SortedByBase(tasks, w) && Distinct(w)
    ensures SortedByBase(tasks, w[1..]) && Distinct(w[1..]) && InRange(w, |tasks|)
    ensures forall x :: x in w[1..] ==> x < |tasks| && tasks[w[0]].base >= tasks[x].base && x != w[0]
  {
  }

  // ---------- accounting ----------

  lemma HeldByGain(s: Sys, r: Sys, t: TaskId, m: MutexId)
    requires |r.mutexes| == |s.mutexes| && m < |s.mutexes| && s.mutexes[m].holder == None
        && r.mutexes[m].holder == Some(t)
    requires forall k :: 0 <= k < |s.mutexes| && k != m ==> r.mutexes[k].holder == s.mutexes[k].holder
    ensures |HeldBy(r, t)| == |HeldBy(s, t)| + 1
    ensures forall u :: u != t ==> HeldBy(r, u) == HeldBy(s, u)
  {
    assert HeldBy(r, t) == HeldBy(s, t) + {m};
  }

  lemma OnlyOne(s: Sys, t: TaskId, m: MutexId, k: MutexId)
    requires |HeldBy(s, t)| == 1 && m in HeldBy(s, t) && k in HeldBy(s, t)
    ensures k == m
  {
    assert HeldBy(s, t) == {m} by {
      assert |HeldBy(s, t) - {m}| == 0;
    }
  }

  lemma HoldsNothing(s: Sys, t: TaskId, m: MutexId)
    requires Accounts(s) && t < |s.tasks| && s.tasks[t].held == 0 && m < |s.mutexes|
    ensures s.mutexes[m].holder != Some(t)
  {
    assert HeldBy(s, t) == {};
    assert m !in HeldBy(s, t);
  }

  lemma SameHolders(s: Sys, r: Sys)
    requires |r.mutexes| == |s.mutexes|
    requires forall k :: 0 <= k < |s.mutexes| ==> r.mutexes[k].holder == s.mutexes[k].holder
    ensures forall u :: HeldBy(r, u) == HeldBy(s, u)
  {
  }

  // ---------- steps that move no mutex and no priority ----------

  /** Nothing that the wait lists depend on has changed. */
  lemma WaitingSame(s: Sys, r: Sys)
    requires Waiting(s) && |r.tasks| == |s.tasks| && |r.mutexes| == |s.mutexes|
    requires forall t :: 0 <= t < |s.tasks| ==>
               && r.tasks[t].base == s.tasks[t].base
               && (s.tasks[t].status.WaitingOn? || r.tasks[t].status.WaitingOn? ==>
                     r.tasks[t].status == s.tasks[t].status && r.tasks[t].held == s.tasks[t].held
                         && r.tasks[t].pc == s.tasks[t].pc)
               && (r.tasks[t].pc != Free ==> r.tasks[t].pc.m < |s.mutexes|)
    requires forall m :: 0 <= m < |s.mutexes| ==>
               r.mutexes[m].waiters == s.mutexes[m].waiters && r.mutexes[m].woken <= s.mutexes[m].woken
    requires forall m, t :: 0 <= m < |s.mutexes| && t in r.mutexes[m].woken && t < |s.tasks| ==>
               r.tasks[t].held == s.tasks[t].held && r.tasks[t].status == s.tasks[t].status
                   && r.tasks[t].pc == s.tasks[t].pc
    ensures Waiting(r)
  {
    forall m | 0 <= m < |r.mutexes|
      ensures WaitList(r, m, r.mutexes[m].waiters)
    {
      assert WaitList(s, m, s.mutexes[m].waiters);
    }
    forall m, t | 0 <= m < |r.mutexes| && t in r.mutexes[m].woken
      ensures t < |r.tasks| && r.tasks[t].held == 0 && r.tasks[t].status == Ready && r.tasks[t].pc == AtTop(m)
    {
      assert t in s.mutexes[m].woken;
    }
    assert WokenTasks(r);
  }

  lemma AccountsSame(s: Sys, r: Sys)
    requires Accounts(s) && |r.tasks| == |s.tasks| && |r.mutexes| == |s.mutexes|
    requires forall m :: 0 <= m < |s.mutexes| ==>
               r.mutexes[m].holder == s.mutexes[m].holder && r.mutexes[m].count == s.mutexes[m].count
    requires forall t :: 0 <= t < |s.tasks| ==> r.tasks[t].held == s.tasks[t].held
    ensures Accounts(r)
  {
    SameHolders(s, r);
  }

  /** A step that only moves a program counter, counts a call, or sends its task to sleep. */
  ghost predicate Simple(s: Sys, ev: Event)
    requires Enabled(s, ev)
  {
    match ev
    case Top(t) => s.mutexes[s.tasks[t].pc.m].count == 0
    case Decide(t, expired, _) => expired || s.mutexes[s.tasks[t].pc.m].count > 0
    case Disinherit(_) => false
    case Give(_, _) => false
    case Expire(_) => false
    case _ => true
  }

  lemma SimpleAccounts(s: Sys, ev: Event)
    requires Core(s) && Enabled(s, ev) && Simple(s, ev)
    ensures Accounts(Step(s, ev))
  {
    hide HeldBy, Calls, Counters, Waiting, Priorities, Accounts;
    AccountsSame(s, Step(s, ev));
  }

  lemma TopLists(s: Sys, ev: Event)
    requires Core(s) && Enabled(s, ev) && Simple(s, ev) && ev.Top?
    ensures Waiting(Step(s, ev))
  {
    hide WaitList, HeldBy, Calls, Counters, Priorities, Accounts, WaitLists, InRange;
    WaitingSame(s, Step(s, ev));
  }

  lemma CallsLists(s: Sys, ev: Event)
    requires Core(s) && Enabled(s, ev) && Simple(s, ev) && (ev.Count? || ev.TakeAgain? || ev.GiveCall?)
    ensures Waiting(Step(s, ev))
  {
    hide WaitList, HeldBy, Calls, Counters, Priorities, Accounts, WaitLists, InRange;
    WaitingSame(s, Step(s, ev));
  }

  lemma MovesLists(s: Sys, ev: Event)
    requires Core(s) && Enabled(s, ev) && Simple(s, ev)
    requires !ev.Top? && !ev.Count? && !ev.TakeAgain? && !ev.GiveCall?
    ensures Waiting(Step(s, ev))
  {
    hide WaitList, HeldBy, Calls, Counters, Priorities, Accounts, WaitLists, InRange;
    assert s.tasks[ev.t].pc != Free ==> s.tasks[ev.t].pc.m < |s.mutexes|;
    WaitingSame(s, Step(s, ev));
  }

  lemma SimpleLists(s: Sys, ev: Event)
    requires Core(s) && Enabled(s, ev) && Simple(s, ev)
    ensures Waiting(Step(s, ev))
  {
    hide Core, Enabled, Step, Simple;
    if ev.Top? {
      TopLists(s, ev);
    } else if ev.Count? || ev.TakeAgain? || ev.GiveCall? {
      CallsLists(s, ev);
    } else {
      MovesLists(s, ev);
    }
  }

  /** Priorities, holders and wait lists unchanged, and no free mutex has lost a woken task. */
  lemma PrioritiesSame(s: Sys, r: Sys)
    requires Inherited(s) && Successor(s)
    requires |r.tasks| == |s.tasks| && |r.mutexes| == |s.mutexes|
    requires forall t :: 0 <= t < |s.tasks| ==>
               r.tasks[t].prio == s.tasks[t].prio && r.tasks[t].base == s.tasks[t].base
                   && r.tasks[t].held == s.tasks[t].held
    requires forall m :: 0 <= m < |s.mutexes| ==>
               && r.mutexes[m].holder == s.mutexes[m].holder && r.mutexes[m].waiters == s.mutexes[m].waiters
               && (s.mutexes[m].holder.None? ==> r.mutexes[m].woken == s.mutexes[m].woken)
    ensures Inherited(r) && Successor(r)
  {
    forall m | 0 <= m < |r.mutexes| && r.mutexes[m].holder.None? && r.mutexes[m].waiters != []
      ensures exists k :: k in r.mutexes[m].woken && AboveAll(r, k, r.mutexes[m].waiters)
    {
      var k :| k in s.mutexes[m].woken && AboveAll(s, k, s.mutexes[m].waiters);
      assert AboveAll(r, k, r.mutexes[m].waiters);
    }
  }

  lemma SimplePriorities(s: Sys, ev: Event)
    requires Core(s) && Enabled(s, ev) && Simple(s, ev)
    ensures Sane(Step(s, ev)) && Priorities(Step(s, ev))
  {
    hide WaitList, HeldBy, Calls, Counters, Waiting, Accounts;
  }

  lemma SimpleInherits(s: Sys, ev: Event)
    requires Inv(s) && Enabled(s, ev) && Simple(s, ev)
    ensures Inherited(Step(s, ev)) && Successor(Step(s, ev))
  {
    hide WaitList, HeldBy, Calls, Counters, Waiting, Priorities, Inherited, Successor;
    PrioritiesSame(s, Step(s, ev));
  }

  /** A step of task t that is not counting or giving before or after it, and moves no holder. */
  lemma SameCalls(s: Sys, r: Sys, t: TaskId)
    requires Calls(s) && Counters(s) && |r.tasks| == |s.tasks| && |r.mutexes| == |s.mutexes| && t < |s.tasks|
    requires forall m :: 0 <= m < |s.mutexes| ==>
               r.mutexes[m].calls == s.mutexes[m].calls && r.mutexes[m].holder == s.mutexes[m].holder
               && r.mutexes[m].recursive == s.mutexes[m].recursive
    requires forall u :: 0 <= u < |s.tasks| && u != t ==> r.tasks[u] == s.tasks[u]
    requires !r.tasks[t].pc.Counting? && !r.tasks[t].pc.Giving? && !s.tasks[t].pc.Counting? && !s.tasks[t].pc.Giving?
    ensures Calls(r) && Counters(r)
  {
  }

  lemma MovesCalls(s: Sys, ev: Event)
    requires Core(s) && Enabled(s, ev) && Simple(s, ev) && !ev.Count? && !ev.TakeAgain? && !ev.GiveCall?
    ensures Calls(Step(s, ev)) && Counters(Step(s, ev))
  {
    hide HeldBy, Inherited, Successor, Priorities, Accounts, Waiting, InRange, Calls;
    assert !s.tasks[ev.t].pc.Counting? && !s.tasks[ev.t].pc.Giving?;
    hide Counters;
    SameCalls(s, Step(s, ev), ev.t);
  }

  lemma CountCalls(s: Sys, ev: Event)
    requires Core(s) && Enabled(s, ev) && ev.Count?
    ensures Calls(Step(s, ev)) && Counters(Step(s, ev))
  {
    hide WaitList, HeldBy, Inherited, Successor, Priorities, Accounts, Waiting, InRange;
    var r, m := Step(s, ev), s.tasks[ev.t].pc.m;
    assert Holds(s, ev.t, m) && s.mutexes[m].recursive;
    assert forall k :: 0 <= k < |s.mutexes| && k != m ==> r.mutexes[k] == s.mutexes[k];
  }

  lemma CallsCalls(s: Sys, ev: Event)
    requires Core(s) && Enabled(s, ev) && (ev.TakeAgain? || ev.GiveCall?)
    ensures Calls(Step(s, ev)) && Counters(Step(s, ev))
  {
    hide WaitList, HeldBy, Inherited, Successor, Priorities, Accounts, Waiting, InRange;
    var r := Step(s, ev);
    assert forall k :: 0 <= k < |s.mutexes| && k != ev.m ==> r.mutexes[k] == s.mutexes[k];
  }

  lemma SimpleCalls(s: Sys, ev: Event)
    requires Core(s) && Enabled(s, ev) && Simple(s, ev)
    ensures Calls(Step(s, ev)) && Counters(Step(s, ev))
  {
    hide Inv, Enabled, Step, Simple;
    if ev.Count? {
      CountCalls(s, ev);
    } else if ev.TakeAgain? || ev.GiveCall? {
      CallsCalls(s, ev);
    } else {
      MovesCalls(s, ev);
    }
  }

  lemma SimpleKeepsCore(s: Sys, ev: Event)
    requires Core(s) && Enabled(s, ev) && Simple(s, ev)
    ensures Core(Step(s, ev))
  {
    hide Step, Waiting, Accounts, Priorities, Calls, Counters;
    SimpleAccounts(s, ev);
    SimpleLists(s, ev);
    SimplePriorities(s, ev);
    SimpleCalls(s, ev);
  }

  // ---------- taking ----------

  lemma TakeLists(s: Sys, t: TaskId, m: MutexId)
    requires Core(s) && t < |s.tasks| && m < |s.mutexes| && s.mutexes[m].count > 0
    requires s.tasks[t].status.Ready? && s.tasks[t].pc == AtTop(m)
    ensures Waiting(Take(s, t, m)) && Accounts(Take(s, t, m))
  {
    hide WaitList, HeldBy, Calls, Counters, Inherited, Successor, Priorities;
    var r := Take(s, t, m);
    HeldByGain(s, r, t, m);
    WaitingSame(s, r);
  }

  lemma TakeInherits(s: Sys, t: TaskId, m: MutexId)
    requires Inv(s) && t < |s.tasks| && m < |s.mutexes| && s.mutexes[m].count > 0
    requires s.tasks[t].status.Ready? && s.tasks[t].pc == AtTop(m)
    ensures Inherited(Take(s, t, m)) <==> AboveAll(s, t, s.mutexes[m].waiters)
  {
    hide WaitList, HeldBy, Calls, Counters, Priorities, Successor;
    var r := Take(s, t, m);
    if Inherited(r) {
      forall x | x in s.mutexes[m].waiters
        ensures x < |s.tasks| && s.tasks[x].prio <= s.tasks[t].prio
      {
        assert x in r.mutexes[m].waiters;
      }
    }
    if AboveAll(s, t, s.mutexes[m].waiters) {
      forall k, w | 0 <= k < |r.mutexes| && r.mutexes[k].holder.Some? && w in r.mutexes[k].waiters
        ensures r.mutexes[k].holder.value < |r.tasks| && w < |r.tasks|
        ensures r.tasks[w].prio <= r.tasks[r.mutexes[k].holder.value].prio
      {
        assert w in s.mutexes[k].waiters;
      }
    }
  }

  /** The exact condition under which taking a free mutex keeps inheritance, one comparison: the
      first task of the wait list is not above the taker.  It stands for the whole list, which is
      sorted by base priority and of tasks that hold nothing. */
  lemma TakeInheritsIff(s: Sys, t: TaskId, m: MutexId)
    requires Inv(s) && t < |s.tasks| && m < |s.mutexes| && s.mutexes[m].count > 0
    requires s.tasks[t].status.Ready? && s.tasks[t].pc == AtTop(m)
    ensures Inherited(Take(s, t, m)) <==> HighestWaiting(s, m) <= s.tasks[t].prio
  {
    hide Core, Take, Inherited, Successor;
    TakeInherits(s, t, m);
    FirstIsHighest(s, m);
    if AboveAll(s, t, s.mutexes[m].waiters) && s.mutexes[m].waiters != [] {
      assert s.mutexes[m].waiters[0] in s.mutexes[m].waiters;
    }
  }

  /** Under strict priorities no waiter is above the taker: the woken successor is ready. */
  lemma StrictTakerIsAbove(s: Sys, t: TaskId, m: MutexId)
    requires Inv(s) && Highest(s, t) && m < |s.mutexes| && s.mutexes[m].holder.None?
    ensures AboveAll(s, t, s.mutexes[m].waiters)
  {
    hide WaitList, HeldBy, Calls, Counters, Priorities, Inherited;
    if s.mutexes[m].waiters != [] {
      var k :| k in s.mutexes[m].woken && AboveAll(s, k, s.mutexes[m].waiters);
      assert s.tasks[k].status == Ready;
    }
  }

  lemma TakeRest(s: Sys, t: TaskId, m: MutexId)
    requires Core(s) && t < |s.tasks| && m < |s.mutexes| && s.mutexes[m].count > 0
    requires s.tasks[t].status.Ready? && s.tasks[t].pc == AtTop(m)
    ensures Sane(Take(s, t, m)) && Priorities(Take(s, t, m))
    ensures Calls(Take(s, t, m)) && Counters(Take(s, t, m))
  {
    hide WaitList, HeldBy;
  }

  lemma TakeKeepsCore(s: Sys, t: TaskId, m: MutexId)
    requires Core(s) && t < |s.tasks| && m < |s.mutexes| && s.mutexes[m].count > 0
    requires s.tasks[t].status.Ready? && s.tasks[t].pc == AtTop(m)
    ensures Core(Take(s, t, m))
  {
    hide Take, Waiting, Accounts, Priorities, Calls, Counters;
    TakeLists(s, t, m);
    TakeRest(s, t, m);
  }

  lemma TakeSuccessor(s: Sys, t: TaskId, m: MutexId)
    requires Inv(s) && t < |s.tasks| && m < |s.mutexes| && s.mutexes[m].count > 0
    ensures Successor(Take(s, t, m))
  {
    hide WaitList, HeldBy, Inherited, Calls, Counters, Waiting, Priorities;
    var r := Take(s, t, m);
    forall k | 0 <= k < |r.mutexes| && r.mutexes[k].holder.None? && r.mutexes[k].waiters != []
      ensures exists j :: j in r.mutexes[k].woken && AboveAll(r, j, r.mutexes[k].waiters)
    {
      var j :| j in s.mutexes[k].woken && AboveAll(s, j, s.mutexes[k].waiters);
      assert AboveAll(r, j, r.mutexes[k].waiters);
    }
  }

  // ---------- blocking ----------

  /** Woken tasks are ready, at the top and hold nothing; a step that leaves such tasks alone
      leaves the woken sets right. */
  lemma WokenSame(s: Sys, r: Sys)
    requires WokenTasks(s) && |r.tasks| == |s.tasks| && |r.mutexes| == |s.mutexes|
    requires forall x :: 0 <= x < |s.tasks| &&
                         s.tasks[x].held == 0 && s.tasks[x].status == Ready && s.tasks[x].pc.AtTop? ==>
               r.tasks[x].held == 0 && r.tasks[x].status == Ready && r.tasks[x].pc == s.tasks[x].pc
    requires forall m: nat, x: nat :: m < |s.mutexes| && x in r.mutexes[m].woken && x !in s.mutexes[m].woken ==>
               OnItsWay(r, x, m)
    ensures WokenTasks(r)
  {
    forall m: nat, x: nat | m < |r.mutexes| && x in r.mutexes[m].woken
      ensures OnItsWay(r, x, m)
    {
      if x in s.mutexes[m].woken {
        assert OnItsWay(s, x, m);
      }
    }
  }

  lemma BlockedMembers(s: Sys, t: TaskId, m: MutexId, k: MutexId)
    requires Core(s) && t < |s.tasks| && m < |s.mutexes| && k < |s.mutexes|
    requires s.tasks[t].status.Ready?
    requires s.mutexes[m].holder.Some? && s.mutexes[m].holder.value != t
    ensures var r := Block(s, t, m);
            |r.tasks| == |s.tasks| && |r.mutexes| == |s.mutexes|
            && forall x :: 0 <= x < |s.tasks| ==>
                 (x in r.mutexes[k].waiters <==> r.tasks[x].status == WaitingOn(k))
  {
    hide HeldBy, Calls, Counters, InsertWaiter, WokenTasks, SortedByBase, Accounts, Priorities, Pcs;
    assert WaitList(s, k, s.mutexes[k].waiters);
    forall x | 0 <= x < |s.tasks|
      ensures x in Block(s, t, m).mutexes[k].waiters <==> Block(s, t, m).tasks[x].status == WaitingOn(k)
    {
      InsertWaiterMember(s.tasks, s.mutexes[m].waiters, t, x);
    }
  }

  lemma BlockWaitLists(s: Sys, t: TaskId, m: MutexId)
    requires Core(s) && t < |s.tasks| && m < |s.mutexes| && s.tasks[t].held == 0
    requires s.tasks[t].status.Ready? && s.tasks[t].pc == Deciding(m)
    requires s.mutexes[m].holder.Some? && s.mutexes[m].holder.value != t
    ensures WaitLists(Block(s, t, m))
  {
    hide HeldBy, Calls, Counters, InsertWaiter, WokenTasks, Accounts, Pcs;
    var r, w := Block(s, t, m), s.mutexes[m].waiters;
    assert WaitList(s, m, w);
    assert AtBase(s.tasks, w);
    assert t !in w;
    InsertWaiterSorted(s.tasks, w, t);
    forall k | 0 <= k < |r.mutexes|
      ensures WaitList(r, k, r.mutexes[k].waiters)
    {
      assert WaitList(s, k, s.mutexes[k].waiters);
      BlockedMembers(s, t, m, k);
    }
  }

  lemma BlockLists(s: Sys, t: TaskId, m: MutexId)
    requires Core(s) && t < |s.tasks| && m < |s.mutexes| && s.tasks[t].held == 0
    requires s.tasks[t].status.Ready? && s.tasks[t].pc == Deciding(m)
    requires s.mutexes[m].holder.Some? && s.mutexes[m].holder.value != t
    ensures Waiting(Block(s, t, m))
  {
    hide HeldBy, Calls, Counters, Inherited, Successor, InsertWaiter, WaitLists, WokenTasks, Priorities;
    BlockWaitLists(s, t, m);
    HolderHolds(s, m);
    WokenSame(s, Block(s, t, m));
  }

  lemma BlockInherits(s: Sys, t: TaskId, m: MutexId)
    requires Inv(s) && t < |s.tasks| && m < |s.mutexes| && s.tasks[t].held == 0
    requires s.mutexes[m].holder.Some? && s.mutexes[m].holder.value != t
    ensures Inherited(Block(s, t, m))
  {
    hide HeldBy, Calls, Counters, Successor, InsertWaiter, SortedByBase;
    var r := Block(s, t, m);
    var h := s.mutexes[m].holder.value;
    forall k, w | 0 <= k < |r.mutexes| && r.mutexes[k].holder.Some? && w in r.mutexes[k].waiters
      ensures r.mutexes[k].holder.value < |r.tasks| && w < |r.tasks|
      ensures r.tasks[w].prio <= r.tasks[r.mutexes[k].holder.value].prio
    {
      HoldsNothing(s, t, k);
      assert WaitList(s, k, s.mutexes[k].waiters);
      InsertWaiterMember(s.tasks, s.mutexes[m].waiters, t, w);
      if w != t {
        assert w in s.mutexes[k].waiters;
        WaiterIsNotHolder(s, w, k, m);
      }
    }
  }

  lemma WaiterIsNotHolder(s: Sys, w: TaskId, k: MutexId, m: MutexId)
    requires Core(s) && k < |s.mutexes| && m < |s.mutexes| && w in s.mutexes[k].waiters
    ensures w < |s.tasks| && s.tasks[w].held == 0 && s.mutexes[m].holder != Some(w)
    ensures s.tasks[w].prio == s.tasks[w].base
  {
    hide HeldBy, Calls, Counters, Successor, Inherited;
    assert WaitList(s, k, s.mutexes[k].waiters);
    HoldsNothing(s, w, m);
  }

  lemma BlockRest(s: Sys, t: TaskId, m: MutexId)
    requires Core(s) && t < |s.tasks| && m < |s.mutexes| && s.tasks[t].held == 0
    requires s.tasks[t].status.Ready? && s.tasks[t].pc == Deciding(m)
    requires s.mutexes[m].holder.Some? && s.mutexes[m].holder.value != t
    ensures Accounts(Block(s, t, m)) && Sane(Block(s, t, m)) && Priorities(Block(s, t, m))
  {
    hide HeldBy, Calls, Counters, Successor, Inherited, WaitList, InsertWaiter;
    var r := Block(s, t, m);
    HolderHolds(s, m);
    AccountsSame(s, r);
    forall i | 0 <= i < |r.mutexes[m].waiters|
      ensures r.mutexes[m].waiters[i] < |r.tasks|
    {
      InsertWaiterMember(s.tasks, s.mutexes[m].waiters, t, r.mutexes[m].waiters[i]);
    }
  }

  lemma HolderHolds(s: Sys, m: MutexId)
    requires Core(s) && m < |s.mutexes| && s.mutexes[m].holder.Some?
    ensures s.mutexes[m].holder.value < |s.tasks| && s.tasks[s.mutexes[m].holder.value].held > 0
  {
    assert m in HeldBy(s, s.mutexes[m].holder.value);
  }

  lemma BlockSuccessor(s: Sys, t: TaskId, m: MutexId)
    requires Inv(s) && t < |s.tasks| && m < |s.mutexes| && s.tasks[t].held == 0
    requires s.tasks[t].status.Ready? && s.tasks[t].pc == Deciding(m)
    requires s.mutexes[m].holder.Some? && s.mutexes[m].holder.value != t
    ensures Successor(Block(s, t, m))
  {
    hide HeldBy, Inherited, SortedByBase, InsertWaiter, Calls, Counters;
    var r := Block(s, t, m);
    HolderHolds(s, m);
    forall k | 0 <= k < |r.mutexes| && r.mutexes[k].holder.None? && r.mutexes[k].waiters != []
      ensures exists j :: j in r.mutexes[k].woken && AboveAll(r, j, r.mutexes[k].waiters)
    {
      var j :| j in s.mutexes[k].woken && AboveAll(s, j, s.mutexes[k].waiters);
      forall x | x in r.mutexes[k].waiters
        ensures x < |r.tasks| && r.tasks[x].prio <= r.tasks[j].prio
      {
        WaiterIsNotHolder(s, x, k, m);
      }
      assert AboveAll(r, j, r.mutexes[k].waiters);
    }
  }

  lemma BlockCalls(s: Sys, t: TaskId, m: MutexId)
    requires Core(s) && t < |s.tasks| && m < |s.mutexes| && s.tasks[t].held == 0
    requires s.tasks[t].status.Ready? && s.tasks[t].pc == Deciding(m)
    requires s.mutexes[m].holder.Some? && s.mutexes[m].holder.value != t
    ensures Calls(Block(s, t, m)) && Counters(Block(s, t, m))
  {
    hide HeldBy, SortedByBase, InsertWaiter, Waiting, Priorities, Accounts;
    HoldsNothing(s, t, m);
  }

  lemma BlockKeepsCore(s: Sys, t: TaskId, m: MutexId)
    requires Core(s) && t < |s.tasks| && m < |s.mutexes| && s.tasks[t].held == 0
    requires s.tasks[t].status.Ready? && s.tasks[t].pc == Deciding(m)
    requires s.mutexes[m].holder.Some? && s.mutexes[m].holder.value != t
    ensures Core(Block(s, t, m))
  {
    hide Block, Waiting, Accounts, Priorities, Calls, Counters;
    BlockLists(s, t, m);
    BlockRest(s, t, m);
    BlockCalls(s, t, m);
  }

  // ---------- giving up after a timeout ----------

  /** The first waiter is the most urgent one. */
  lemma FirstIsHighest(s: Sys, m: MutexId)
    requires Core(s) && m < |s.mutexes|
    ensures forall x :: x in s.mutexes[m].waiters ==> x < |s.tasks| && s.tasks[x].prio <= HighestWaiting(s, m)
  {
    hide HeldBy, Calls, Counters, Inherited, Successor;
    var w := s.mutexes[m].waiters;
    assert WaitList(s, m, w);
    forall x | x in w
      ensures x < |s.tasks| && s.tasks[x].prio <= HighestWaiting(s, m)
    {
      WaiterIsNotHolder(s, x, m, m);
      WaiterIsNotHolder(s, w[0], m, m);
    }
  }

  /** With one mutex held, the holder drops to its base priority or to the most urgent task that
      still waits, whichever is higher. */
  lemma DisinheritInherits(s: Sys, t: TaskId)
    requires Inv(s) && Enabled(s, Event.Disinherit(t))
    ensures Inherited(Step(s, Event.Disinherit(t)))
  {
    hide HeldBy, Calls, Counters, Successor, WaitList, HighestWaiting;
    var m, r := s.tasks[t].pc.m, Step(s, Event.Disinherit(t));
    if s.mutexes[m].holder.Some? {
      var h := s.mutexes[m].holder.value;
      FirstIsHighest(s, m);
      forall k, w | 0 <= k < |r.mutexes| && r.mutexes[k].holder.Some? && w in r.mutexes[k].waiters
        ensures r.mutexes[k].holder.value < |r.tasks| && w < |r.tasks|
        ensures r.tasks[w].prio <= r.tasks[r.mutexes[k].holder.value].prio
      {
        assert w in s.mutexes[k].waiters;
        WaiterIsNotHolder(s, w, k, m);
        if s.mutexes[k].holder == Some(h) && s.tasks[h].held == 1 {
          OnlyMutex(s, h, m, k);
        }
      }
    }
  }

  lemma OnlyMutex(s: Sys, h: TaskId, m: MutexId, k: MutexId)
    requires Accounts(s) && h < |s.tasks| && s.tasks[h].held == 1 && m < |s.mutexes| && k < |s.mutexes|
    requires s.mutexes[m].holder == Some(h) && s.mutexes[k].holder == Some(h)
    ensures k == m
  {
    OnlyOne(s, h, m, k);
  }

  lemma DisinheritLists(s: Sys, t: TaskId)
    requires Core(s) && Enabled(s, Event.Disinherit(t))
    ensures Waiting(Step(s, Event.Disinherit(t))) && Accounts(Step(s, Event.Disinherit(t)))
    ensures Sane(Step(s, Event.Disinherit(t))) && Priorities(Step(s, Event.Disinherit(t)))
  {
    hide HeldBy, Calls, Counters, Successor, Inherited, WaitList, HighestWaiting;
    var r := Step(s, Event.Disinherit(t));
    AccountsSame(s, r);
    WaitingSame(s, r);
  }

  lemma DisinheritCalls(s: Sys, t: TaskId)
    requires Core(s) && Enabled(s, Event.Disinherit(t))
    ensures Calls(Step(s, Event.Disinherit(t))) && Counters(Step(s, Event.Disinherit(t)))
  {
    hide HeldBy, HighestWaiting, Priorities, Accounts, Waiting;
  }

  lemma DisinheritSuccessor(s: Sys, t: TaskId)
    requires Inv(s) && Enabled(s, Event.Disinherit(t))
    ensures Successor(Step(s, Event.Disinherit(t)))
  {
    hide HeldBy, Inherited, WaitList, HighestWaiting, Calls, Counters;
    var m, r := s.tasks[t].pc.m, Step(s, Event.Disinherit(t));
    if s.mutexes[m].holder.Some? {
      HolderHolds(s, m);
      SuccessorElsewhere(s, r, s.mutexes[m].holder.value);
    }
  }

  /** Only a holder's priority has changed, and no woken or waiting task is a holder. */
  lemma SuccessorElsewhere(s: Sys, r: Sys, h: TaskId)
    requires Inv(s) && |r.tasks| == |s.tasks| && r.mutexes == s.mutexes && h < |s.tasks| && s.tasks[h].held > 0
    requires forall t :: 0 <= t < |s.tasks| && t != h ==> r.tasks[t].prio == s.tasks[t].prio
    ensures Successor(r)
  {
    hide HeldBy, Inherited, Calls, Counters, Accounts;
    forall k | 0 <= k < |r.mutexes| && r.mutexes[k].holder.None? && r.mutexes[k].waiters != []
      ensures exists j :: j in r.mutexes[k].woken && AboveAll(r, j, r.mutexes[k].waiters)
    {
      var j :| j in s.mutexes[k].woken && AboveAll(s, j, s.mutexes[k].waiters);
      assert WaitList(s, k, s.mutexes[k].waiters);
      assert AboveAll(r, j, r.mutexes[k].waiters);
    }
  }

  lemma DisinheritKeepsCore(s: Sys, t: TaskId)
    requires Core(s) && Enabled(s, Event.Disinherit(t))
    ensures Core(Step(s, Event.Disinherit(t)))
  {
    hide Step, Waiting, Accounts, Priorities, Calls, Counters;
    DisinheritLists(s, t);
    DisinheritCalls(s, t);
  }

  // ---------- giving ----------

  lemma GiveAccounts(s: Sys, t: TaskId, m: MutexId)
    requires Core(s) && Enabled(s, Give(t, m))
    ensures Accounts(GiveBack(s, t, m)) && Sane(GiveBack(s, t, m)) && Priorities(GiveBack(s, t, m))
  {
    hide HeldBy, Inherited, WaitList, Calls, Counters, Successor;
    var r := GiveBack(s, t, m);
    HeldByGain(r, s, t, m);
  }

  lemma GivenWaitList(s: Sys, t: TaskId, m: MutexId)
    requires Core(s) && Enabled(s, Give(t, m))
    ensures WaitList(GiveBack(s, t, m), m, GiveBack(s, t, m).mutexes[m].waiters)
  {
    hide HeldBy, Calls, Counters, WokenTasks, Accounts, Priorities;
    var w := s.mutexes[m].waiters;
    assert WaitList(s, m, w);
    if w != [] {
      assert forall x :: x in w <==> x == w[0] || x in w[1..];
    }
  }

  lemma GiveWaitLists(s: Sys, t: TaskId, m: MutexId)
    requires Core(s) && Enabled(s, Give(t, m))
    ensures WaitLists(GiveBack(s, t, m))
  {
    hide HeldBy, Calls, Counters, WokenTasks, Accounts, Priorities;
    var r, w := GiveBack(s, t, m), s.mutexes[m].waiters;
    assert WaitList(s, m, w);
    assert w != [] ==> s.tasks[w[0]].status == WaitingOn(m);
    forall k | 0 <= k < |r.mutexes|
      ensures WaitList(r, k, r.mutexes[k].waiters)
    {
      if k == m {
        GivenWaitList(s, t, m);
      } else {
        assert WaitList(s, k, s.mutexes[k].waiters);
      }
    }
  }

  lemma GiveWoken(s: Sys, t: TaskId, m: MutexId)
    requires Core(s) && Enabled(s, Give(t, m))
    ensures WokenTasks(GiveBack(s, t, m))
  {
    hide HeldBy, Inherited, Calls, Counters, Successor, WokenTasks, Priorities, Accounts, SortedByBase;
    assert WaitList(s, m, s.mutexes[m].waiters);
    WokenSame(s, GiveBack(s, t, m));
  }

  lemma GiveLists(s: Sys, t: TaskId, m: MutexId)
    requires Core(s) && Enabled(s, Give(t, m))
    ensures Waiting(GiveBack(s, t, m))
  {
    hide HeldBy, Inherited, Calls, Counters, Successor, WokenTasks, WaitLists, Priorities, Accounts;
    GiveWaitLists(s, t, m);
    GiveWoken(s, t, m);
  }

  lemma GiveInherits(s: Sys, t: TaskId, m: MutexId)
    requires Inv(s) && Enabled(s, Give(t, m))
    ensures Inherited(GiveBack(s, t, m))
  {
    hide HeldBy, WaitList, Calls, Counters, Successor;
    var r := GiveBack(s, t, m);
    forall k, w | 0 <= k < |r.mutexes| && r.mutexes[k].holder.Some? && w in r.mutexes[k].waiters
      ensures r.mutexes[k].holder.value < |r.tasks| && w < |r.tasks|
      ensures r.tasks[w].prio <= r.tasks[r.mutexes[k].holder.value].prio
    {
      assert w in s.mutexes[k].waiters && k != m;
      WaiterIsNotHolder(s, w, k, m);
      if s.mutexes[k].holder == Some(t) && s.tasks[t].held == 1 {
        OnlyMutex(s, t, m, k);
      }
    }
  }

  /** The woken task is the successor: the waiters it leaves behind are not above it. */
  lemma GiveSuccessor(s: Sys, t: TaskId, m: MutexId)
    requires Inv(s) && Enabled(s, Give(t, m))
    ensures Successor(GiveBack(s, t, m))
  {
    hide HeldBy, WaitList, Calls, Counters, Inherited;
    var r, w := GiveBack(s, t, m), s.mutexes[m].waiters;
    FirstIsHighest(s, m);
    forall k | 0 <= k < |r.mutexes| && r.mutexes[k].holder.None? && r.mutexes[k].waiters != []
      ensures exists j :: j in r.mutexes[k].woken && AboveAll(r, j, r.mutexes[k].waiters)
    {
      if k == m {
        GivenAbove(s, t, m);
        assert w[0] in r.mutexes[m].woken;
      } else {
        var j :| j in s.mutexes[k].woken && AboveAll(s, j, s.mutexes[k].waiters);
        forall x | x in s.mutexes[k].waiters
          ensures x < |r.tasks| && r.tasks[x].prio <= r.tasks[j].prio
        {
          WaiterIsNotHolder(s, x, k, m);
        }
        assert AboveAll(r, j, r.mutexes[k].waiters);
      }
    }
  }

  lemma GivenAbove(s: Sys, t: TaskId, m: MutexId)
    requires Core(s) && Enabled(s, Give(t, m)) && |s.mutexes[m].waiters| > 1
    ensures AboveAll(GiveBack(s, t, m), s.mutexes[m].waiters[0], s.mutexes[m].waiters[1..])
  {
    hide HeldBy, WaitList, Calls, Counters, Inherited, Successor;
    var r, w := GiveBack(s, t, m), s.mutexes[m].waiters;
    FirstIsHighest(s, m);
    WaiterIsNotHolder(s, w[0], m, m);
    forall x | x in w[1..]
      ensures x < |r.tasks| && r.tasks[x].prio <= r.tasks[w[0]].prio
    {
      assert x in w;
      WaiterIsNotHolder(s, x, m, m);
    }
  }

  lemma GiveCalls(s: Sys, t: TaskId, m: MutexId)
    requires Core(s) && Enabled(s, Give(t, m))
    ensures Calls(GiveBack(s, t, m)) && Counters(GiveBack(s, t, m))
  {
    hide HeldBy, WaitList, WokenTasks, Inherited, Successor, Priorities, Accounts, Disinherited;
    var r := GiveBack(s, t, m);
    assert forall k :: 0 <= k < |s.mutexes| && k != m ==> r.mutexes[k] == s.mutexes[k];
    assert forall x :: 0 <= x < |s.tasks| && x != t ==> r.tasks[x].pc == s.tasks[x].pc;
  }

  lemma GiveKeepsCore(s: Sys, t: TaskId, m: MutexId)
    requires Core(s) && Enabled(s, Give(t, m))
    ensures Core(GiveBack(s, t, m))
  {
    hide GiveBack, Waiting, Accounts, Priorities, Calls, Counters;
    GiveAccounts(s, t, m);
    GiveLists(s, t, m);
    GiveCalls(s, t, m);
  }

  // ---------- timing out ----------

  lemma ExpireWaitLists(s: Sys, t: TaskId)
    requires Core(s) && Enabled(s, Expire(t))
    ensures WaitLists(Step(s, Expire(t)))
  {
    hide HeldBy, Inherited, Calls, Counters, Successor, DropWaiter, WokenTasks;
    var m, r := s.tasks[t].status.m, Step(s, Expire(t));
    var w := s.mutexes[m].waiters;
    assert WaitList(s, m, w);
    DropWaiterSorted(s.tasks, w, t);
    forall k | 0 <= k < |r.mutexes|
      ensures WaitList(r, k, r.mutexes[k].waiters)
    {
      assert WaitList(s, k, s.mutexes[k].waiters);
      forall x | 0 <= x < |r.tasks|
        ensures x in r.mutexes[k].waiters <==> r.tasks[x].status == WaitingOn(k)
      {
        DropWaiterMember(w, t, x);
      }
    }
  }

  lemma ExpireLists(s: Sys, t: TaskId)
    requires Core(s) && Enabled(s, Expire(t))
    ensures Waiting(Step(s, Expire(t))) && Accounts(Step(s, Expire(t)))
  {
    hide HeldBy, Inherited, Calls, Counters, Successor, DropWaiter, WaitLists, WokenTasks;
    ExpireWaitLists(s, t);
    AccountsSame(s, Step(s, Expire(t)));
    WokenSame(s, Step(s, Expire(t)));
  }

  lemma FewerWaiters(s: Sys, t: TaskId, m: MutexId, x: TaskId)
    requires Core(s) && m < |s.mutexes|
    ensures x in DropWaiter(s.mutexes[m].waiters, t) ==> x in s.mutexes[m].waiters
  {
    hide HeldBy, Inherited, Calls, Counters, Successor;
    assert WaitList(s, m, s.mutexes[m].waiters);
    DropWaiterMember(s.mutexes[m].waiters, t, x);
  }

  lemma ExpireRest(s: Sys, t: TaskId)
    requires Core(s) && Enabled(s, Expire(t))
    ensures Priorities(Step(s, Expire(t))) && Calls(Step(s, Expire(t))) && Counters(Step(s, Expire(t)))
    ensures Sane(Step(s, Expire(t)))
  {
    hide HeldBy, WaitList, DropWaiter, Accounts, WaitLists, WokenTasks;
    var m, r := s.tasks[t].status.m, Step(s, Expire(t));
    forall i | 0 <= i < |r.mutexes[m].waiters|
      ensures r.mutexes[m].waiters[i] < |r.tasks|
    {
      FewerWaiters(s, t, m, r.mutexes[m].waiters[i]);
      assert r.mutexes[m].waiters[i] in s.mutexes[m].waiters;
    }
  }

  lemma ExpireInherits(s: Sys, t: TaskId)
    requires Inv(s) && Enabled(s, Expire(t))
    ensures Inherited(Step(s, Expire(t)))
  {
    hide HeldBy, WaitList, DropWaiter, Successor, Calls, Counters, WaitLists, WokenTasks;
    var m, r := s.tasks[t].status.m, Step(s, Expire(t));
    forall k, w | 0 <= k < |r.mutexes| && r.mutexes[k].holder.Some? && w in r.mutexes[k].waiters
      ensures r.mutexes[k].holder.value < |r.tasks| && w < |r.tasks|
      ensures r.tasks[w].prio <= r.tasks[r.mutexes[k].holder.value].prio
    {
      FewerWaiters(s, t, m, w);
      assert w in s.mutexes[k].waiters;
    }
  }

  lemma ExpireSuccessor(s: Sys, t: TaskId)
    requires Inv(s) && Enabled(s, Expire(t))
    ensures Successor(Step(s, Expire(t)))
  {
    hide HeldBy, WaitList, DropWaiter, Calls, Counters, Inherited, Waiting;
    var m, r := s.tasks[t].status.m, Step(s, Expire(t));
    forall k | 0 <= k < |r.mutexes| && r.mutexes[k].holder.None? && r.mutexes[k].waiters != []
      ensures exists j :: j in r.mutexes[k].woken && AboveAll(r, j, r.mutexes[k].waiters)
    {
      if k == m {
        FewerWaiters(s, t, m, r.mutexes[m].waiters[0]);
      }
      var j :| j in s.mutexes[k].woken && AboveAll(s, j, s.mutexes[k].waiters);
      forall x | x in r.mutexes[k].waiters
        ensures x < |r.tasks| && r.tasks[x].prio <= r.tasks[j].prio
      {
        FewerWaiters(s, t, m, x);
        assert x in s.mutexes[k].waiters;
      }
      assert AboveAll(r, j, r.mutexes[k].waiters);
    }
  }

  lemma ExpireKeepsCore(s: Sys, t: TaskId)
    requires Core(s) && Enabled(s, Expire(t))
    ensures Core(Step(s, Expire(t)))
  {
    hide Step, Waiting, Accounts, Priorities, Calls, Counters;
    ExpireLists(s, t);
    ExpireRest(s, t);
  }

  // ---------- every step ----------

  /** Accounting, wait lists and recursive call counts survive every step, whatever the scheduler
      does. */
  lemma StepKeepsCore(s: Sys, ev: Event)
    requires Core(s) && Enabled(s, ev)
    ensures Core(Step(s, ev))
  {
    hide Core, Take, Block, GiveBack;
    match ev
    case Top(t) =>
      if s.mutexes[s.tasks[t].pc.m].count > 0 {
        TakeKeepsCore(s, t, s.tasks[t].pc.m);
      } else {
        SimpleKeepsCore(s, ev);
      }
    case Decide(t, expired, _) =>
      if !expired && s.mutexes[s.tasks[t].pc.m].count == 0 {
        BlockKeepsCore(s, t, s.tasks[t].pc.m);
      } else {
        SimpleKeepsCore(s, ev);
      }
    case Disinherit(t) => DisinheritKeepsCore(s, t);
    case Give(t, m) => GiveKeepsCore(s, t, m);
    case Expire(t) => ExpireKeepsCore(s, t);
    case _ => SimpleKeepsCore(s, ev);
  }

  /** The one step that breaks inheritance: a task takes a free mutex for which a more urgent one
      waits. */
  predicate Overtakes(s: Sys, ev: Event)
    requires Enabled(s, ev)
  {
    ev.Top? && s.mutexes[s.tasks[ev.t].pc.m].count > 0 && HighestWaiting(s, s.tasks[ev.t].pc.m) > s.tasks[ev.t].prio
  }

  /** A strict-priority schedule has no such step. */
  lemma StrictNeverOvertakes(s: Sys, ev: Event)
    requires Inv(s) && Enabled(s, ev) && Strict(s, ev)
    ensures !Overtakes(s, ev)
  {
    hide Core, Inherited, Successor, AboveAll, Highest, Take;
    if ev.Top? && s.mutexes[s.tasks[ev.t].pc.m].count > 0 {
      FreeHasNoHolder(s, s.tasks[ev.t].pc.m);
      StrictTakerIsAbove(s, ev.t, s.tasks[ev.t].pc.m);
      FirstIsBelow(s, ev.t, s.tasks[ev.t].pc.m);
    }
  }

  lemma FirstIsBelow(s: Sys, t: TaskId, m: MutexId)
    requires Core(s) && m < |s.mutexes| && AboveAll(s, t, s.mutexes[m].waiters)
    ensures HighestWaiting(s, m) <= s.tasks[t].prio
  {
    hide Core;
    if s.mutexes[m].waiters != [] {
      assert s.mutexes[m].waiters[0] in s.mutexes[m].waiters;
    }
  }

  lemma TopKeepsInherited(s: Sys, ev: Event)
    requires Inv(s) && Enabled(s, ev) && ev.Top?
    ensures Inherited(Step(s, ev)) <==> !Overtakes(s, ev)
    ensures Successor(Step(s, ev))
  {
    hide Core, Inherited, Successor, Take;
    var t, m := ev.t, s.tasks[ev.t].pc.m;
    if s.mutexes[m].count > 0 {
      FreeHasNoHolder(s, m);
      TakeInheritsIff(s, t, m);
      TakeSuccessor(s, t, m);
    } else {
      SimpleInherits(s, ev);
    }
  }

  lemma FreeHasNoHolder(s: Sys, m: MutexId)
    requires Core(s) && m < |s.mutexes| && s.mutexes[m].count > 0
    ensures s.mutexes[m].holder.None?
  {
    hide HeldBy, Waiting, Calls, Counters;
  }

  /** Single-level inheritance survives every step but that one, whatever the schedule. */
  lemma InheritedKeptIff(s: Sys, ev: Event)
    requires Inv(s) && Enabled(s, ev)
    ensures Inherited(Step(s, ev)) <==> !Overtakes(s, ev)
    ensures Successor(Step(s, ev))
  {
    hide Inv, Take, Block, GiveBack, HighestWaiting;
    match ev
    case Top(t) => TopKeepsInherited(s, ev);
    case Decide(t, expired, _) =>
      if !expired && s.mutexes[s.tasks[t].pc.m].count == 0 {
        BlockInherits(s, t, s.tasks[t].pc.m);
        BlockSuccessor(s, t, s.tasks[t].pc.m);
      } else {
        SimpleInherits(s, ev);
      }
    case Disinherit(t) =>
      DisinheritInherits(s, t);
      DisinheritSuccessor(s, t);
    case Give(t, m) =>
      GiveInherits(s, t, m);
      GiveSuccessor(s, t, m);
    case Expire(t) =>
      ExpireInherits(s, t);
      ExpireSuccessor(s, t);
    case _ => SimpleInherits(s, ev);
  }

  lemma StepKeepsInv(s: Sys, ev: Event)
    requires Inv(s) && Enabled(s, ev) && !Overtakes(s, ev)
    ensures Inv(Step(s, ev))
  {
    hide Core, Inherited, Successor, Step, Enabled, Overtakes;
    StepKeepsCore(s, ev);
    InheritedKeptIff(s, ev);
  }
}
