/** Priority inheritance goes no further than it must: when tasks take one mutex at a time, a
    raised priority is always owed to a task that waits, or has not yet left the call in which it
    waited. */
module MutexExact {
  import opened Common
  import opened MutexProtocol
  import opened MutexRuns

  /** The task no longer waits for m but is still in the call in which it did, and will lower the
      holder's priority if it gives up. */
  predicate Leaving(x: Task, m: MutexId) {
    && x.status == Ready && x.inherited
    && ((x.pc == AtTop(m) && x.ticks) || x.pc == Deciding(m) || x.pc == TimedOut(m) || x.pc == Disinheriting(m))
  }

  /** Holder h has task x's priority because of mutex m. */
  ghost predicate Backs(s: Sys, x: TaskId, h: TaskId, m: MutexId) {
    && x < |s.tasks| && h < |s.tasks| && s.tasks[x].prio == s.tasks[h].prio
    && ((s.tasks[x].status == WaitingOn(m) && s.tasks[x].inherited) || Leaving(s.tasks[x], m))
  }

  ghost predicate Justified(s: Sys, h: TaskId) {
    exists m: MutexId, x: TaskId :: Holds(s, h, m) && Backs(s, x, h, m)
  }

  ghost predicate Exact(s: Sys) {
    forall h: TaskId :: h < |s.tasks| && s.tasks[h].prio > s.tasks[h].base ==> Justified(s, h)
  }

  /** A task that sleeps is in no call; one that waits, or is about to, has time left. */
  predicate CallOk(x: Task) {
    && (x.status.Sleeping? ==> x.pc == Free)
    && (x.status.WaitingOn? || x.pc.Deciding? ==> x.ticks)
  }

  /** And one that waited holds nothing. */
  predicate TransitOk(x: Task) {
    && CallOk(x)
    && (x.pc != Free && Leaving(x, x.pc.m) ==> x.held == 0)
  }

  ghost predicate Transit(s: Sys) {
    forall x: TaskId :: x < |s.tasks| ==> TransitOk(s.tasks[x])
  }

  /** A waiter above the base priority of the holder knows that it was inherited from. */
  ghost predicate FlagOk(s: Sys, m: MutexId, w: TaskId)
    requires m < |s.mutexes|
  {
    s.mutexes[m].holder.Some? && w < |s.tasks| && s.mutexes[m].holder.value < |s.tasks|
    && s.tasks[w].prio > s.tasks[s.mutexes[m].holder.value].base
    ==> s.tasks[w].inherited
  }

  ghost predicate WaiterFlags(s: Sys) {
    forall m: MutexId, w: TaskId :: m < |s.mutexes| && w in s.mutexes[m].waiters ==> FlagOk(s, m, w)
  }

  ghost predicate OneEach(s: Sys) {
    forall t: TaskId :: t < |s.tasks| ==> s.tasks[t].held <= 1
  }

  ghost predicate ExactInv(s: Sys) {
    Inv(s) && Exact(s) && Transit(s) && WaiterFlags(s) && OneEach(s)
  }

  /** Tasks take one mutex at a time. */
  predicate OneAtATime(s: Sys, ev: Event)
    requires Enabled(s, ev)
  {
    ev.Top? && s.mutexes[s.tasks[ev.t].pc.m].count > 0 ==> s.tasks[ev.t].held == 0
  }

  // ---------- steps that change no priority ----------

  /** Every task that backs another one still does. */
  lemma ExactSame(s: Sys, r: Sys)
    requires Exact(s) && |r.tasks| == |s.tasks| && |r.mutexes| == |s.mutexes|
    requires forall t: TaskId :: t < |s.tasks| ==>
               r.tasks[t].prio == s.tasks[t].prio && r.tasks[t].base == s.tasks[t].base
    requires forall h: TaskId, m: MutexId ::
               h < |s.tasks| && s.tasks[h].prio > s.tasks[h].base && Holds(s, h, m) ==> Holds(r, h, m)
    requires forall x: TaskId, h: TaskId, m: MutexId :: Holds(s, h, m) && Backs(s, x, h, m) ==> Backs(r, x, h, m)
    ensures Exact(r)
  {
    hide Backs, Holds;
    forall h: TaskId | h < |r.tasks| && r.tasks[h].prio > r.tasks[h].base
      ensures Justified(r, h)
    {
      var m: MutexId, x: TaskId :| Holds(s, h, m) && Backs(s, x, h, m);
      assert Backs(r, x, h, m);
    }
  }

  lemma SimpleFrame(s: Sys, ev: Event)
    requires Enabled(s, ev) && Simple(s, ev)
    ensures var r := Step(s, ev);
            && |r.tasks| == |s.tasks| && |r.mutexes| == |s.mutexes| && !s.tasks[ev.t].status.WaitingOn?
            && (forall u :: 0 <= u < |s.tasks| ==>
                  && (u != ev.t ==> r.tasks[u] == s.tasks[u])
                  && r.tasks[u].prio == s.tasks[u].prio && r.tasks[u].base == s.tasks[u].base)
            && (forall m :: 0 <= m < |s.mutexes| ==>
                  r.mutexes[m].holder == s.mutexes[m].holder && r.mutexes[m].waiters == s.mutexes[m].waiters)
  {
  }

  lemma SimpleBacks(s: Sys, ev: Event, x: TaskId, h: TaskId, m: MutexId)
    requires Core(s) && Enabled(s, ev) && Simple(s, ev) && Holds(s, h, m) && Backs(s, x, h, m)
    ensures Backs(Step(s, ev), x, h, m)
  {
    hide WaitList, HeldBy, Calls, Counters, Waiting, Priorities, InRange;
    assert s.mutexes[m].count == 0;
  }

  lemma SimpleExact(s: Sys, ev: Event)
    requires ExactInv(s) && Enabled(s, ev) && Simple(s, ev)
    ensures Exact(Step(s, ev))
  {
    hide Exact, Core, Step, Enabled, Simple, Inherited, Successor, Transit, WaiterFlags, OneEach, Backs;
    SimpleFrame(s, ev);
    forall x: TaskId, h: TaskId, m: MutexId | Holds(s, h, m) && Backs(s, x, h, m)
      ensures Backs(Step(s, ev), x, h, m)
    {
      SimpleBacks(s, ev, x, h, m);
    }
    ExactSame(s, Step(s, ev));
  }

  lemma SimpleRest(s: Sys, ev: Event)
    requires ExactInv(s) && Enabled(s, ev) && Simple(s, ev)
    ensures Transit(Step(s, ev)) && OneEach(Step(s, ev))
  {
    hide Exact, WaitList, HeldBy, Calls, Counters, Inherited, Successor, WaiterFlags, Waiting, Priorities, Accounts;
    var r := Step(s, ev);
    forall x: TaskId | x < |r.tasks|
      ensures TransitOk(r.tasks[x])
    {
      assert TransitOk(s.tasks[x]);
    }
  }

  lemma SimpleFlags(s: Sys, ev: Event)
    requires ExactInv(s) && Enabled(s, ev) && Simple(s, ev)
    ensures WaiterFlags(Step(s, ev))
  {
    hide Exact, Step, Enabled, Simple, HeldBy, Calls, Counters, Inherited, Successor, Transit, OneEach, Priorities,
        Accounts, WaitingTasks, WokenTasks, Pcs;
    SimpleFrame(s, ev);
    var r := Step(s, ev);
    forall m: MutexId, w: TaskId | m < |r.mutexes| && w in r.mutexes[m].waiters
      ensures FlagOk(r, m, w)
    {
      assert WaitList(s, m, s.mutexes[m].waiters);
      assert FlagOk(s, m, w);
    }
  }

  lemma SimpleKeepsExact(s: Sys, ev: Event)
    requires ExactInv(s) && Enabled(s, ev) && Simple(s, ev)
    ensures Exact(Step(s, ev)) && Transit(Step(s, ev)) && WaiterFlags(Step(s, ev)) && OneEach(Step(s, ev))
  {
    SimpleExact(s, ev);
    SimpleRest(s, ev);
    SimpleFlags(s, ev);
  }

  // ---------- taking ----------

  lemma TakeKeepsExact(s: Sys, t: TaskId, m: MutexId)
    requires ExactInv(s) && t < |s.tasks| && m < |s.mutexes| && s.mutexes[m].count > 0 && s.tasks[t].held == 0
    requires s.tasks[t].status.Ready? && s.tasks[t].pc == AtTop(m)
    ensures Exact(Take(s, t, m)) && Transit(Take(s, t, m)) && OneEach(Take(s, t, m))
  {
    hide Exact, WaitList, HeldBy, Calls, Counters, Inherited, Successor, WaiterFlags, Waiting;
    var r := Take(s, t, m);
    FreeHasNoHolder(s, m);
    forall x: TaskId, h: TaskId, k: MutexId | Holds(s, h, k) && Backs(s, x, h, k)
      ensures Backs(r, x, h, k)
    {
      HolderHolds(s, k);
      assert x != t && h != t;
    }
    ExactSame(s, r);
    forall x: TaskId | x < |r.tasks|
      ensures TransitOk(r.tasks[x])
    {
      assert TransitOk(s.tasks[x]);
    }
  }

  /** The taker is at its base priority and above all who still wait. */
  lemma TakeKeepsFlags(s: Sys, t: TaskId, m: MutexId)
    requires ExactInv(s) && t < |s.tasks| && m < |s.mutexes| && s.mutexes[m].count > 0 && s.tasks[t].held == 0
    requires AboveAll(s, t, s.mutexes[m].waiters)
    ensures WaiterFlags(Take(s, t, m))
  {
    hide Exact, WaitList, HeldBy, Calls, Counters, Inherited, Successor, Waiting, Transit, OneEach;
    var r := Take(s, t, m);
    forall k: MutexId, w: TaskId | k < |r.mutexes| && w in r.mutexes[k].waiters
      ensures FlagOk(r, k, w)
    {
      assert FlagOk(s, k, w);
    }
  }

  // ---------- blocking ----------

  lemma BlockKeepsExact(s: Sys, t: TaskId, m: MutexId)
    requires ExactInv(s) && t < |s.tasks| && m < |s.mutexes| && s.tasks[t].held == 0
    requires s.tasks[t].status.Ready? && s.tasks[t].pc == Deciding(m) && s.tasks[t].ticks
    requires s.mutexes[m].holder.Some? && s.mutexes[m].holder.value != t
    ensures Exact(Block(s, t, m))
  {
    hide WaitList, HeldBy, Calls, Counters, Inherited, Successor, Waiting, WaiterFlags, OneEach, InsertWaiter;
    var r, h := Block(s, t, m), s.mutexes[m].holder.value;
    HolderHolds(s, m);
    assert Holds(r, h, m);
    forall g: TaskId | g < |r.tasks| && r.tasks[g].prio > r.tasks[g].base
      ensures Justified(r, g)
    {
      if g == h && s.tasks[h].prio <= s.tasks[t].prio {
        assert Backs(r, t, h, m);
      } else {
        var k: MutexId, x: TaskId :| Holds(s, g, k) && Backs(s, x, g, k);
        BackerHoldsNothing(s, x, g, k);
        assert Holds(r, g, k) && Backs(r, x, g, k);
      }
    }
  }

  /** A task that backs another one holds nothing, so its own priority is its base priority. */
  lemma BackerHoldsNothing(s: Sys, x: TaskId, h: TaskId, m: MutexId)
    requires ExactInv(s) && Backs(s, x, h, m)
    ensures s.tasks[x].held == 0 && s.tasks[x].prio == s.tasks[x].base
  {
    hide Exact, HeldBy, Calls, Counters, Inherited, Successor, WaitLists, WokenTasks, WaiterFlags;
    assert TransitOk(s.tasks[x]);
  }

  lemma BlockKeepsRest(s: Sys, t: TaskId, m: MutexId)
    requires ExactInv(s) && t < |s.tasks| && m < |s.mutexes| && s.tasks[t].held == 0
    requires s.tasks[t].status.Ready? && s.tasks[t].pc == Deciding(m)
    requires s.mutexes[m].holder.Some? && s.mutexes[m].holder.value != t
    ensures Transit(Block(s, t, m)) && OneEach(Block(s, t, m))
  {
    hide Exact, WaitList, HeldBy, Calls, Counters, Inherited, Successor, Waiting, WaiterFlags, InsertWaiter;
    var r := Block(s, t, m);
    forall x: TaskId | x < |r.tasks|
      ensures TransitOk(r.tasks[x])
    {
      assert TransitOk(s.tasks[x]) && TransitOk(s.tasks[t]);
    }
  }

  lemma BlockKeepsFlags(s: Sys, t: TaskId, m: MutexId)
    requires ExactInv(s) && t < |s.tasks| && m < |s.mutexes| && s.tasks[t].held == 0
    requires s.tasks[t].status.Ready? && s.tasks[t].pc == Deciding(m)
    requires s.mutexes[m].holder.Some? && s.mutexes[m].holder.value != t
    ensures WaiterFlags(Block(s, t, m))
  {
    hide Exact, HeldBy, Calls, Counters, Inherited, Successor, InsertWaiter, Transit, OneEach, WokenTasks;
    var r := Block(s, t, m);
    forall k: MutexId, w: TaskId | k < |r.mutexes| && w in r.mutexes[k].waiters
      ensures FlagOk(r, k, w)
    {
      assert WaitList(s, k, s.mutexes[k].waiters);
      InsertWaiterMember(s.tasks, s.mutexes[m].waiters, t, w);
      if w != t {
        assert FlagOk(s, k, w);
        WaiterIsNotHolder(s, w, k, m);
      }
    }
  }

  // ---------- giving up ----------

  /** With one mutex held, what is left of a raised priority is the most urgent waiter's. */
  lemma DisinheritKeepsExact(s: Sys, t: TaskId)
    requires ExactInv(s) && Enabled(s, Event.Disinherit(t))
    ensures Exact(Step(s, Event.Disinherit(t)))
  {
    hide WaitList, HeldBy, Calls, Counters, Inherited, Successor, Waiting, WaiterFlags, Transit;
    var m, r := s.tasks[t].pc.m, Step(s, Event.Disinherit(t));
    forall g: TaskId | g < |r.tasks| && r.tasks[g].prio > r.tasks[g].base
      ensures Justified(r, g)
    {
      if s.mutexes[m].holder == Some(g) {
        HolderHolds(s, m);
        FirstBacks(s, t, g, m);
      } else {
        var k: MutexId, x: TaskId :| Holds(s, g, k) && Backs(s, x, g, k);
        BackerHoldsNothing(s, x, g, k);
        assert x != t;
        if s.mutexes[m].holder.Some? {
          HolderHolds(s, m);
        }
        assert Holds(r, g, k) && Backs(r, x, g, k);
      }
    }
  }

  lemma FirstBacks(s: Sys, t: TaskId, g: TaskId, m: MutexId)
    requires ExactInv(s) && Enabled(s, Event.Disinherit(t)) && m == s.tasks[t].pc.m
    requires g < |s.tasks| && s.mutexes[m].holder == Some(g) && s.tasks[g].held == 1
    requires Step(s, Event.Disinherit(t)).tasks[g].prio > s.tasks[g].base
    ensures Justified(Step(s, Event.Disinherit(t)), g)
  {
    hide HeldBy, Calls, Counters, Inherited, Successor, Exact, Transit, OneEach, WokenTasks;
    var r, w := Step(s, Event.Disinherit(t)), s.mutexes[m].waiters;
    assert w != [];
    assert WaitList(s, m, w);
    assert w[0] in w && FlagOk(s, m, w[0]);
    WaiterIsNotHolder(s, w[0], m, m);
    assert Holds(r, g, m) && Backs(r, w[0], g, m);
  }

  lemma DisinheritKeepsRest(s: Sys, t: TaskId)
    requires ExactInv(s) && Enabled(s, Event.Disinherit(t))
    ensures Transit(Step(s, Event.Disinherit(t))) && OneEach(Step(s, Event.Disinherit(t)))
  {
    hide Exact, WaitList, HeldBy, Calls, Counters, Inherited, Successor, Waiting, WaiterFlags, HighestWaiting;
    var r := Step(s, Event.Disinherit(t));
    forall x: TaskId | x < |r.tasks|
      ensures TransitOk(r.tasks[x])
    {
      assert TransitOk(s.tasks[x]);
    }
  }

  lemma DisinheritKeepsFlags(s: Sys, t: TaskId)
    requires ExactInv(s) && Enabled(s, Event.Disinherit(t))
    ensures WaiterFlags(Step(s, Event.Disinherit(t)))
  {
    hide Exact, WaitList, HeldBy, Calls, Counters, Inherited, Successor, Transit, OneEach, HighestWaiting;
    var m, r := s.tasks[t].pc.m, Step(s, Event.Disinherit(t));
    forall k: MutexId, w: TaskId | k < |r.mutexes| && w in r.mutexes[k].waiters
      ensures FlagOk(r, k, w)
    {
      assert FlagOk(s, k, w);
      WaiterIsNotHolder(s, w, k, m);
    }
  }

  // ---------- giving ----------

  lemma GiveKeepsExact(s: Sys, t: TaskId, m: MutexId)
    requires ExactInv(s) && Enabled(s, Give(t, m))
    ensures Exact(GiveBack(s, t, m))
  {
    hide HeldBy, Calls, Counters, Inherited, Successor, WaiterFlags, Transit, WokenTasks;
    var r, w := GiveBack(s, t, m), s.mutexes[m].waiters;
    assert WaitList(s, m, w);
    assert w != [] ==> w[0] in w;
    forall g: TaskId | g < |r.tasks| && r.tasks[g].prio > r.tasks[g].base
      ensures Justified(r, g)
    {
      assert g != t;
      var k: MutexId, x: TaskId :| Holds(s, g, k) && Backs(s, x, g, k);
      BackerHoldsNothing(s, x, g, k);
      assert k != m && x != t;
      assert Holds(r, g, k) && Backs(r, x, g, k);
    }
  }

  lemma GiveKeepsRest(s: Sys, t: TaskId, m: MutexId)
    requires ExactInv(s) && Enabled(s, Give(t, m))
    ensures Transit(GiveBack(s, t, m)) && OneEach(GiveBack(s, t, m))
  {
    hide Exact, HeldBy, Calls, Counters, Inherited, Successor, WaiterFlags, WokenTasks, Priorities, Accounts;
    var r, w := GiveBack(s, t, m), s.mutexes[m].waiters;
    assert WaitList(s, m, w);
    assert w != [] ==> w[0] in w && s.tasks[w[0]].held == 0;
    forall x: TaskId | x < |r.tasks|
      ensures TransitOk(r.tasks[x])
    {
      assert TransitOk(s.tasks[x]);
    }
  }

  lemma GiveKeepsFlags(s: Sys, t: TaskId, m: MutexId)
    requires ExactInv(s) && Enabled(s, Give(t, m))
    ensures WaiterFlags(GiveBack(s, t, m))
  {
    hide Exact, HeldBy, WaitList, Calls, Counters, Inherited, Successor, Transit, OneEach;
    var r := GiveBack(s, t, m);
    forall k: MutexId, w: TaskId | k < |r.mutexes| && w in r.mutexes[k].waiters
      ensures FlagOk(r, k, w)
    {
      if k != m {
        assert FlagOk(s, k, w);
        WaiterIsNotHolder(s, w, k, m);
      }
    }
  }

  // ---------- timing out ----------

  lemma ExpireKeepsExact(s: Sys, t: TaskId)
    requires ExactInv(s) && Enabled(s, Expire(t))
    ensures Exact(Step(s, Expire(t)))
  {
    hide Exact, WaitList, HeldBy, Calls, Counters, Inherited, Successor, WaiterFlags, OneEach, DropWaiter,
        WaitLists, WokenTasks;
    var r := Step(s, Expire(t));
    assert TransitOk(s.tasks[t]);
    ExactSame(s, r);
  }

  lemma ExpireKeepsRest(s: Sys, t: TaskId)
    requires ExactInv(s) && Enabled(s, Expire(t))
    ensures Transit(Step(s, Expire(t))) && OneEach(Step(s, Expire(t))) && WaiterFlags(Step(s, Expire(t)))
  {
    hide Exact, WaitList, HeldBy, Calls, Counters, Inherited, Successor, DropWaiter, WaitLists, WokenTasks,
        Priorities, Accounts;
    var m, r := s.tasks[t].status.m, Step(s, Expire(t));
    forall x: TaskId | x < |r.tasks|
      ensures TransitOk(r.tasks[x])
    {
      assert TransitOk(s.tasks[x]);
    }
    forall k: MutexId, w: TaskId | k < |r.mutexes| && w in r.mutexes[k].waiters
      ensures FlagOk(r, k, w)
    {
      FewerWaiters(s, t, m, w);
      assert FlagOk(s, k, w);
    }
  }

  // ---------- every step ----------

  lemma TopKeepsExact(s: Sys, t: TaskId)
    requires ExactInv(s) && Enabled(s, Top(t)) && !Overtakes(s, Top(t)) && OneAtATime(s, Top(t))
    ensures var r := Step(s, Top(t)); Exact(r) && Transit(r) && WaiterFlags(r) && OneEach(r)
  {
    hide Core, Inherited, Successor, Exact, Transit, WaiterFlags, OneEach, Take;
    var m := s.tasks[t].pc.m;
    if s.mutexes[m].count > 0 {
      FreeHasNoHolder(s, m);
      FirstIsHighest(s, m);
      TakeKeepsExact(s, t, m);
      TakeKeepsFlags(s, t, m);
    } else {
      SimpleKeepsExact(s, Top(t));
    }
  }

  lemma DecidersHaveTime(s: Sys, t: TaskId)
    requires Transit(s) && t < |s.tasks| && s.tasks[t].pc.Deciding?
    ensures s.tasks[t].ticks
  {
    assert TransitOk(s.tasks[t]);
  }

  lemma DecideKeepsExact(s: Sys, ev: Event)
    requires ExactInv(s) && Enabled(s, ev) && ev.Decide?
    ensures var r := Step(s, ev); Exact(r) && Transit(r) && WaiterFlags(r) && OneEach(r)
  {
    hide Core, Inherited, Successor, Exact, Transit, WaiterFlags, OneEach, Block;
    var t, m := ev.t, s.tasks[ev.t].pc.m;
    if !ev.expired && s.mutexes[m].count == 0 {
      DecidersHaveTime(s, t);
      BlockKeepsExact(s, t, m);
      BlockKeepsRest(s, t, m);
      BlockKeepsFlags(s, t, m);
    } else {
      SimpleKeepsExact(s, ev);
    }
  }

  lemma StepKeepsExact(s: Sys, ev: Event)
    requires ExactInv(s) && Enabled(s, ev) && !Overtakes(s, ev) && OneAtATime(s, ev)
    ensures ExactInv(Step(s, ev))
  {
    hide Inv, Exact, Transit, WaiterFlags, OneEach, Take, Block, GiveBack, HighestWaiting;
    StepKeepsInv(s, ev);
    match ev
    case Top(t) => TopKeepsExact(s, t);
    case Decide(_, _, _) => DecideKeepsExact(s, ev);
    case Disinherit(t) =>
      DisinheritKeepsExact(s, t);
      DisinheritKeepsRest(s, t);
      DisinheritKeepsFlags(s, t);
    case Give(t, m) =>
      GiveKeepsExact(s, t, m);
      GiveKeepsRest(s, t, m);
      GiveKeepsFlags(s, t, m);
    case Expire(t) =>
      ExpireKeepsExact(s, t);
      ExpireKeepsRest(s, t);
    case _ => SimpleKeepsExact(s, ev);
  }
}
