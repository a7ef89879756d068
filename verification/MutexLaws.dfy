/** Whom a give wakes, in which order waiters are served, and how a take ends. */
module MutexLaws {
  import opened Common
  import opened MutexProtocol
  import opened MutexRuns
  import opened MutexTheorems

  /** Task a stands in front of task b. */
  ghost predicate Before(w: seq<TaskId>, a: TaskId, b: TaskId) {
    exists i, j :: 0 <= i < j < |w| && w[i] == a && w[j] == b
  }

  lemma BeforeHead(w: seq<TaskId>, a: TaskId, b: TaskId)
    requires w != []
    ensures Before(w, a, b) <==> (w[0] == a && b in w[1..]) || Before(w[1..], a, b)
  {
    var v := w[1..];
    if Before(w, a, b) {
      var i, j :| 0 <= i < j < |w| && w[i] == a && w[j] == b;
      assert v[j - 1] == b;
      if i > 0 {
        assert v[i - 1] == a;
      }
    }
    if w[0] == a && b in v {
      var j :| 0 <= j < |v| && v[j] == b;
      assert w[0] == a && w[j + 1] == b;
    }
    if Before(v, a, b) {
      var i, j :| 0 <= i < j < |v| && v[i] == a && v[j] == b;
      assert w[i + 1] == a && w[j + 1] == b;
    }
  }

  /** Most urgent first. */
  ghost predicate ByPriority(tasks: seq<Task>, w: seq<TaskId>) {
    InRange(w, |tasks|) && forall i, j :: 0 <= i < j < |w| ==> tasks[w[i]].prio >= tasks[w[j]].prio
  }

  lemma InFront(w: seq<TaskId>, t: TaskId, b: TaskId, a: TaskId)
    requires a != t && Before([t] + w, b, a)
    ensures Before(w, b, a) || (b == t && a in w)
  {
    BeforeHead([t] + w, b, a);
    assert ([t] + w)[1..] == w;
  }

  /** A newcomer goes behind every waiter that is at least as urgent, and puts nobody else in front. */
  lemma {:induction false} NewWaiterStaysBehind(tasks: seq<Task>, w: seq<TaskId>, t: TaskId, b: TaskId, a: TaskId)
    requires t < |tasks| && ByPriority(tasks, w) && a != t && a < |tasks| && b < |tasks|
    requires b == t ==> tasks[b].prio <= tasks[a].prio
    requires Before(InsertWaiter(tasks, w, t), b, a)
    ensures Before(w, b, a)
    decreases w
  {
    hide Before;
    if w == [] || tasks[w[0]].prio < tasks[t].prio {
      InFront(w, t, b, a);
    } else {
      var v := InsertWaiter(tasks, w[1..], t);
      InsertWaiterMember(tasks, w[1..], t, a);
      BeforeHead([w[0]] + v, b, a);
      assert ([w[0]] + v)[1..] == v;
      BeforeHead(w, b, a);
      if Before(v, b, a) {
        NewWaiterStaysBehind(tasks, w[1..], t, b, a);
      }
    }
  }

  lemma {:induction false} DropKeepsFront(w: seq<TaskId>, t: TaskId, b: TaskId, a: TaskId)
    requires Before(DropWaiter(w, t), b, a)
    ensures Before(w, b, a) && (a in DropWaiter(w, t) ==> a in w)
    decreases w
  {
    hide Before;
    if w == [] {
      NobodyBefore(b, a);
    } else {
      BeforeHead(w, b, a);
      if w[0] != t {
        var v := DropWaiter(w[1..], t);
        BeforeHead([w[0]] + v, b, a);
        assert ([w[0]] + v)[1..] == v;
        DropIsSubset(w[1..], t);
        if Before(v, b, a) {
          DropKeepsFront(w[1..], t, b, a);
        }
      } else {
        InDrop(w, t, a);
      }
    }
  }

  lemma NobodyBefore(b: TaskId, a: TaskId)
    ensures !Before([], b, a)
  {
  }

  lemma InDrop(w: seq<TaskId>, t: TaskId, a: TaskId)
    requires w != [] && w[0] == t
    ensures DropWaiter(w, t) == w[1..] && (a in w[1..] ==> a in w)
  {
  }

  lemma {:induction false} DropIsSubset(w: seq<TaskId>, t: TaskId)
    ensures forall x :: x in DropWaiter(w, t) ==> x in w
    decreases w
  {
    if w != [] && w[0] != t {
      DropIsSubset(w[1..], t);
    }
  }

  lemma WaitersByPriority(s: Sys, m: MutexId)
    requires Core(s) && m < |s.mutexes|
    ensures ByPriority(s.tasks, s.mutexes[m].waiters)
    ensures forall t :: 0 <= t < |s.tasks| ==> (t in s.mutexes[m].waiters <==> s.tasks[t].status == WaitingOn(m))
    ensures forall t :: t in s.mutexes[m].waiters ==> t < |s.tasks| && s.tasks[t].prio == s.tasks[t].base
  {
    hide HeldBy, Calls, Counters;
    var w := s.mutexes[m].waiters;
    assert WaitList(s, m, w);
    forall i | 0 <= i < |w|
      ensures s.tasks[w[i]].prio == s.tasks[w[i]].base
    {
      assert w[i] in w;
    }
  }

  // ---------- who is woken ----------

  /** x alone is woken, off the wait list of m. */
  ghost predicate WakesOnly(s: Sys, r: Sys, m: MutexId, x: TaskId) {
    && x < |s.tasks| == |r.tasks| && m < |s.mutexes| == |r.mutexes|
    && s.tasks[x].status == WaitingOn(m) && r.tasks[x].status == Ready
    && (forall u :: 0 <= u < |s.tasks| && u != x ==> r.tasks[u].status == s.tasks[u].status)
    && r.mutexes[m].woken == s.mutexes[m].woken + {x}
  }

  /** A give wakes exactly one of those that wait for the mutex, of the highest priority, and none if
      nobody waits; the mutex is free afterwards, for whoever takes it first. */
  lemma GiveWakesMostUrgent(s: Sys, t: TaskId, m: MutexId) returns (x: TaskId)
    requires Core(s) && Enabled(s, Give(t, m))
    ensures var r := Step(s, Give(t, m));
            && |r.tasks| == |s.tasks| && |r.mutexes| == |s.mutexes|
            && r.mutexes[m].holder == None && r.mutexes[m].count == 1 && r.tasks[t].held == s.tasks[t].held - 1
            && if exists u :: 0 <= u < |s.tasks| && s.tasks[u].status == WaitingOn(m)
               then WakesOnly(s, r, m, x)
                    && forall u :: 0 <= u < |s.tasks| && s.tasks[u].status == WaitingOn(m)
                         ==> s.tasks[u].prio <= s.tasks[x].prio
               else forall u :: 0 <= u < |s.tasks| ==> r.tasks[u].status == s.tasks[u].status
  {
    hide HeldBy, Calls, Counters, Accounts, Priorities, WaitLists, WaitingTasks, WokenTasks, Pcs;
    WaitersByPriority(s, m);
    var w := s.mutexes[m].waiters;
    x := 0;
    if w != [] {
      x := w[0];
      assert x in w;
      FirstIsHighest(s, m);
    }
  }

  // ---------- in which order ----------

  lemma GiveKeepsFront(s: Sys, t: TaskId, m: MutexId, k: MutexId, b: TaskId, a: TaskId)
    requires Core(s) && Enabled(s, Give(t, m)) && k < |s.mutexes|
    requires |Step(s, Give(t, m)).mutexes| == |s.mutexes| && Before(Step(s, Give(t, m)).mutexes[k].waiters, b, a)
    ensures Before(s.mutexes[k].waiters, b, a)
  {
    hide Core, Before;
    var w := s.mutexes[m].waiters;
    if w != [] {
      BeforeHead(w, b, a);
    }
  }

  lemma BlockKeepsFront(s: Sys, ev: Event, k: MutexId, b: TaskId, a: TaskId)
    requires Core(s) && Enabled(s, ev) && ev.Decide? && k < |s.mutexes| && s.tasks[ev.t].status == Ready
    requires a < |s.tasks| && b < |s.tasks| && s.tasks[a].status == WaitingOn(k)
    requires s.tasks[b].base <= s.tasks[a].base
    requires |Step(s, ev).mutexes| == |s.mutexes| && Before(Step(s, ev).mutexes[k].waiters, b, a)
    ensures Before(s.mutexes[k].waiters, b, a)
  {
    var t, m := ev.t, s.tasks[ev.t].pc.m;
    WaitersByPriority(s, k);
    assert s.tasks[t].held == 0 ==> s.tasks[t].prio == s.tasks[t].base;
    hide Core, Before, ByPriority, InsertWaiter;
    if m == k && !ev.expired && s.mutexes[m].count == 0 {
      NewWaiterStaysBehind(s.tasks, s.mutexes[k].waiters, t, b, a);
    }
  }

  lemma ExpireKeepsFront(s: Sys, t: TaskId, k: MutexId, b: TaskId, a: TaskId)
    requires Core(s) && Enabled(s, Expire(t)) && k < |s.mutexes|
    requires |Step(s, Expire(t)).mutexes| == |s.mutexes| && Before(Step(s, Expire(t)).mutexes[k].waiters, b, a)
    ensures Before(s.mutexes[k].waiters, b, a)
  {
    hide Core, Before, DropWaiter;
    if s.tasks[t].status.m == k {
      DropKeepsFront(s.mutexes[k].waiters, t, b, a);
    }
  }

  lemma OthersLeaveWaiters(s: Sys, ev: Event, k: MutexId)
    requires Core(s) && Enabled(s, ev) && k < |s.mutexes| && !ev.Decide? && !ev.Give? && !ev.Expire?
    ensures |Step(s, ev).mutexes| == |s.mutexes| && Step(s, ev).mutexes[k].waiters == s.mutexes[k].waiters
  {
    hide Core, HeldBy;
  }

  lemma StepKeepsFront(s: Sys, ev: Event, m: MutexId, b: TaskId, a: TaskId)
    requires Core(s) && Enabled(s, ev) && m < |s.mutexes| && a < |s.tasks| && b < |s.tasks| && a != b
    requires s.tasks[a].status == WaitingOn(m) && s.tasks[b].base <= s.tasks[a].base
    requires |Step(s, ev).mutexes| == |s.mutexes| && Before(Step(s, ev).mutexes[m].waiters, b, a)
    ensures Before(s.mutexes[m].waiters, b, a)
  {
    hide Core, Step, Before;
    match ev
    case Give(t, k) => GiveKeepsFront(s, t, k, m, b, a);
    case Decide(_, _, _) => DeciderIsReady(s, ev); BlockKeepsFront(s, ev, m, b, a);
    case Expire(t) => ExpireKeepsFront(s, t, m, b, a);
    case _ => OthersLeaveWaiters(s, ev, m);
  }

  lemma DeciderIsReady(s: Sys, ev: Event)
    requires Enabled(s, ev) && ev.Decide?
    ensures s.tasks[ev.t].status == Ready
  {
  }

  lemma StepKeepsShape(s: Sys, ev: Event)
    requires Enabled(s, ev)
    ensures var r := Step(s, ev);
            && |r.tasks| == |s.tasks| && |r.mutexes| == |s.mutexes|
            && (forall t :: 0 <= t < |s.tasks| ==> r.tasks[t].base == s.tasks[t].base)
  {
    hide InsertWaiter, DropWaiter;
  }

  lemma {:induction false} RunKeepsShape(states: seq<Sys>, evs: seq<Event>, i: nat)
    requires Run(states, evs) && i < |states|
    ensures |states[i].tasks| == |states[0].tasks| && |states[i].mutexes| == |states[0].mutexes|
    ensures forall t :: 0 <= t < |states[0].tasks| ==> states[i].tasks[t].base == states[0].tasks[t].base
    decreases i
  {
    hide Step, Enabled;
    if i > 0 {
      RunKeepsShape(states, evs, i - 1);
      StepKeepsShape(states[i - 1], evs[i - 1]);
    }
  }

  /** Task a waits for mutex m in states i to j of a run. */
  ghost predicate Waits(states: seq<Sys>, i: nat, j: nat, m: MutexId, a: TaskId) {
    i <= j < |states| && forall k :: i <= k <= j ==> a < |states[k].tasks| && states[k].tasks[a].status == WaitingOn(m)
  }

  /** No overtaking: in every run, as long as task a waits for a mutex, no give wakes a task of at most
      its priority that was not in front of it, however often that one times out and comes again; so
      tasks of the same priority are woken in the order in which they blocked. */
  lemma {:induction false} NobodyOvertakes(states: seq<Sys>, evs: seq<Event>, i: nat, j: nat, m: MutexId,
      a: TaskId, b: TaskId)
    requires Run(states, evs) && Created(states[0]) && Waits(states, i, j, m, a) && m < |states[0].mutexes|
    requires a < |states[0].tasks| && b < |states[0].tasks| && a != b
    requires states[0].tasks[b].base <= states[0].tasks[a].base
    requires |states[i].mutexes| == |states[0].mutexes| && !Before(states[i].mutexes[m].waiters, b, a)
    ensures |states[j].mutexes| == |states[0].mutexes| && !Before(states[j].mutexes[m].waiters, b, a)
    ensures j < |evs| && evs[j].Give? && evs[j].m == m ==>
      |states[j + 1].mutexes| == |states[0].mutexes|
      && (b in states[j + 1].mutexes[m].woken ==> b in states[j].mutexes[m].woken)
    decreases j
  {
    hide Core, Step, Enabled, Created, Before;
    RunKeepsShape(states, evs, j);
    RunKeepsCore(states, evs, j);
    if i < j {
      NobodyOvertakes(states, evs, i, j - 1, m, a, b);
      RunKeepsShape(states, evs, j - 1);
      RunKeepsCore(states, evs, j - 1);
      if Before(states[j].mutexes[m].waiters, b, a) {
        StepKeepsFront(states[j - 1], evs[j - 1], m, b, a);
      }
    }
    if j < |evs| && evs[j].Give? && evs[j].m == m {
      RunKeepsShape(states, evs, j + 1);
      GiveSkipsLater(states[j], evs[j].t, m, a, b);
    }
  }

  lemma GiveSkipsLater(s: Sys, t: TaskId, m: MutexId, a: TaskId, b: TaskId)
    requires Core(s) && Enabled(s, Give(t, m)) && a < |s.tasks| && s.tasks[a].status == WaitingOn(m) && a != b
    requires m < |s.mutexes| && !Before(s.mutexes[m].waiters, b, a)
    requires |Step(s, Give(t, m)).mutexes| == |s.mutexes|
    ensures b in Step(s, Give(t, m)).mutexes[m].woken ==> b in s.mutexes[m].woken
  {
    WaitersByPriority(s, m);
    hide Core;
    var w := s.mutexes[m].waiters;
    var k :| 0 <= k < |w| && w[k] == a;
    assert k > 0 ==> w[0] == w[0] && w[k] == a && w[0] != b;
  }

  // ---------- how a take ends ----------

  ghost predicate InTake(x: Task) {
    x.pc.AtTop? || x.pc.Deciding? || x.pc.TimedOut? || x.pc.Disinheriting?
  }

  /** A take ends in one of two ways.  With the mutex: it was free, and the task is its holder with one
      mutex more.  Without: the task had no wait left, or has waited as long as it was willing to, and it
      has seen the mutex taken in this step or in the one before it gave back what it had inherited. */
  lemma TakeEnds(s: Sys, ev: Event, m: MutexId)
    requires Core(s) && Enabled(s, ev) && InTake(s.tasks[ev.t]) && s.tasks[ev.t].pc.m == m && m < |s.mutexes|
    requires |Step(s, ev).tasks| == |s.tasks| && !InTake(Step(s, ev).tasks[ev.t])
    ensures var (r, t) := (Step(s, ev), ev.t);
            || (Holds(r, t, m) && s.mutexes[m].count > 0 && s.mutexes[m].holder.None?
                && r.tasks[t].held == s.tasks[t].held + 1)
            || (r.tasks[t].held == s.tasks[t].held && r.tasks[t].pc == Free
                && match s.tasks[t].pc
                   case AtTop(_) => s.mutexes[m].count == 0 && !s.tasks[t].ticks
                   case TimedOut(_) => s.mutexes[m].count == 0 && !s.tasks[t].inherited
                   case Disinheriting(_) => true
                   case _ => false)
  {
    hide HeldBy, Calls, Counters, Waiting, Priorities, InsertWaiter;
  }

  /** A task blocks only on a mutex that another one holds, and goes on to give up only when its time
      is over; the mutex free again, it goes back for it. */
  lemma TakeGoesOn(s: Sys, ev: Event, m: MutexId)
    requires Core(s) && Enabled(s, ev) && InTake(s.tasks[ev.t]) && s.tasks[ev.t].pc.m == m && m < |s.mutexes|
    requires |Step(s, ev).tasks| == |s.tasks| && InTake(Step(s, ev).tasks[ev.t])
    ensures var (x, y) := (s.tasks[ev.t], Step(s, ev).tasks[ev.t]);
            && y.pc.m == m
            && (y.status.WaitingOn? && x.status.Ready? ==>
                  y.status.m == m && s.mutexes[m].holder.Some? && s.mutexes[m].holder.value != ev.t)
            && (y.pc.TimedOut? && !x.pc.TimedOut? ==> ev.Decide? && ev.expired)
            && (y.pc.Disinheriting? && !x.pc.Disinheriting? ==>
                  x.pc.TimedOut? && x.inherited && s.mutexes[m].holder.Some?)
            && (x.pc.TimedOut? && y.pc != x.pc && s.mutexes[m].holder.None? ==> y.pc.AtTop?)
  {
    hide HeldBy, Calls, Counters, Waiting, Priorities, InsertWaiter;
  }
}
