/** Runs of tasks that set, clear, wait for and rendezvous on the bits of one event group. */
module EventRuns {
  import opened EventBits
  import opened EventGroupSpec

  /** Where a task is: outside, with the result of its last wait, or blocked in one, or on its way
      out of one. */
  datatype Pc = Out(result: Bits) | Inside(q: Request)

  datatype Sys = Sys(g: Group, pcs: seq<Pc>)

  datatype Event =
    | Set(t: Task, b: Bits)
    | Clear(t: Task, b: Bits)
    | Wait(t: Task, q: Request, mayBlock: bool)
    | Rendezvous(t: Task, b: Bits, waitFor: Bits, mayBlock: bool)
    | Timeout(t: Task)
    | Leave(t: Task)

  /** The list without task t, when t times out. */
  function Drop(ws: seq<Waiter>, t: Task): (r: seq<Waiter>)
    decreases |ws|
  {
    if ws == [] then []
    else Drop(ws[..|ws| - 1], t) + if ws[|ws| - 1].task == t then [] else [ws[|ws| - 1]]
  }

  /** The code's assertions on the arguments, and who can make which step. */
  ghost predicate Enabled(s: Sys, ev: Event) {
    && ev.t < |s.pcs|
    && match ev
       case Set(t, b) => s.pcs[t].Out? && NoControl(b)
       case Clear(t, b) => s.pcs[t].Out? && NoControl(b)
       case Wait(t, q, _) => s.pcs[t].Out? && NoControl(q.waitFor) && q.waitFor != 0
       case Rendezvous(t, b, w, _) => s.pcs[t].Out? && NoControl(b) && NoControl(w) && w != 0
       case Timeout(t) => s.pcs[t].Inside? && HasTask(s.g.waiting, t)
       case Leave(t) => s.pcs[t].Inside? && !HasTask(s.g.waiting, t) && t in s.g.told
  }

  function After(s: Sys, t: Task, q: Request, o: (Group, Outcome)): (r: Sys)
    requires t < |s.pcs|
  {
    Sys(o.0, s.pcs[t := if o.1.Done? then Out(o.1.result) else Inside(q)])
  }

  function Step(s: Sys, ev: Event): (r: Sys)
    requires ev.t < |s.pcs|
    requires ev.Leave? ==> s.pcs[ev.t].Inside? && ev.t in s.g.told
    requires ev.Timeout? ==> s.pcs[ev.t].Inside?
  {
    match ev
    case Set(_, b) => s.(g := SetBits(s.g, b))
    case Clear(_, b) => s.(g := ClearBits(s.g, b))
    case Wait(t, q, mayBlock) => After(s, t, q, WaitBits(s.g, t, q, mayBlock))
    case Rendezvous(t, b, w, mayBlock) => After(s, t, Request(w, true, true), Sync(s.g, t, b, w, mayBlock))
    case Timeout(t) => s.(g := s.g.(waiting := Drop(s.g.waiting, t), told := s.g.told[t := Encode(s.pcs[t].q)]))
    case Leave(t) =>
      var (g, result) := Return(s.g, t, s.pcs[t].q);
      Sys(g, s.pcs[t := Out(result)])
  }

  // ---------- the invariant ----------

  /** Waiter x is a task that waits, with its own request as its item value. */
  ghost predicate WaiterOk(s: Sys, x: Waiter) {
    && x.task < |s.pcs| && s.pcs[x.task].Inside?
    && NoControl(s.pcs[x.task].q.waitFor) && x.value == Encode(s.pcs[x.task].q)
  }

  ghost predicate Waiters(s: Sys) {
    forall i :: 0 <= i < |s.g.waiting| ==> WaiterOk(s, s.g.waiting[i])
  }

  /** The value of a released task: a snapshot of the bits at a moment that met its condition. */
  ghost predicate Granted(v: Bits, q: Request) {
    exists b: Bits :: NoControl(b) && Met(b, q.waitFor, q.all) && v == Snapshot(b)
  }

  /** A task on its way out was released with its condition met, or has timed out. */
  ghost predicate LeaverOk(s: Sys, t: Task) {
    t < |s.pcs| && s.pcs[t].Inside? && !HasTask(s.g.waiting, t) ==>
      && NoControl(s.pcs[t].q.waitFor)
      && t in s.g.told && (s.g.told[t] == Encode(s.pcs[t].q) || Granted(s.g.told[t], s.pcs[t].q))
  }

  ghost predicate Leavers(s: Sys) {
    forall t: Task :: t < |s.pcs| ==> LeaverOk(s, t)
  }

  ghost predicate Inv(s: Sys) {
    && NoControl(s.g.bits) && Waiters(s) && EachOnce(s.g.waiting)
    && NoneSatisfied(s.g.bits, s.g.waiting) && Leavers(s)
  }

  // ---------- setting bits ----------

  lemma {:induction false} RemainingOnce(current: Bits, ws: seq<Waiter>)
    requires EachOnce(ws)
    ensures EachOnce(Remaining(current, ws))
    decreases |ws|
  {
    hide Satisfied;
    if ws != [] {
      var front := ws[..|ws| - 1];
      RemainingOnce(current, front);
      forall i | 0 <= i < |Remaining(current, front)|
        ensures Remaining(current, front)[i].task != ws[|ws| - 1].task
      {
        SplitByMatch(current, front, Remaining(current, front)[i]);
      }
    }
  }

  /** After bits were set, a task that no longer waits was told the snapshot or had left before. */
  lemma SetKeepsLeavers(s: Sys, b: Bits)
    requires Inv(s) && NoControl(b)
    ensures Leavers(s.(g := SetBits(s.g, b)))
  {
    hide Satisfied, ToClear, Snapshot, Or, Minus, NoControl, NoneSatisfied, Tell, Encode, Met, EachOnce;
    var current := Or(s.g.bits, b);
    var r := s.(g := SetBits(s.g, b));
    SettingNoControl(s.g.bits, b);
    forall t: Task | t < |s.pcs| && s.pcs[t].Inside? && !HasTask(r.g.waiting, t)
      ensures LeaverOk(r, t)
    {
      var released := Released(current, s.g.waiting);
      TellIs(s.g.told, released, Snapshot(current), t);
      if HasTask(s.g.waiting, t) {
        var i :| 0 <= i < |s.g.waiting| && s.g.waiting[i].task == t;
        var x := s.g.waiting[i];
        SplitByMatch(current, s.g.waiting, x);
        assert x !in r.g.waiting;
        assert x in released;
        assert WaiterOk(s, x);
        SatisfiedIsMet(current, s.pcs[t].q);
        assert Granted(Snapshot(current), s.pcs[t].q);
      } else {
        assert LeaverOk(s, t);
        ListsShrink(current, s.g.waiting, t);
      }
    }
  }

  lemma SetKeepsInv(s: Sys, b: Bits)
    requires Inv(s) && NoControl(b)
    ensures Inv(s.(g := SetBits(s.g, b)))
  {
    hide Satisfied, ToClear, Snapshot, Or, Minus, NoControl, Tell, Encode, Leavers, Subset;
    var current := Or(s.g.bits, b);
    var r := s.(g := SetBits(s.g, b));
    SettingNoControl(s.g.bits, b);
    ClearingShrinks(current, ToClear(current, s.g.waiting));
    SetLeavesNoneSatisfied(s.g, b);
    RemainingOnce(current, s.g.waiting);
    SetKeepsLeavers(s, b);
    forall i | 0 <= i < |r.g.waiting|
      ensures WaiterOk(r, r.g.waiting[i])
    {
      SplitByMatch(current, s.g.waiting, r.g.waiting[i]);
      assert r.g.waiting[i] in s.g.waiting;
      assert WaiterOk(s, r.g.waiting[i]);
    }
  }

  // ---------- the other steps ----------

  /** Clearing bits only removes bits, so nobody's condition becomes met. */
  lemma ClearKeepsInv(s: Sys, b: Bits)
    requires Inv(s)
    ensures Inv(s.(g := ClearBits(s.g, b)))
  {
    hide Minus, NoControl, NoneSatisfied, Encode, Granted, EachOnce, Subset;
    var r := s.(g := ClearBits(s.g, b));
    ClearingShrinks(s.g.bits, b);
    FewerBitsSatisfyNone(r.g.bits, s.g.bits, s.g.waiting);
    forall t: Task | t < |s.pcs|
      ensures LeaverOk(r, t)
    {
      assert LeaverOk(s, t);
    }
    forall i | 0 <= i < |r.g.waiting|
      ensures WaiterOk(r, r.g.waiting[i])
    {
      assert WaiterOk(s, s.g.waiting[i]);
    }
  }

  lemma NotWaiting(s: Sys, t: Task)
    requires Inv(s) && t < |s.pcs| && s.pcs[t].Out?
    ensures !HasTask(s.g.waiting, t)
  {
    forall i | 0 <= i < |s.g.waiting|
      ensures s.g.waiting[i].task != t
    {
      assert WaiterOk(s, s.g.waiting[i]);
    }
  }

  /** A task outside, or on its way out, gets out with some result. */
  lemma DoneKeepsInv(s: Sys, t: Task, result: Bits)
    requires Inv(s) && t < |s.pcs| && !HasTask(s.g.waiting, t)
    ensures Inv(s.(pcs := s.pcs[t := Out(result)]))
  {
    hide NoControl, NoneSatisfied, Encode, Granted, EachOnce;
    var r := s.(pcs := s.pcs[t := Out(result)]);
    forall u: Task | u < |r.pcs|
      ensures LeaverOk(r, u)
    {
      assert LeaverOk(s, u);
    }
    forall i | 0 <= i < |r.g.waiting|
      ensures WaiterOk(r, r.g.waiting[i])
    {
      assert WaiterOk(s, s.g.waiting[i]);
      assert s.g.waiting[i].task != t;
    }
  }

  /** A task whose condition is not met goes on the list. */
  lemma BlockKeepsInv(s: Sys, t: Task, q: Request)
    requires Inv(s) && t < |s.pcs| && s.pcs[t].Out? && NoControl(q.waitFor) && !Met(s.g.bits, q.waitFor, q.all)
    ensures Inv(Sys(s.g.(waiting := s.g.waiting + [Waiter(t, Encode(q))]), s.pcs[t := Inside(q)]))
  {
    hide NoControl, Encode, Granted, Met, Satisfied;
    var r := Sys(s.g.(waiting := s.g.waiting + [Waiter(t, Encode(q))]), s.pcs[t := Inside(q)]);
    NotWaiting(s, t);
    SatisfiedIsMet(s.g.bits, q);
    forall i | 0 <= i < |r.g.waiting|
      ensures WaiterOk(r, r.g.waiting[i])
    {
      if i < |s.g.waiting| {
        assert WaiterOk(s, s.g.waiting[i]);
      }
    }
    forall u: Task | u < |r.pcs|
      ensures LeaverOk(r, u)
    {
      assert LeaverOk(s, u);
      if HasTask(s.g.waiting, u) {
        var i :| 0 <= i < |s.g.waiting| && s.g.waiting[i].task == u;
        assert r.g.waiting[i].task == u;
      }
      assert r.g.waiting[|s.g.waiting|].task == t;
    }
  }

  lemma {:induction false} DropMember(ws: seq<Waiter>, t: Task, x: Waiter)
    ensures x in Drop(ws, t) <==> x in ws && x.task != t
    decreases |ws|
  {
    if ws != [] {
      DropMember(ws[..|ws| - 1], t, x);
      assert x in ws <==> x in ws[..|ws| - 1] || x == ws[|ws| - 1];
    }
  }

  lemma {:induction false} DropOnce(ws: seq<Waiter>, t: Task)
    requires EachOnce(ws)
    ensures EachOnce(Drop(ws, t))
    decreases |ws|
  {
    if ws != [] {
      var front := ws[..|ws| - 1];
      DropOnce(front, t);
      forall i | 0 <= i < |Drop(front, t)|
        ensures Drop(front, t)[i].task != ws[|ws| - 1].task
      {
        DropMember(front, t, Drop(front, t)[i]);
      }
    }
  }

  lemma TimeoutKeepsInv(s: Sys, t: Task)
    requires Inv(s) && Enabled(s, Timeout(t))
    ensures Inv(Step(s, Timeout(t)))
  {
    hide NoControl, Encode, Granted, Satisfied, Drop;
    var r := Step(s, Timeout(t));
    DropOnce(s.g.waiting, t);
    forall i | 0 <= i < |r.g.waiting|
      ensures WaiterOk(r, r.g.waiting[i]) && !Satisfied(r.g.bits, r.g.waiting[i].value)
    {
      DropMember(s.g.waiting, t, r.g.waiting[i]);
      assert r.g.waiting[i] in s.g.waiting;
      assert WaiterOk(s, r.g.waiting[i]);
    }
    forall u: Task | u < |r.pcs|
      ensures LeaverOk(r, u)
    {
      assert LeaverOk(s, u);
      if HasTask(s.g.waiting, u) {
        var i :| 0 <= i < |s.g.waiting| && s.g.waiting[i].task == u;
        DropMember(s.g.waiting, t, s.g.waiting[i]);
        assert WaiterOk(s, s.g.waiting[i]);
      }
    }
  }

  lemma WaitKeepsInv(s: Sys, t: Task, q: Request, mayBlock: bool)
    requires Inv(s) && Enabled(s, Wait(t, q, mayBlock))
    ensures Inv(Step(s, Wait(t, q, mayBlock)))
  {
    hide Inv, Met, NoControl, Encode, HasTask;
    NotWaiting(s, t);
    var a := if Met(s.g.bits, q.waitFor, q.all) && q.clearOnExit then s.(g := ClearBits(s.g, q.waitFor)) else s;
    ClearKeepsInv(s, q.waitFor);
    if Met(s.g.bits, q.waitFor, q.all) || !mayBlock {
      DoneKeepsInv(a, t, s.g.bits);
    } else {
      BlockKeepsInv(s, t, q);
    }
  }

  lemma RendezvousKeepsInv(s: Sys, t: Task, b: Bits, w: Bits, mayBlock: bool)
    requires Inv(s) && Enabled(s, Rendezvous(t, b, w, mayBlock))
    ensures Inv(Step(s, Rendezvous(t, b, w, mayBlock)))
  {
    hide Inv, Met, NoControl, Encode, HasTask, SetBits, Or;
    SetKeepsInv(s, b);
    var a := s.(g := SetBits(s.g, b));
    NotWaiting(a, t);
    if Met(Or(s.g.bits, b), w, true) {
      ClearKeepsInv(a, w);
      DoneKeepsInv(a.(g := ClearBits(a.g, w)), t, Or(s.g.bits, b));
    } else if mayBlock {
      StillUnmet(s.g, b, w);
      BlockKeepsInv(a, t, Request(w, true, true));
    } else {
      DoneKeepsInv(a, t, a.g.bits);
    }
  }

  lemma StillUnmet(g: Group, b: Bits, w: Bits)
    requires !Met(Or(g.bits, b), w, true)
    ensures !Met(SetBits(g, b).bits, w, true)
  {
    hide Met, Or, Minus, ToClear, Remaining, Tell, Subset;
    var current := Or(g.bits, b);
    ClearingShrinks(current, ToClear(current, g.waiting));
    if Met(SetBits(g, b).bits, w, true) {
      MetGrows(SetBits(g, b).bits, current, w, true);
    }
  }

  lemma LeaveKeepsInv(s: Sys, t: Task)
    requires Inv(s) && Enabled(s, Leave(t))
    ensures Inv(Step(s, Leave(t)))
  {
    hide Inv, Met, NoControl, Unblocked, WaitedFor, HasTask;
    var q := s.pcs[t].q;
    ClearKeepsInv(s, q.waitFor);
    var (g, result) := Return(s.g, t, q);
    DoneKeepsInv(s.(g := g), t, result);
  }

  lemma StepKeepsInv(s: Sys, ev: Event)
    requires Inv(s) && Enabled(s, ev)
    ensures Inv(Step(s, ev))
  {
    hide Inv, SetBits, ClearBits, WaitBits, Sync, Return, After, HasTask, Drop, NoControl;
    match ev
    case Set(_, b) => SetKeepsInv(s, b);
    case Clear(_, b) => ClearKeepsInv(s, b);
    case Wait(t, q, mayBlock) => WaitKeepsInv(s, t, q, mayBlock);
    case Rendezvous(t, b, w, mayBlock) => RendezvousKeepsInv(s, t, b, w, mayBlock);
    case Timeout(t) => TimeoutKeepsInv(s, t);
    case Leave(t) => LeaveKeepsInv(s, t);
  }

  // ---------- runs ----------

  /** A new event group, nobody in any call. */
  ghost predicate Created(s: Sys) {
    s.g.bits == 0 && s.g.waiting == [] && forall t :: 0 <= t < |s.pcs| ==> s.pcs[t].Out?
  }

  ghost predicate Run(states: seq<Sys>, evs: seq<Event>) {
    && |states| == |evs| + 1
    && (forall i :: 0 <= i < |evs| ==> Enabled(states[i], evs[i]) && states[i + 1] == Step(states[i], evs[i]))
  }

  lemma {:induction false} RunKeepsInv(states: seq<Sys>, evs: seq<Event>, i: nat)
    requires Run(states, evs) && Inv(states[0]) && i < |states|
    ensures Inv(states[i])
  {
    hide Inv, Enabled, Step;
    if i > 0 {
      RunKeepsInv(states, evs, i - 1);
      StepKeepsInv(states[i - 1], evs[i - 1]);
    }
  }

  /** In every state of every run, no task waits whose condition, as it asked for it, is met. */
  lemma NoSatisfiedWaiter(states: seq<Sys>, evs: seq<Event>, i: nat, t: Task)
    requires Run(states, evs) && Created(states[0]) && i < |states|
    requires HasTask(states[i].g.waiting, t)
    ensures t < |states[i].pcs| && states[i].pcs[t].Inside?
    ensures !Met(states[i].g.bits, states[i].pcs[t].q.waitFor, states[i].pcs[t].q.all)
  {
    assert NoControl(states[0].g.bits);
    assert Leavers(states[0]);
    hide Enabled, Step, NoControl, Satisfied, Encode, Met, Leavers;
    RunKeepsInv(states, evs, i);
    var s := states[i];
    var k :| 0 <= k < |s.g.waiting| && s.g.waiting[k].task == t;
    assert WaiterOk(s, s.g.waiting[k]);
    SatisfiedIsMet(s.g.bits, s.pcs[t].q);
  }

  /** A task that leaves its wait released, not timed out, is given bits that met its condition. */
  lemma ReleasedMeansMet(s: Sys, t: Task)
    requires Inv(s) && Enabled(s, Leave(t)) && Unblocked(s.g.told[t])
    ensures Step(s, Leave(t)).pcs[t].Out?
    ensures Met(Step(s, Leave(t)).pcs[t].result, s.pcs[t].q.waitFor, s.pcs[t].q.all)
  {
    hide NoControl, Encode, Met, Unblocked, WaitedFor, Snapshot;
    assert LeaverOk(s, t);
    var q := s.pcs[t].q;
    RequestRoundTrip(q);
    var b: Bits :| NoControl(b) && Met(b, q.waitFor, q.all) && s.g.told[t] == Snapshot(b);
    SnapshotRoundTrip(b);
  }

  // ---------- the rendezvous ----------

  /** Task u is blocked in a rendezvous on the bits w. */
  ghost predicate AtRendezvous(s: Sys, u: Task, w: Bits) {
    u < |s.pcs| && s.pcs[u] == Inside(Request(w, true, true)) && HasTask(s.g.waiting, u)
  }

  /** No bit of w is set in a. */
  predicate AllClear(a: Bits, w: Bits) {
    a & w == 0
  }

  lemma MaskCleared(a: Bits, w: Bits)
    ensures AllClear(Minus(a, w), w)
  {
  }

  lemma AllMet(a: Bits, w: Bits)
    requires Met(a, w, true)
    ensures Subset(w, a)
  {
  }

  /** The last arrival releases every task blocked on the same bits, with one value that contains
      them and that it returns itself; afterwards the bits are clear. */
  lemma LastArrivalReleasesAll(s: Sys, t: Task, b: Bits, w: Bits, mayBlock: bool, u: Task)
    requires Inv(s) && Enabled(s, Rendezvous(t, b, w, mayBlock)) && Met(Or(s.g.bits, b), w, true)
    ensures var r, all := Step(s, Rendezvous(t, b, w, mayBlock)), Or(s.g.bits, b);
            && r.pcs[t] == Out(all) && Subset(w, all) && AllClear(r.g.bits, w) && NoControl(all)
            && (AtRendezvous(s, u, w) ==>
                  u != t && r.pcs[u] == s.pcs[u] && !HasTask(r.g.waiting, u) && u in r.g.told
                      && r.g.told[u] == Snapshot(all))
  {
    var r, all := Step(s, Rendezvous(t, b, w, mayBlock)), Or(s.g.bits, b);
    hide AllClear, Subset, NoControl, Encode, Met, Satisfied, Snapshot, Or, Minus, Tell, Released, Remaining,
        ToClear, NoneSatisfied, Leavers;
    AllMet(all, w);
    SettingNoControl(s.g.bits, b);
    MaskCleared(SetBits(s.g, b).bits, w);
    if AtRendezvous(s, u, w) {
      NotWaiting(s, t);
      var k :| 0 <= k < |s.g.waiting| && s.g.waiting[k].task == u;
      var x := s.g.waiting[k];
      assert WaiterOk(s, x);
      SatisfiedIsMet(all, Request(w, true, true));
      ReleasedIsGone(all, s.g.waiting, k);
      TellIs(s.g.told, Released(all, s.g.waiting), Snapshot(all), u);
    }
  }

  /** What a task was told stays until it leaves. */
  lemma StepKeepsTold(s: Sys, ev: Event, u: Task, v: Bits)
    requires Inv(s) && Enabled(s, ev) && ev != Leave(u)
    requires u < |s.pcs| && s.pcs[u].Inside? && !HasTask(s.g.waiting, u) && u in s.g.told && s.g.told[u] == v
    ensures var r := Step(s, ev);
            && |r.pcs| == |s.pcs| && r.pcs[u] == s.pcs[u] && !HasTask(r.g.waiting, u)
            && u in r.g.told && r.g.told[u] == v
  {
    hide NoControl, Encode, Met, Satisfied, Or, Minus, Tell, Released, Remaining, Drop, NoneSatisfied, Leavers,
        ToClear, Waiters;
    match ev
    case Set(_, b) => SetKeepsTold(s.g, b, u, v);
    case Rendezvous(t, b, w, _) => SetKeepsTold(s.g, b, u, v);
    case Timeout(t) =>
      var r := Step(s, ev);
      forall j | 0 <= j < |r.g.waiting|
        ensures r.g.waiting[j].task != u
      {
        DropMember(s.g.waiting, t, r.g.waiting[j]);
        assert r.g.waiting[j] in s.g.waiting;
      }
    case _ =>
  }

  lemma SetKeepsTold(g: Group, b: Bits, u: Task, v: Bits)
    requires !HasTask(g.waiting, u) && u in g.told && g.told[u] == v
    ensures !HasTask(SetBits(g, b).waiting, u) && u in SetBits(g, b).told && SetBits(g, b).told[u] == v
  {
    hide Satisfied, Or, Minus, ToClear, Snapshot, Tell, Released, Remaining, HasTask;
    var current := Or(g.bits, b);
    var released := Released(current, g.waiting);
    TellIs(g.told, released, Snapshot(current), u);
    ListsShrink(current, g.waiting, u);
  }

  lemma {:induction false} RunKeepsTold(states: seq<Sys>, evs: seq<Event>, i: nat, u: Task, v: Bits)
    requires Run(states, evs) && Inv(states[0]) && i < |states|
    requires forall k :: 0 <= k < i ==> evs[k] != Leave(u)
    requires u < |states[0].pcs| && states[0].pcs[u].Inside? && !HasTask(states[0].g.waiting, u)
    requires u in states[0].g.told && states[0].g.told[u] == v
    ensures u < |states[i].pcs| && states[i].pcs[u] == states[0].pcs[u] && !HasTask(states[i].g.waiting, u)
    ensures u in states[i].g.told && states[i].g.told[u] == v
  {
    hide Inv, Enabled, Step, HasTask;
    if i > 0 {
      RunKeepsTold(states, evs, i - 1, u, v);
      RunKeepsInv(states, evs, i - 1);
      StepKeepsTold(states[i - 1], evs[i - 1], u, v);
    }
  }

  /** All parties of a rendezvous return the same value: what the last one returned is what every
      other one returns when it next runs, whatever has happened to the bits in between. */
  lemma RendezvousAgrees(states: seq<Sys>, evs: seq<Event>, t: Task, b: Bits, w: Bits, mayBlock: bool, u: Task,
      i: nat)
    requires Run(states, evs) && Inv(states[0]) && 0 < i < |evs|
    requires evs[0] == Rendezvous(t, b, w, mayBlock) && Met(Or(states[0].g.bits, b), w, true)
    requires AtRendezvous(states[0], u, w)
    requires evs[i] == Leave(u) && forall k :: 0 <= k < i ==> evs[k] != Leave(u)
    ensures t < |states[1].pcs| && u < |states[i + 1].pcs|
    ensures states[i + 1].pcs[u] == states[1].pcs[t] == Out(Or(states[0].g.bits, b))
  {
    hide Inv, NoControl, Unblocked, WaitedFor, Snapshot, HasTask, Or, Met, Sync, SetBits, WaitBits, Encode;
    var all := Or(states[0].g.bits, b);
    LastArrivalReleasesAll(states[0], t, b, w, mayBlock, u);
    RunKeepsInv(states, evs, 1);
    assert Run(states[1..], evs[1..]);
    RunKeepsTold(states[1..], evs[1..], i - 1, u, Snapshot(all));
    assert states[1..][i - 1] == states[i];
    SnapshotRoundTrip(all);
    assert states[i + 1] == Step(states[i], Leave(u));
  }
}
