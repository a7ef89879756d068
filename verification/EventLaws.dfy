/** Which bits are left after each call on an event group, and what the call answers, bit by bit and
    on the arguments of the waits. */
module EventLaws {
  import opened EventBits
  import opened EventGroupSpec
  import opened EventRuns

  // ---------- bits ----------

  lemma MinusKeeps(a: Bits, c: Bits, m: Bits)
    requires Subset(m, a) && AllClear(c, m)
    ensures Subset(m, Minus(a, c))
  {
  }

  lemma MinusClears(a: Bits, c: Bits, w: Bits)
    requires Subset(w, c)
    ensures AllClear(Minus(a, c), w)
  {
  }

  lemma OrClear(a: Bits, b: Bits, m: Bits)
    requires AllClear(a, m) && AllClear(b, m)
    ensures AllClear(Or(a, b), m)
  {
  }

  lemma OrHasLeft(a: Bits, b: Bits, w: Bits)
    requires Subset(w, a)
    ensures Subset(w, Or(a, b))
  {
  }

  lemma OrHas(a: Bits, b: Bits, w: Bits)
    requires Subset(w, a) || Subset(w, b)
    ensures Subset(w, Or(a, b))
  {
    hide Subset, Or;
    OrCommutes(a, b);
    if Subset(w, a) {
      OrHasLeft(a, b, w);
    } else {
      OrHasLeft(b, a, w);
    }
  }

  lemma NothingToClear(m: Bits)
    ensures AllClear(0, m)
  {
  }

  lemma SubsetItself(m: Bits)
    ensures Subset(m, m)
  {
  }

  lemma PlainBits(b: Bits)
    requires NoControl(b)
    ensures WaitedFor(b) == b
  {
  }

  // ---------- setting bits ----------

  /** What the two kinds of wait ask for: every one of their bits, or any of them. */
  lemma MetMeans(current: Bits, w: Bits)
    ensures Met(current, w, true) <==> forall m: Bits :: Subset(m, w) ==> Subset(m, current)
    ensures Met(current, w, false) <==> exists m: Bits :: m != 0 && Subset(m, w) && Subset(m, current)
  {
    AllIsSubset(current, w);
    AnyIsCommon(current, w);
    CommonBits(current, w);
    forall m: Bits
      ensures Subset(m, w) && Subset(w, current) ==> Subset(m, current)
      ensures m != 0 && Subset(m, w) && Subset(m, current) ==> Common(current, w) != 0
    {
      SubsetChain(m, w, current);
      CommonHolds(m, current, w);
    }
    SubsetItself(w);
    hide Subset, Met, Common;
  }

  function Common(a: Bits, b: Bits): (c: Bits) {
    a & b
  }

  lemma AllIsSubset(current: Bits, w: Bits)
    ensures Met(current, w, true) <==> Subset(w, current)
  {
  }

  lemma AnyIsCommon(current: Bits, w: Bits)
    ensures Met(current, w, false) <==> Common(current, w) != 0
  {
  }

  lemma CommonBits(a: Bits, b: Bits)
    ensures Subset(Common(a, b), a) && Subset(Common(a, b), b)
  {
  }

  lemma SubsetChain(m: Bits, a: Bits, b: Bits)
    ensures Subset(m, a) && Subset(a, b) ==> Subset(m, b)
  {
  }

  lemma CommonHolds(m: Bits, a: Bits, b: Bits)
    ensures m != 0 && Subset(m, a) && Subset(m, b) ==> Common(a, b) != 0
  {
  }

  /** The current bits release waiter x, and it asked for its bits to be cleared. */
  predicate Takes(current: Bits, x: Waiter) {
    Satisfied(current, x.value) && ClearsOnExit(x.value)
  }

  /** No released waiter that clears on exit waits for a bit of m. */
  ghost predicate Unasked(current: Bits, ws: seq<Waiter>, m: Bits) {
    forall i :: 0 <= i < |ws| && Takes(current, ws[i]) ==> AllClear(WaitedFor(ws[i].value), m)
  }

  lemma {:induction false} UnaskedIsKept(current: Bits, ws: seq<Waiter>, m: Bits)
    requires Unasked(current, ws, m)
    ensures AllClear(ToClear(current, ws), m)
    decreases |ws|
  {
    hide AllClear, Satisfied, ClearsOnExit, WaitedFor, Or;
    NothingToClear(m);
    if ws != [] {
      var front, x := ws[..|ws| - 1], ws[|ws| - 1];
      assert Takes(current, x) ==> AllClear(WaitedFor(x.value), m);
      UnaskedIsKept(current, front, m);
      OrClear(ToClear(current, front), Mask(current, x), m);
    }
  }

  lemma {:induction false} AskedIsTaken(current: Bits, ws: seq<Waiter>, k: nat)
    requires k < |ws| && Takes(current, ws[k])
    ensures Subset(WaitedFor(ws[k].value), ToClear(current, ws))
    decreases |ws|
  {
    hide Subset, Satisfied, ClearsOnExit, WaitedFor, Or;
    var front, x := ws[..|ws| - 1], ws[|ws| - 1];
    SubsetItself(WaitedFor(x.value));
    if k < |ws| - 1 {
      AskedIsTaken(current, front, k);
    }
    OrHas(ToClear(current, front), Mask(current, x), WaitedFor(ws[k].value));
  }

  /** A bit that is set stays set, unless a task that is released now waits for it and asked for
      clearing. */
  lemma UnaskedBitsStay(g: Group, b: Bits, m: Bits)
    requires Subset(m, Or(g.bits, b)) && Unasked(Or(g.bits, b), g.waiting, m)
    ensures Subset(m, SetBits(g, b).bits)
  {
    hide AllClear, Subset, Or, Minus, Unasked, ToClear, Remaining, Released, Tell;
    UnaskedIsKept(Or(g.bits, b), g.waiting, m);
    MinusKeeps(Or(g.bits, b), ToClear(Or(g.bits, b), g.waiting), m);
  }

  /** And the bits that such a task waits for are clear afterwards. */
  lemma AskedBitsGo(g: Group, b: Bits, k: nat)
    requires k < |g.waiting| && Takes(Or(g.bits, b), g.waiting[k])
    ensures AllClear(SetBits(g, b).bits, WaitedFor(g.waiting[k].value))
  {
    hide AllClear, Subset, Or, Minus, ToClear, Remaining, Released, Tell, Satisfied, ClearsOnExit, WaitedFor;
    AskedIsTaken(Or(g.bits, b), g.waiting, k);
    MinusClears(Or(g.bits, b), ToClear(Or(g.bits, b), g.waiting), WaitedFor(g.waiting[k].value));
  }

  /** Setting bits sets no others. */
  lemma NoOtherBits(g: Group, b: Bits)
    ensures Subset(SetBits(g, b).bits, Or(g.bits, b))
  {
    hide Subset, Or, Minus, ToClear, Remaining, Released, Tell;
    ClearingShrinks(Or(g.bits, b), ToClear(Or(g.bits, b), g.waiting));
  }

  // ---------- the same on the arguments of the waits ----------

  /** Task u waits, the bits `current` meet its condition, and it asked for clearing. */
  ghost predicate WouldTake(s: Sys, current: Bits, u: Task) {
    && u < |s.pcs| && s.pcs[u].Inside? && HasTask(s.g.waiting, u)
    && s.pcs[u].q.clearOnExit && Met(current, s.pcs[u].q.waitFor, s.pcs[u].q.all)
  }

  /** Nobody who would take a bit of m. */
  ghost predicate Untouched(s: Sys, current: Bits, m: Bits) {
    forall u: Task :: WouldTake(s, current, u) ==> AllClear(s.pcs[u].q.waitFor, m)
  }

  lemma UntouchedIsUnasked(s: Sys, current: Bits, m: Bits)
    requires Inv(s) && Untouched(s, current, m)
    ensures Unasked(current, s.g.waiting, m)
  {
    hide AllClear, NoControl, Encode, Met, Satisfied, ClearsOnExit, WaitedFor, NoneSatisfied, Leavers;
    forall i | 0 <= i < |s.g.waiting| && Takes(current, s.g.waiting[i])
      ensures AllClear(WaitedFor(s.g.waiting[i].value), m)
    {
      var x := s.g.waiting[i];
      assert WaiterOk(s, x);
      SatisfiedIsMet(current, s.pcs[x.task].q);
      RequestRoundTrip(s.pcs[x.task].q);
      assert HasTask(s.g.waiting, x.task);
      assert WouldTake(s, current, x.task);
    }
  }

  /** After a task has set bits: a bit stays unless somebody who is released asked to clear it. */
  lemma SetKeepsBits(s: Sys, t: Task, b: Bits, m: Bits)
    requires Inv(s) && Enabled(s, Set(t, b))
    requires Subset(m, Or(s.g.bits, b)) && Untouched(s, Or(s.g.bits, b), m)
    ensures Subset(m, Step(s, Set(t, b)).g.bits)
  {
    hide Inv, Untouched, Unasked, Subset, Or, SetBits, NoControl;
    UntouchedIsUnasked(s, Or(s.g.bits, b), m);
    UnaskedBitsStay(s.g, b, m);
  }

  lemma SetTakes(s: Sys, b: Bits, u: Task)
    requires Inv(s) && WouldTake(s, Or(s.g.bits, b), u)
    ensures AllClear(SetBits(s.g, b).bits, s.pcs[u].q.waitFor)
  {
    hide AllClear, NoControl, Encode, Met, Satisfied, ClearsOnExit, WaitedFor, NoneSatisfied, Leavers, SetBits, Or;
    var k :| 0 <= k < |s.g.waiting| && s.g.waiting[k].task == u;
    assert WaiterOk(s, s.g.waiting[k]);
    SatisfiedIsMet(Or(s.g.bits, b), s.pcs[u].q);
    RequestRoundTrip(s.pcs[u].q);
    AskedBitsGo(s.g, b, k);
  }

  /** And what somebody who is released asked to clear is clear. */
  lemma SetClearsBits(s: Sys, t: Task, b: Bits, u: Task)
    requires Inv(s) && Enabled(s, Set(t, b)) && WouldTake(s, Or(s.g.bits, b), u)
    ensures AllClear(Step(s, Set(t, b)).g.bits, s.pcs[u].q.waitFor)
  {
    hide Inv, WouldTake, AllClear, SetBits, NoControl, Or;
    SetTakes(s, b, u);
  }

  /** A rendezvous sets its bits in the same way; when it completes it clears those it waited for,
      and keeps the others. */
  lemma RendezvousKeepsBits(s: Sys, t: Task, b: Bits, w: Bits, mayBlock: bool, m: Bits)
    requires Inv(s) && Enabled(s, Rendezvous(t, b, w, mayBlock))
    requires Subset(m, Or(s.g.bits, b)) && Untouched(s, Or(s.g.bits, b), m)
    requires Met(Or(s.g.bits, b), w, true) ==> AllClear(w, m)
    ensures Subset(m, Step(s, Rendezvous(t, b, w, mayBlock)).g.bits)
  {
    hide Inv, Untouched, Unasked, Subset, Or, SetBits, NoControl, AllClear, Met, Minus, Encode;
    UntouchedIsUnasked(s, Or(s.g.bits, b), m);
    UnaskedBitsStay(s.g, b, m);
    if Met(Or(s.g.bits, b), w, true) {
      MinusKeeps(SetBits(s.g, b).bits, w, m);
    }
  }

  /** A rendezvous that is not complete does what setting the bits does, and then blocks, or returns
      the bits that are left if it may not. */
  lemma RendezvousAnswers(s: Sys, t: Task, b: Bits, w: Bits, mayBlock: bool, u: Task)
    requires Enabled(s, Rendezvous(t, b, w, mayBlock)) && !Met(Or(s.g.bits, b), w, true)
    ensures Enabled(s, Set(t, b))
    ensures var (r, a) := (Step(s, Rendezvous(t, b, w, mayBlock)), Step(s, Set(t, b)));
            && r.g.bits == a.g.bits && r.g.told == a.g.told
            && (if mayBlock then r.pcs == a.pcs[t := Inside(Request(w, true, true))]
                else r.pcs == a.pcs[t := Out(a.g.bits)])
            && (HasTask(r.g.waiting, u) <==> HasTask(a.g.waiting, u) || (mayBlock && u == t))
  {
    hide SetBits, Or, Met, NoControl, Encode;
    var a := Step(s, Set(t, b)).g.waiting;
    var v := a + [Waiter(t, Encode(Request(w, true, true)))];
    if HasTask(a, u) {
      var i :| 0 <= i < |a| && a[i].task == u;
      assert v[i].task == u;
    }
    assert v[|a|].task == t;
  }

  // ---------- clearing and waiting ----------

  /** What a cleared mask does to the bits: its bits are clear, every other one is as before. */
  ghost predicate Cleared(was: Bits, now: Bits, w: Bits) {
    AllClear(now, w) && Subset(now, was) && forall m: Bits :: Subset(m, was) && AllClear(w, m) ==> Subset(m, now)
  }

  lemma MinusIsCleared(a: Bits, w: Bits)
    ensures Cleared(a, Minus(a, w), w)
  {
    hide AllClear, Subset, Minus, NoControl;
    MaskCleared(a, w);
    ClearingShrinks(a, w);
    forall m: Bits | Subset(m, a) && AllClear(w, m)
      ensures Subset(m, Minus(a, w))
    {
      MinusKeeps(a, w, m);
    }
  }

  lemma ClearAnswers(s: Sys, t: Task, b: Bits)
    requires Enabled(s, Clear(t, b))
    ensures var r := Step(s, Clear(t, b));
            Cleared(s.g.bits, r.g.bits, b) && r.g.waiting == s.g.waiting && r.g.told == s.g.told && r.pcs == s.pcs
  {
    hide Cleared, Minus, NoControl;
    MinusIsCleared(s.g.bits, b);
  }

  /** A wait whose condition is met returns the bits at once and clears what it waited for only if
      asked; one that may not block returns the bits and changes nothing; any other one waits, and
      disturbs nobody. */
  lemma WaitAnswers(s: Sys, t: Task, q: Request, mayBlock: bool, u: Task)
    requires Enabled(s, Wait(t, q, mayBlock))
    ensures var r := Step(s, Wait(t, q, mayBlock));
            if Met(s.g.bits, q.waitFor, q.all) then
              && r.pcs == s.pcs[t := Out(s.g.bits)] && r.g.waiting == s.g.waiting && r.g.told == s.g.told
              && (if q.clearOnExit then Cleared(s.g.bits, r.g.bits, q.waitFor) else r.g.bits == s.g.bits)
            else if !mayBlock then r == s.(pcs := s.pcs[t := Out(s.g.bits)])
            else
              && r.pcs == s.pcs[t := Inside(q)] && r.g.bits == s.g.bits && r.g.told == s.g.told
              && (HasTask(r.g.waiting, u) <==> u == t || HasTask(s.g.waiting, u))
  {
    hide Cleared, Minus, NoControl, Met, Encode;
    MinusIsCleared(s.g.bits, q.waitFor);
    var v := s.g.waiting + [Waiter(t, Encode(q))];
    if HasTask(s.g.waiting, u) {
      var i :| 0 <= i < |s.g.waiting| && s.g.waiting[i].task == u;
      assert v[i].task == u;
    }
    assert v[|s.g.waiting|].task == t;
  }

  /** A wait that times out leaves the list, alone. */
  lemma TimeoutAnswers(s: Sys, t: Task, u: Task)
    requires Inv(s) && Enabled(s, Timeout(t))
    ensures var r := Step(s, Timeout(t));
            && r.g.bits == s.g.bits && r.pcs == s.pcs && t in r.g.told && !Unblocked(r.g.told[t])
            && (HasTask(r.g.waiting, u) <==> u != t && HasTask(s.g.waiting, u))
  {
    hide NoControl, Encode, Unblocked, NoneSatisfied, Leavers, WaitedFor, WaitsForAll, ClearsOnExit;
    var r := Step(s, Timeout(t));
    var k :| 0 <= k < |s.g.waiting| && s.g.waiting[k].task == t;
    assert WaiterOk(s, s.g.waiting[k]);
    RequestRoundTrip(s.pcs[t].q);
    DroppedTask(s.g.waiting, t, u);
  }

  lemma DroppedTask(ws: seq<Waiter>, t: Task, u: Task)
    ensures HasTask(Drop(ws, t), u) <==> u != t && HasTask(ws, u)
  {
    hide Drop;
    var v := Drop(ws, t);
    if HasTask(v, u) {
      var i :| 0 <= i < |v| && v[i].task == u;
      DropMember(ws, t, v[i]);
      assert v[i] in ws;
    }
    if u != t && HasTask(ws, u) {
      var i :| 0 <= i < |ws| && ws[i].task == u;
      DropMember(ws, t, ws[i]);
      assert ws[i] in v;
    }
  }

  /** A task that leaves its wait after a timeout returns the bits of that moment, and clears what it
      waited for if they meet its condition after all and it asked for that.  One that was released
      leaves the bits alone. */
  lemma LeaveAnswers(s: Sys, t: Task)
    requires Inv(s) && Enabled(s, Leave(t))
    ensures var (r, q) := (Step(s, Leave(t)), s.pcs[t].q);
            && r.g.waiting == s.g.waiting && r.g.told == s.g.told
            && if Unblocked(s.g.told[t]) then r.g.bits == s.g.bits && r.pcs == s.pcs[t := Out(WaitedFor(s.g.told[t]))]
               else
                 && r.pcs == s.pcs[t := Out(s.g.bits)]
                 && if Met(s.g.bits, q.waitFor, q.all) && q.clearOnExit then Cleared(s.g.bits, r.g.bits, q.waitFor)
                    else r.g.bits == s.g.bits
  {
    hide Cleared, Minus, NoControl, Met, Encode, Unblocked, WaitedFor, NoneSatisfied, Leavers, Waiters;
    MinusIsCleared(s.g.bits, s.pcs[t].q.waitFor);
    PlainBits(s.g.bits);
  }

  /** A task that times out returns, whenever it runs again, the bits of that moment. */
  lemma TimedOutReturnsBits(states: seq<Sys>, evs: seq<Event>, t: Task, i: nat)
    requires Run(states, evs) && Inv(states[0]) && 0 < i < |evs|
    requires evs[0] == Timeout(t) && evs[i] == Leave(t) && forall k :: 0 <= k < i ==> evs[k] != Leave(t)
    ensures t < |states[i + 1].pcs| && states[i + 1].pcs[t] == Out(states[i].g.bits)
  {
    hide Inv, NoControl, Unblocked, HasTask, Step, Drop, Encode, Met, Cleared;
    TimeoutAnswers(states[0], t, t);
    RunKeepsInv(states, evs, 1);
    assert Run(states[1..], evs[1..]);
    assert states[1].pcs == states[0].pcs;
    RunKeepsTold(states[1..], evs[1..], i - 1, t, states[1].g.told[t]);
    assert states[1..][i - 1] == states[i];
    RunKeepsInv(states, evs, i);
    LeaveAnswers(states[i], t);
  }
}
