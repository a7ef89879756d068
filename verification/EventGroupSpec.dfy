/** Event groups (FreeRTOS/event_groups.c): setting bits releases every task whose condition is
    met, on one snapshot of the bits, and clears afterwards what the released tasks asked for. */
module EventGroupSpec {
  import opened EventBits

  type Task = nat

  /** A task in the list of waiting tasks, with the value of its event list item. */
  datatype Waiter = Waiter(task: Task, value: Bits)

  datatype Group = Group(
    bits: Bits,                // uxEventBits
    waiting: seq<Waiter>,      // xTasksWaitingForBits
    told: map<Task, Bits>)     // event list item values of the tasks that have left that list

  datatype Outcome = Done(result: Bits) | Blocked

  // ---------- setting bits ----------

  function Released(current: Bits, ws: seq<Waiter>): (r: seq<Waiter>)
    decreases |ws|
  {
    if ws == [] then []
    else
      var x := ws[|ws| - 1];
      Released(current, ws[..|ws| - 1]) + if Satisfied(current, x.value) then [x] else []
  }

  function Remaining(current: Bits, ws: seq<Waiter>): (r: seq<Waiter>)
    decreases |ws|
  {
    if ws == [] then []
    else
      var x := ws[|ws| - 1];
      Remaining(current, ws[..|ws| - 1]) + if Satisfied(current, x.value) then [] else [x]
  }

  /** What waiter x adds to the bits to clear. */
  function Mask(current: Bits, x: Waiter): (b: Bits) {
    if Satisfied(current, x.value) && ClearsOnExit(x.value) then WaitedFor(x.value) else 0
  }

  function ToClear(current: Bits, ws: seq<Waiter>): (b: Bits)
    decreases |ws|
  {
    if ws == [] then 0
    else Or(ToClear(current, ws[..|ws| - 1]), Mask(current, ws[|ws| - 1]))
  }

  /** The released tasks' item values become v. */
  function Tell(told: map<Task, Bits>, ws: seq<Waiter>, v: Bits): (r: map<Task, Bits>)
    decreases |ws|
  {
    if ws == [] then told else Tell(told, ws[..|ws| - 1], v)[ws[|ws| - 1].task := v]
  }

  /** xEventGroupSetBits. */
  function SetBits(g: Group, b: Bits): (r: Group) {
    var current := Or(g.bits, b);
    Group(Minus(current, ToClear(current, g.waiting)),
          Remaining(current, g.waiting),
          Tell(g.told, Released(current, g.waiting), Snapshot(current)))
  }

  // ---------- the other operations ----------

  function ClearBits(g: Group, b: Bits): (r: Group) {
    g.(bits := Minus(g.bits, b))
  }

  /** xEventGroupWaitBits up to the point where the task blocks. */
  function WaitBits(g: Group, t: Task, q: Request, mayBlock: bool): (r: (Group, Outcome)) {
    if Met(g.bits, q.waitFor, q.all) then (if q.clearOnExit then ClearBits(g, q.waitFor) else g, Done(g.bits))
    else if !mayBlock then (g, Done(g.bits))
    else (g.(waiting := g.waiting + [Waiter(t, Encode(q))]), Blocked)
  }

  /** xEventGroupSync up to the point where the task blocks. */
  function Sync(g: Group, t: Task, b: Bits, waitFor: Bits, mayBlock: bool): (r: (Group, Outcome)) {
    var a := SetBits(g, b);
    if Met(Or(g.bits, b), waitFor, true) then (ClearBits(a, waitFor), Done(Or(g.bits, b)))
    else if mayBlock then (a.(waiting := a.waiting + [Waiter(t, Encode(Request(waitFor, true, true)))]), Blocked)
    else (a, Done(a.bits))
  }

  /** What a task does when it runs again after having blocked in either function. */
  function Return(g: Group, t: Task, q: Request): (r: (Group, Bits))
    requires t in g.told
  {
    var v := g.told[t];
    if Unblocked(v) then (g, WaitedFor(v))
    else (if Met(g.bits, q.waitFor, q.all) && q.clearOnExit then ClearBits(g, q.waitFor) else g, WaitedFor(g.bits))
  }

  // ---------- what setting bits does ----------

  lemma {:induction false} SplitByMatch(current: Bits, ws: seq<Waiter>, x: Waiter)
    ensures x in Released(current, ws) <==> x in ws && Satisfied(current, x.value)
    ensures x in Remaining(current, ws) <==> x in ws && !Satisfied(current, x.value)
    decreases |ws|
  {
    hide Satisfied;
    if ws != [] {
      var front := ws[..|ws| - 1];
      SplitByMatch(current, front, x);
      assert x in ws <==> x in front || x == ws[|ws| - 1];
    }
  }

  ghost predicate NoneSatisfied(bits: Bits, ws: seq<Waiter>) {
    forall i :: 0 <= i < |ws| ==> !Satisfied(bits, ws[i].value)
  }

  /** Whatever was waiting before, nobody whose condition is met waits after bits have been set. */
  lemma SetLeavesNoneSatisfied(g: Group, b: Bits)
    ensures NoneSatisfied(SetBits(g, b).bits, SetBits(g, b).waiting)
  {
    hide Satisfied, ToClear, Snapshot, Subset, Or, Minus;
    var current, r := Or(g.bits, b), SetBits(g, b);
    ClearingShrinks(current, ToClear(current, g.waiting));
    forall i | 0 <= i < |r.waiting|
      ensures !Satisfied(r.bits, r.waiting[i].value)
    {
      SplitByMatch(current, g.waiting, r.waiting[i]);
      if Satisfied(r.bits, r.waiting[i].value) {
        SatisfiedGrows(r.bits, current, r.waiting[i].value);
      }
    }
  }

  lemma FewerBitsSatisfyNone(a: Bits, b: Bits, ws: seq<Waiter>)
    requires Subset(a, b) && NoneSatisfied(b, ws)
    ensures NoneSatisfied(a, ws)
  {
    hide Satisfied, Subset;
    forall i | 0 <= i < |ws|
      ensures !Satisfied(a, ws[i].value)
    {
      if Satisfied(a, ws[i].value) {
        SatisfiedGrows(a, b, ws[i].value);
      }
    }
  }

  // ---------- the order of the list does not matter ----------

  lemma DropLast(ws: seq<Waiter>, k: nat)
    requires k < |ws| - 1
    ensures var rest := ws[..k] + ws[k + 1..];
            rest != [] && rest[|rest| - 1] == ws[|ws| - 1]
            && rest[..|rest| - 1] == ws[..|ws| - 1][..k] + ws[..|ws| - 1][k + 1..]
  {
  }

  /** Taking waiter k out of the list leaves a list to which it adds its own share. */
  lemma {:induction false} ExtractMask(current: Bits, ws: seq<Waiter>, k: nat)
    requires k < |ws|
    ensures ToClear(current, ws) == Or(ToClear(current, ws[..k] + ws[k + 1..]), Mask(current, ws[k]))
    decreases |ws|
  {
    hide Satisfied, Mask, Or;
    var n := |ws| - 1;
    var front := ws[..n];
    if k == n {
      assert ws[..k] + ws[k + 1..] == front;
    } else {
      ExtractMask(current, front, k);
      DropLast(ws, k);
      OrMoves(ToClear(current, front[..k] + front[k + 1..]), Mask(current, ws[k]), Mask(current, ws[n]));
    }
  }

  lemma {:induction false} ExtractReleased(current: Bits, ws: seq<Waiter>, k: nat)
    requires k < |ws|
    ensures multiset(Released(current, ws))
         == multiset(Released(current, ws[..k] + ws[k + 1..]) + if Satisfied(current, ws[k].value)
             then [ws[k]] else [])
    decreases |ws|
  {
    hide Satisfied;
    if k == |ws| - 1 {
      assert ws[..k] + ws[k + 1..] == ws[..|ws| - 1];
    } else {
      ExtractReleased(current, ws[..|ws| - 1], k);
      DropLast(ws, k);
    }
  }

  lemma {:induction false} ExtractRemaining(current: Bits, ws: seq<Waiter>, k: nat)
    requires k < |ws|
    ensures multiset(Remaining(current, ws))
         == multiset(Remaining(current, ws[..k] + ws[k + 1..]) + if Satisfied(current, ws[k].value) then []
             else [ws[k]])
    decreases |ws|
  {
    hide Satisfied;
    if k == |ws| - 1 {
      assert ws[..k] + ws[k + 1..] == ws[..|ws| - 1];
    } else {
      ExtractRemaining(current, ws[..|ws| - 1], k);
      DropLast(ws, k);
    }
  }

  lemma CutOne(w: seq<Waiter>, k: nat)
    requires k < |w|
    ensures multiset(w) == multiset(w[..k] + w[k + 1..]) + multiset{w[k]}
  {
    assert w == (w[..k] + [w[k]]) + w[k + 1..];
  }

  /** Where the last waiter of v stands in another order of the same list. */
  lemma FindLast(v: seq<Waiter>, w: seq<Waiter>) returns (k: nat)
    requires v != [] && multiset(v) == multiset(w)
    ensures k < |w| && w[k] == v[|v| - 1]
    ensures multiset(v[..|v| - 1]) == multiset(w[..k] + w[k + 1..])
  {
    var x := v[|v| - 1];
    assert x in multiset(v);
    assert x in w;
    k :| 0 <= k < |w| && w[k] == x;
    CutOne(v, |v| - 1);
    CutOne(w, k);
    assert v[..|v| - 1] + v[|v| - 1 + 1..] == v[..|v| - 1];
    assert multiset(v[..|v| - 1]) == multiset(v) - multiset{x};
    assert multiset(w[..k] + w[k + 1..]) == multiset(w) - multiset{x};
  }

  /** Any order of the waiting list gives the same released tasks, the same remaining ones, and the
      same bits to clear. */
  lemma {:induction false} OrderDoesNotMatter(current: Bits, v: seq<Waiter>, w: seq<Waiter>)
    requires multiset(v) == multiset(w)
    ensures ToClear(current, v) == ToClear(current, w)
    ensures multiset(Released(current, v)) == multiset(Released(current, w))
    ensures multiset(Remaining(current, v)) == multiset(Remaining(current, w))
    decreases |v|
  {
    hide Satisfied, Mask, Or;
    if v == [] {
      assert |multiset(w)| == 0;
      assert w == [];
    } else {
      var k := FindLast(v, w);
      OrderDoesNotMatter(current, v[..|v| - 1], w[..k] + w[k + 1..]);
      ExtractMask(current, w, k);
      ExtractReleased(current, w, k);
      ExtractRemaining(current, w, k);
    }
  }

  ghost predicate HasTask(ws: seq<Waiter>, t: Task) {
    exists i :: 0 <= i < |ws| && ws[i].task == t
  }

  /** Whoever is released or stays was waiting. */
  lemma ListsShrink(current: Bits, ws: seq<Waiter>, t: Task)
    ensures HasTask(Released(current, ws), t) ==> HasTask(ws, t)
    ensures HasTask(Remaining(current, ws), t) ==> HasTask(ws, t)
  {
    hide Satisfied;
    var released, remaining := Released(current, ws), Remaining(current, ws);
    if HasTask(released, t) {
      var i :| 0 <= i < |released| && released[i].task == t;
      SplitByMatch(current, ws, released[i]);
      assert released[i] in ws;
    }
    if HasTask(remaining, t) {
      var i :| 0 <= i < |remaining| && remaining[i].task == t;
      SplitByMatch(current, ws, remaining[i]);
      assert remaining[i] in ws;
    }
  }

  ghost predicate EachOnce(ws: seq<Waiter>) {
    forall i, j :: 0 <= i < j < |ws| ==> ws[i].task != ws[j].task
  }

  /** A task that waits once and is released does not stay. */
  lemma ReleasedIsGone(current: Bits, ws: seq<Waiter>, k: nat)
    requires EachOnce(ws) && k < |ws| && Satisfied(current, ws[k].value)
    ensures HasTask(Released(current, ws), ws[k].task) && !HasTask(Remaining(current, ws), ws[k].task)
  {
    hide Satisfied;
    var remaining := Remaining(current, ws);
    SplitByMatch(current, ws, ws[k]);
    forall i | 0 <= i < |remaining|
      ensures remaining[i].task != ws[k].task
    {
      SplitByMatch(current, ws, remaining[i]);
      var j :| 0 <= j < |ws| && ws[j] == remaining[i];
      assert j != k;
    }
  }

  /** Exactly the released tasks are told, and all are told the same. */
  lemma {:induction false} TellIs(told: map<Task, Bits>, ws: seq<Waiter>, v: Bits, t: Task)
    ensures t in Tell(told, ws, v) <==> t in told || HasTask(ws, t)
    ensures HasTask(ws, t) ==> t in Tell(told, ws, v) && Tell(told, ws, v)[t] == v
    ensures !HasTask(ws, t) && t in told ==> Tell(told, ws, v)[t] == told[t]
    decreases |ws|
  {
    if ws != [] {
      var n := |ws| - 1;
      TellIs(told, ws[..n], v, t);
      if HasTask(ws[..n], t) {
        var i :| 0 <= i < n && ws[..n][i].task == t;
        assert ws[i].task == t;
      }
      if ws[n].task == t {
        assert HasTask(ws, t);
      } else if HasTask(ws, t) {
        var i :| 0 <= i < |ws| && ws[i].task == t;
        assert ws[..n][i].task == t;
      }
    }
  }

  lemma SameTasks(v: seq<Waiter>, w: seq<Waiter>, t: Task)
    requires multiset(v) == multiset(w) && HasTask(v, t)
    ensures HasTask(w, t)
  {
    var i :| 0 <= i < |v| && v[i].task == t;
    assert v[i] in multiset(v);
    assert v[i] in w;
  }

  /** Setting bits has one outcome, whatever the order of the waiting list: the same bits are left,
      the same tasks are told the same value, and the same tasks go on waiting. */
  lemma SetBitsIsOrderFree(g: Group, h: Group, b: Bits)
    requires g.bits == h.bits && g.told == h.told && multiset(g.waiting) == multiset(h.waiting)
    ensures SetBits(g, b).bits == SetBits(h, b).bits && SetBits(g, b).told == SetBits(h, b).told
    ensures multiset(SetBits(g, b).waiting) == multiset(SetBits(h, b).waiting)
  {
    hide ToClear, Released, Remaining, Tell, Snapshot, Or, Minus, HasTask;
    var current := Or(g.bits, b);
    OrderDoesNotMatter(current, g.waiting, h.waiting);
    var v, w := Released(current, g.waiting), Released(current, h.waiting);
    forall t: Task
      ensures t in Tell(g.told, v, Snapshot(current)) <==> t in Tell(g.told, w, Snapshot(current))
      ensures t in Tell(g.told, v, Snapshot(current)) ==>
                Tell(g.told, v, Snapshot(current))[t] == Tell(g.told, w, Snapshot(current))[t]
    {
      TellIs(g.told, v, Snapshot(current), t);
      TellIs(g.told, w, Snapshot(current), t);
      if HasTask(v, t) {
        SameTasks(v, w, t);
      } else if HasTask(w, t) {
        SameTasks(w, v, t);
      }
    }
  }
}
