/** An event group as an object: the methods of FreeRTOS/event_groups.c, proved against module
    EventGroupSpec. */
module EventGroups {
  import opened EventBits
  import opened EventGroupSpec

  class EventGroup {
    var bits: Bits
    var waiting: seq<Waiter>
    var told: map<Task, Bits>

    ghost function Abs(): (g: Group)
      reads this
    {
      Group(bits, waiting, told)
    }

    /** vTaskRemoveFromUnorderedEventList of the item at place k. */
    method RemoveFromList(k: nat, value: Bits)
      requires k < |waiting|
      modifies this`waiting, this`told
      ensures waiting == old(waiting)[..k] + old(waiting)[k + 1..]
      ensures told == old(told)[old(waiting)[k].task := value | VALUE_IN_USE]
    {
      told := told[waiting[k].task := value | VALUE_IN_USE];
      waiting := waiting[..k] + waiting[k + 1..];
    }

    /** xEventGroupSetBits up to the resume of the scheduler.  The item behind is looked up before an
        item is unlinked: k is the place of the next item and `done` how many of the original list
        have been looked at. */
    method SetBits(b: Bits)
      modifies this
      ensures Abs() == EventGroupSpec.SetBits(old(Abs()), b)
    {
      hide Satisfied, Mask, Or, Minus, Snapshot, Looked;
      ghost var was := Abs();
      SetBit(b);
      var toClear: Bits := 0;
      var k := 0;
      ghost var done := 0;
      NothingYet(was, Or(was.bits, b));
      while k < |waiting|
        invariant Looked(was, Or(was.bits, b), done, Abs(), k, toClear)
        decreases |was.waiting| - done
      {
        LookedOne(was, Or(was.bits, b), done, Abs(), k, toClear);
        var matchFound := TestItem(bits, waiting[k].value);
        toClear := AddToClear(toClear, waiting[k], matchFound);
        if matchFound {
          Release(k);
        } else {
          k := k + 1;
        }
        done := done + 1;
      }
      LookedAll(was, Or(was.bits, b), done, Abs(), k, toClear);
      Clear(toClear);
    }

    /** What xEventGroupSetBits returns: the bits once the scheduler has been resumed, which is a
        state of its own. */
    method BitsAfterSet() returns (now: Bits)
      ensures now == bits
    {
      now := bits;
    }

    method SetBit(b: Bits)
      modifies this`bits
      ensures bits == Or(old(bits), b)
    {
      bits := bits | b;
    }

    method Clear(b: Bits)
      modifies this`bits
      ensures bits == Minus(old(bits), b)
    {
      bits := bits & !b;
    }

    /** The match test of the loop, on the two halves of the item value. */
    method TestItem(current: Bits, v: Bits) returns (matchFound: bool)
      ensures matchFound <==> Satisfied(current, v)
    {
      hide WaitedFor, WaitsForAll, Matches;
      matchFound := TestBits(current, WaitedFor(v), WaitsForAll(v));
    }

    method TestBits(current: Bits, waitedFor: Bits, all: bool) returns (matchFound: bool)
      ensures matchFound <==> Matches(current, waitedFor, all)
    {
      matchFound := false;
      if !all {
        if waitedFor & current != 0 {
          matchFound := true;
        }
      } else if waitedFor & current == waitedFor {
        matchFound := true;
      }
    }

    method AddToClear(toClear: Bits, x: Waiter, matchFound: bool) returns (r: Bits)
      requires matchFound <==> Satisfied(bits, x.value)
      ensures r == Or(toClear, Mask(bits, x))
    {
      hide Satisfied;
      r := toClear;
      OrNothing(toClear);
      if matchFound {
        if (x.value & CONTROL_BYTES) & CLEAR_EVENTS_ON_EXIT != 0 {
          r := r | (x.value & !CONTROL_BYTES);
        }
      }
    }

    method Release(k: nat)
      requires k < |waiting|
      modifies this`waiting, this`told
      ensures waiting == old(waiting)[..k] + old(waiting)[k + 1..]
      ensures told == old(told)[old(waiting)[k].task := Snapshot(bits)]
    {
      RemoveFromList(k, bits | UNBLOCKED_DUE_TO_BIT_SET);
    }

    /** xEventGroupClearBits. */
    method ClearBits(b: Bits) returns (before: Bits)
      modifies this`bits
      ensures Abs() == EventGroupSpec.ClearBits(old(Abs()), b) && before == old(bits)
    {
      before := bits;
      Clear(b);
    }

    /** xEventGroupWaitBits up to the point where the task blocks. */
    method WaitBits(t: Task, q: Request, mayBlock: bool) returns (o: Outcome)
      modifies this
      ensures (Abs(), o) == EventGroupSpec.WaitBits(old(Abs()), t, q, mayBlock)
    {
      hide Met, Minus, Encode;
      var current := bits;
      if Met(current, q.waitFor, q.all) {
        if q.clearOnExit {
          Clear(q.waitFor);
        }
        o := Done(current);
      } else if !mayBlock {
        o := Done(current);
      } else {
        waiting := waiting + [Waiter(t, Encode(q))];
        o := Blocked;
      }
    }

    /** xEventGroupSync up to the point where the task blocks. */
    method Sync(t: Task, b: Bits, waitFor: Bits, mayBlock: bool) returns (o: Outcome)
      modifies this
      ensures (Abs(), o) == EventGroupSpec.Sync(old(Abs()), t, b, waitFor, mayBlock)
    {
      hide Met, Minus, Encode, Or, EventGroupSpec.SetBits;
      var original := bits;
      SetBits(b);
      if Met(Or(original, b), waitFor, true) {
        o := Done(Or(original, b));
        Clear(waitFor);
      } else if mayBlock {
        waiting := waiting + [Waiter(t, Encode(Request(waitFor, true, true)))];
        o := Blocked;
      } else {
        o := Done(bits);
      }
    }

    /** What xEventGroupWaitBits and xEventGroupSync do when the task runs again. */
    method Return(t: Task, q: Request) returns (result: Bits)
      requires t in told
      modifies this`bits
      ensures (Abs(), result) == EventGroupSpec.Return(old(Abs()), t, q)
    {
      hide Met, Minus, Unblocked, WaitedFor;
      var v := told[t];
      if !Unblocked(v) {
        result := bits;
        if Met(result, q.waitFor, q.all) {
          if q.clearOnExit {
            Clear(q.waitFor);
          }
        }
      } else {
        result := v;
      }
      result := WaitedFor(result);
    }
  }

  lemma OrNothing(a: Bits)
    ensures Or(a, 0) == a
  {
  }

  /** `done` waiters of group w have been looked at, the next one is at place k, and g is the group
      now. */
  ghost predicate Looked(w: Group, current: Bits, done: nat, g: Group, k: nat, toClear: Bits) {
    && done <= |w.waiting| && g.bits == current
    && k == |Remaining(current, w.waiting[..done])|
    && g.waiting == Remaining(current, w.waiting[..done]) + w.waiting[done..]
    && toClear == ToClear(current, w.waiting[..done])
    && g.told == Tell(w.told, Released(current, w.waiting[..done]), Snapshot(current))
  }

  lemma NothingYet(w: Group, current: Bits)
    ensures Looked(w, current, 0, w.(bits := current), 0, 0)
  {
    assert w.waiting[..0] == [];
  }

  lemma LookedOne(w: Group, current: Bits, done: nat, g: Group, k: nat, toClear: Bits)
    requires Looked(w, current, done, g, k, toClear) && k < |g.waiting|
    ensures done < |w.waiting| && g.bits == current
    ensures var (x, r) := (g.waiting[k], Or(toClear, Mask(current, g.waiting[k])));
            if Satisfied(current, x.value) then
              var rest := g.waiting[..k] + g.waiting[k + 1..];
              Looked(w, current, done + 1, Group(g.bits, rest, g.told[x.task := Snapshot(current)]), k, r)
            else Looked(w, current, done + 1, g, k + 1, r)
  {
    hide Satisfied, Mask, Or, Snapshot, ToClear, Released, Remaining, Tell;
    OneMore(current, w.waiting, done, w.told, Snapshot(current));
    assert g.waiting[k] == w.waiting[done];
    assert g.waiting[k..] == w.waiting[done..];
  }

  lemma LookedAll(w: Group, current: Bits, done: nat, g: Group, k: nat, toClear: Bits)
    requires Looked(w, current, done, g, k, toClear) && k >= |g.waiting|
    ensures g == Group(current, Remaining(current, w.waiting),
                       Tell(w.told, Released(current, w.waiting), Snapshot(current)))
    ensures toClear == ToClear(current, w.waiting)
  {
    hide Satisfied, Mask, Or, Snapshot, ToClear, Released, Remaining, Tell;
    assert done == |w.waiting|;
    assert w.waiting[..done] == w.waiting;
  }

  /** What looking at one more waiter adds. */
  lemma OneMore(current: Bits, ws: seq<Waiter>, n: nat, told: map<Task, Bits>, v: Bits)
    requires n < |ws|
    ensures Remaining(current, ws[..n + 1])
         == Remaining(current, ws[..n]) + (if Satisfied(current, ws[n].value) then [] else [ws[n]])
    ensures ToClear(current, ws[..n + 1]) == Or(ToClear(current, ws[..n]), Mask(current, ws[n]))
    ensures Tell(told, Released(current, ws[..n + 1]), v)
         == if Satisfied(current, ws[n].value) then Tell(told, Released(current, ws[..n]), v)[ws[n].task := v]
            else Tell(told, Released(current, ws[..n]), v)
  {
    hide Satisfied, Mask, Or, Tell;
    assert ws[..n + 1][..n] == ws[..n];
    if Satisfied(current, ws[n].value) {
      assert Released(current, ws[..n + 1]) == Released(current, ws[..n]) + [ws[n]];
      TellOne(told, Released(current, ws[..n]), ws[n], v);
    } else {
      assert Released(current, ws[..n + 1]) == Released(current, ws[..n]);
    }
  }

  lemma TellOne(told: map<Task, Bits>, ws: seq<Waiter>, x: Waiter, v: Bits)
    ensures Tell(told, ws + [x], v) == Tell(told, ws, v)[x.task := v]
  {
    assert (ws + [x])[..|ws|] == ws;
  }
}
