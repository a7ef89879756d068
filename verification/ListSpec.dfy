/** The sequence view of the kernel's intrusive lists (FreeRTOS/list.c).

    The heap representation in module HeapList refines what is defined here, and the other
    modules use this view only. */
module ListSpec {

  /** A list item: its owner and its xItemValue. */
  datatype Entry<T> = Entry(owner: T, value: int)

  ghost predicate Sorted<T>(s: seq<Entry<T>>) {
    forall i, j :: 0 <= i < j < |s| ==> s[i].value <= s[j].value
  }

  /** Where the scan of vListInsert stops: behind the leading items whose value is at most v. */
  function InsertPos<T>(s: seq<Entry<T>>, v: int): (p: nat)
    ensures p <= |s|
    ensures forall i :: 0 <= i < p ==> s[i].value <= v
    ensures p < |s| ==> s[p].value > v
  {
    if s == [] || s[0].value > v then 0 else 1 + InsertPos(s[1..], v)
  }

  function Insert<T>(s: seq<Entry<T>>, e: Entry<T>): (r: seq<Entry<T>>) {
    var p := InsertPos(s, e.value);
    s[..p] + [e] + s[p..]
  }

  function RemoveAt<T>(s: seq<T>, k: nat): (r: seq<T>)
    requires k < |s|
    ensures |r| == |s| - 1
    ensures forall i :: 0 <= i < |r| ==> r[i] == if i < k then s[i] else s[i + 1]
  {
    s[..k] + s[k + 1..]
  }

  function Owners<T>(s: seq<Entry<T>>): (r: seq<T>)
    ensures |r| == |s|
    ensures forall i :: 0 <= i < |s| ==> r[i] == s[i].owner
  {
    seq(|s|, i requires 0 <= i < |s| => s[i].owner)
  }

  /** The scan may stop at the first greater value, even in a list that is not sorted. */
  lemma {:induction false} ScanStops<T>(s: seq<Entry<T>>, v: int, p: nat)
    requires p <= |s|
    requires forall i :: 0 <= i < p ==> s[i].value <= v
    requires p < |s| ==> s[p].value > v
    ensures InsertPos(s, v) == p
    decreases p
  {
    if p > 0 {
      ScanStops(s[1..], v, p - 1);
    }
  }

  lemma AllBelow<T>(s: seq<Entry<T>>, v: int)
    requires forall i :: 0 <= i < |s| ==> s[i].value <= v
    ensures InsertPos(s, v) == |s|
  {
    ScanStops(s, v, |s|);
  }

  lemma SortedSplit<T>(s: seq<Entry<T>>, v: int)
    requires Sorted(s)
    ensures forall i :: 0 <= i < |s| ==> (s[i].value <= v <==> i < InsertPos(s, v))
  {
    var p := InsertPos(s, v);
    forall i | p <= i < |s|
      ensures s[i].value > v
    {
      assert s[p].value <= s[i].value;
    }
  }

  lemma InsertAt<T>(s: seq<Entry<T>>, e: Entry<T>, i: nat)
    requires i <= |s|
    ensures |Insert(s, e)| == |s| + 1
    ensures Insert(s, e)[i] == var p := InsertPos(s, e.value);
                               if i < p then s[i] else if i == p then e else s[i - 1]
  {
  }

  /** On a sorted list vListInsert is a stable sorted insertion: everything up to the new item is
      at most its value, everything behind is greater, and nothing else moves. */
  lemma InsertIsStable<T>(s: seq<Entry<T>>, e: Entry<T>)
    requires Sorted(s)
    ensures |Insert(s, e)| == |s| + 1 && Sorted(Insert(s, e))
    ensures Insert(s, e)[InsertPos(s, e.value)] == e
    ensures RemoveAt(Insert(s, e), InsertPos(s, e.value)) == s
    ensures forall i :: 0 <= i < |s| ==> (s[i].value <= e.value <==> i < InsertPos(s, e.value))
  {
    var p := InsertPos(s, e.value);
    var r := Insert(s, e);
    SortedSplit(s, e.value);
    assert RemoveAt(r, p) == s;
    forall i, j | 0 <= i < j < |r|
      ensures r[i].value <= r[j].value
    {
      InsertAt(s, e, i);
      InsertAt(s, e, j);
    }
  }

  /** The insertion point is the only one that is both sorted and last among equals. */
  lemma InsertPosUnique<T>(s: seq<Entry<T>>, v: int, p: nat)
    requires Sorted(s) && p <= |s|
    requires forall i :: 0 <= i < p ==> s[i].value <= v
    requires forall i :: p <= i < |s| ==> s[i].value > v
    ensures p == InsertPos(s, v)
  {
    var q := InsertPos(s, v);
    assert p < |s| ==> s[p].value > v;
    assert q < |s| ==> s[q].value > v;
  }

  /** A circular list with its walking cursor pxIndex: 0 is the end marker, k > 0 is items[k - 1]. */
  datatype Ring<T> = Ring(items: seq<T>, index: nat)

  ghost predicate WellFormed<T>(r: Ring<T>) {
    r.index <= |r.items|
  }

  function EmptyRing<T>(): (r: Ring<T>) {
    Ring([], 0)
  }

  /** vListInsertEnd: directly behind the cursor, so last to be reached by walking forward. */
  function InsertEnd<T>(r: Ring<T>, x: T): (q: Ring<T>)
    requires WellFormed(r)
    ensures WellFormed(q)
  {
    if r.index == 0 then Ring(r.items + [x], 0)
    else Ring(r.items[..r.index - 1] + [x] + r.items[r.index - 1..], r.index + 1)
  }

  /** uxListRemove of the item at position k; a cursor on it steps back. */
  function RemoveItem<T>(r: Ring<T>, k: nat): (q: Ring<T>)
    requires WellFormed(r) && k < |r.items|
    ensures WellFormed(q)
  {
    Ring(RemoveAt(r.items, k), if r.index > k then r.index - 1 else r.index)
  }

  /** uxListRemove undoes vListInsertEnd, cursor included. */
  lemma RemoveUndoesInsertEnd<T>(r: Ring<T>, x: T)
    requires WellFormed(r)
    ensures var k := if r.index == 0 then |r.items| else r.index - 1;
            && k < |InsertEnd(r, x).items| && InsertEnd(r, x).items[k] == x
            && RemoveItem(InsertEnd(r, x), k) == r
  {
    var k := if r.index == 0 then |r.items| else r.index - 1;
    assert RemoveItem(InsertEnd(r, x), k).items == r.items;
  }

  /** listGET_OWNER_OF_NEXT_ENTRY: step the cursor, skipping the end marker. */
  function Advance<T>(r: Ring<T>): (q: Ring<T>)
    requires WellFormed(r) && r.items != []
    ensures WellFormed(q) && q.index > 0
  {
    if r.index >= |r.items| then Ring(r.items, 1) else Ring(r.items, r.index + 1)
  }

  function Selected<T>(r: Ring<T>): (x: T)
    requires WellFormed(r) && r.index > 0
  {
    r.items[r.index - 1]
  }

  /** The order in which the next selections come. */
  function Upcoming<T>(r: Ring<T>): (s: seq<T>)
    requires WellFormed(r)
  {
    r.items[r.index..] + r.items[..r.index]
  }

  /** One selection takes the first of the upcoming order and puts it last. */
  lemma AdvanceRotates<T>(r: Ring<T>)
    requires WellFormed(r) && r.items != []
    ensures Selected(Advance(r)) == Upcoming(r)[0]
    ensures Upcoming(Advance(r)) == Upcoming(r)[1..] + [Upcoming(r)[0]]
  {
  }

  /** The tasks chosen by n consecutive selections. */
  function Picks<T>(r: Ring<T>, n: nat): (s: seq<T>)
    requires WellFormed(r) && r.items != []
    ensures |s| == n
    decreases n
  {
    if n == 0 then [] else [Selected(Advance(r))] + Picks(Advance(r), n - 1)
  }

  lemma {:induction false} PicksAreUpcoming<T>(r: Ring<T>, n: nat)
    requires WellFormed(r) && r.items != [] && n <= |r.items|
    ensures Picks(r, n) == Upcoming(r)[..n]
    decreases n
  {
    if n > 0 {
      AdvanceRotates(r);
      PicksAreUpcoming(Advance(r), n - 1);
      var u := Upcoming(r);
      assert (u[1..] + [u[0]])[..n - 1] == u[1..n];
      assert u[..n] == [u[0]] + u[1..n];
    }
  }

  lemma RotationPermutes<T>(s: seq<T>, i: nat)
    requires i <= |s|
    ensures multiset(s[i..] + s[..i]) == multiset(s)
  {
    assert s == s[..i] + s[i..];
  }

  /** Round robin: n consecutive selections over n fixed members visit every member exactly once. */
  lemma RoundRobin<T>(r: Ring<T>)
    requires WellFormed(r) && r.items != []
    ensures multiset(Picks(r, |r.items|)) == multiset(r.items)
  {
    PicksAreUpcoming(r, |r.items|);
    assert Upcoming(r)[..|r.items|] == Upcoming(r);
    RotationPermutes(r.items, r.index);
  }

  datatype ListOp<T> = Select | Add(x: T)

  function Apply<T>(r: Ring<T>, op: ListOp<T>): (q: Ring<T>)
    requires WellFormed(r) && r.items != []
    ensures WellFormed(q) && q.items != []
  {
    match op
    case Select => Advance(r)
    case Add(x) => InsertEnd(r, x)
  }

  function ApplyAll<T>(r: Ring<T>, ops: seq<ListOp<T>>): (q: Ring<T>)
    requires WellFormed(r) && r.items != []
    ensures WellFormed(q) && q.items != []
    decreases ops
  {
    if ops == [] then r else ApplyAll(Apply(r, ops[0]), ops[1..])
  }

  function Selects<T>(ops: seq<ListOp<T>>): (n: nat)
    decreases ops
  {
    if ops == [] then 0 else (if ops[0].Select? then 1 else 0) + Selects(ops[1..])
  }

  /** The member at place p of the upcoming order has not just been selected. */
  ghost predicate StillWaiting<T>(r: Ring<T>, p: nat) {
    WellFormed(r) && p < |r.items| && (r.index == 0 || p + 1 < |r.items|)
  }

  /** vListInsertEnd leaves the place of every member that is still waiting for its turn alone. */
  lemma InsertEndKeepsTurn<T>(r: Ring<T>, x: T, p: nat)
    requires StillWaiting(r, p)
    ensures StillWaiting(InsertEnd(r, x), p)
    ensures Upcoming(InsertEnd(r, x))[p] == Upcoming(r)[p]
  {
    var n := |r.items|;
    if r.index == 0 {
      assert Upcoming(InsertEnd(r, x)) == r.items + [x];
    } else {
      var i := r.index;
      assert Upcoming(InsertEnd(r, x)) == r.items[i..] + (r.items[..i - 1] + [x] + [r.items[i - 1]]);
      assert Upcoming(r) == r.items[i..] + (r.items[..i - 1] + [r.items[i - 1]]);
    }
  }

  /** No overtaking: whatever tasks are added in between, a waiting member at place p of the
      upcoming order is the one chosen by the (p + 1)-th selection from now. */
  lemma {:induction false} TurnIsKept<T>(r: Ring<T>, ops: seq<ListOp<T>>, p: nat)
    requires StillWaiting(r, p)
    requires Selects(ops) == p
    ensures Selected(Advance(ApplyAll(r, ops))) == Upcoming(r)[p]
    decreases ops
  {
    if ops == [] {
      AdvanceRotates(r);
    } else {
      match ops[0]
      case Select =>
        AdvanceRotates(r);
        assert Upcoming(Advance(r))[p - 1] == Upcoming(r)[p];
        TurnIsKept(Advance(r), ops[1..], p - 1);
      case Add(x) =>
        InsertEndKeepsTurn(r, x, p);
        TurnIsKept(InsertEnd(r, x), ops[1..], p);
    }
  }
}
