/** Two lists of wrapped times, one for the current clock epoch and one for the next.

    Both the delayed task lists (FreeRTOS/tasks.c) and the active timer lists
    (FreeRTOS/timers.c) are such a pair.  Read on the unbounded clock the pair is one sorted
    list of true times, and this module proves that inserting, popping and swapping the pair are
    inserting, popping and nothing at all on that one list. */
module DelayLists {
  import opened Ticks
  import opened ListSpec

  ghost predicate TickValues<T>(s: seq<Entry<T>>) {
    forall i :: 0 <= i < |s| ==> 0 <= s[i].value < TICKS
  }

  /** A list of wrapped times of epoch e, on the unbounded clock. */
  function Lift<T>(s: seq<Entry<T>>, e: nat): (r: seq<Entry<T>>)
    ensures |r| == |s|
    ensures forall i :: 0 <= i < |s| ==> r[i] == Entry(s[i].owner, e * TICKS + s[i].value)
  {
    seq(|s|, i requires 0 <= i < |s| => Entry(s[i].owner, e * TICKS + s[i].value))
  }

  /** What the two lists mean when the clock is in epoch e. */
  function Merged<T>(current: seq<Entry<T>>, overflow: seq<Entry<T>>, e: nat): (r: seq<Entry<T>>)
    ensures |r| == |current| + |overflow|
  {
    Lift(current, e) + Lift(overflow, e + 1)
  }

  ghost predicate Pair<T>(current: seq<Entry<T>>, overflow: seq<Entry<T>>) {
    && TickValues(current) && Sorted(current)
    && TickValues(overflow) && Sorted(overflow)
  }

  lemma SpliceLeft<T>(a: seq<T>, b: seq<T>, x: T, p: nat)
    requires p <= |a|
    ensures (a + b)[..p] + [x] + (a + b)[p..] == (a[..p] + [x] + a[p..]) + b
  {
  }

  lemma SpliceRight<T>(a: seq<T>, b: seq<T>, x: T, p: nat)
    requires p <= |b|
    ensures (a + b)[..|a| + p] + [x] + (a + b)[|a| + p..] == a + (b[..p] + [x] + b[p..])
  {
  }

  lemma LiftSplice<T>(s: seq<Entry<T>>, x: Entry<T>, p: nat, e: nat)
    requires p <= |s|
    ensures Lift(s[..p] + [x] + s[p..], e)
         == Lift(s, e)[..p] + [Entry(x.owner, e * TICKS + x.value)] + Lift(s, e)[p..]
  {
  }

  lemma MergedPos<T>(current: seq<Entry<T>>, overflow: seq<Entry<T>>, e: nat, v: Tick)
    requires Pair(current, overflow)
    ensures InsertPos(Merged(current, overflow, e), InEpoch(e, v)) == InsertPos(current, v)
    ensures InsertPos(Merged(current, overflow, e), InEpoch(e + 1, v)) == |Lift(current, e)| + InsertPos(overflow, v)
  {
    var m := Merged(current, overflow, e);
    SortedSplit(current, v);
    SortedSplit(overflow, v);
    ScanStops(m, InEpoch(e, v), InsertPos(current, v));
    ScanStops(m, InEpoch(e + 1, v), |current| + InsertPos(overflow, v));
  }

  lemma InsertTicks<T>(s: seq<Entry<T>>, x: T, v: Tick)
    requires TickValues(s) && Sorted(s)
    ensures TickValues(Insert(s, Entry(x, v))) && Sorted(Insert(s, Entry(x, v)))
  {
    InsertIsStable(s, Entry(x, v));
    forall i | 0 <= i < |s| + 1
      ensures 0 <= Insert(s, Entry(x, v))[i].value < TICKS
    {
      InsertAt(s, Entry(x, v), i);
    }
  }

  /** Inserting a time of this epoch in the current list ... */
  lemma InsertCurrent<T>(current: seq<Entry<T>>, overflow: seq<Entry<T>>, e: nat, x: T, v: Tick)
    requires Pair(current, overflow)
    ensures Pair(Insert(current, Entry(x, v)), overflow)
    ensures Merged(Insert(current, Entry(x, v)), overflow, e)
         == Insert(Merged(current, overflow, e), Entry(x, InEpoch(e, v)))
  {
    InsertTicks(current, x, v);
    var p, a, b := InsertPos(current, v), Lift(current, e), Lift(overflow, e + 1);
    var y := Entry(x, InEpoch(e, v));
    calc {
      Insert(Merged(current, overflow, e), y);
      { MergedPos(current, overflow, e, v); }
      (a + b)[..p] + [y] + (a + b)[p..];
      { SpliceLeft(a, b, y, p); }
      (a[..p] + [y] + a[p..]) + b;
      { LiftSplice(current, Entry(x, v), p, e); }
      Lift(Insert(current, Entry(x, v)), e) + b;
    }
  }

  /** ... and one of the next epoch in the overflow list is one sorted insertion. */
  lemma InsertOverflow<T>(current: seq<Entry<T>>, overflow: seq<Entry<T>>, e: nat, x: T, v: Tick)
    requires Pair(current, overflow)
    ensures Pair(current, Insert(overflow, Entry(x, v)))
    ensures Merged(current, Insert(overflow, Entry(x, v)), e)
         == Insert(Merged(current, overflow, e), Entry(x, InEpoch(e + 1, v)))
  {
    InsertTicks(overflow, x, v);
    var p, a, b := InsertPos(overflow, v), Lift(current, e), Lift(overflow, e + 1);
    var y := Entry(x, InEpoch(e + 1, v));
    calc {
      Insert(Merged(current, overflow, e), y);
      { MergedPos(current, overflow, e, v); }
      (a + b)[..|a| + p] + [y] + (a + b)[|a| + p..];
      { SpliceRight(a, b, y, p); }
      a + (b[..p] + [y] + b[p..]);
      { LiftSplice(overflow, Entry(x, v), p, e + 1); }
      a + Lift(Insert(overflow, Entry(x, v)), e + 1);
    }
  }

  lemma PopCurrent<T>(current: seq<Entry<T>>, overflow: seq<Entry<T>>, e: nat)
    requires Pair(current, overflow) && current != []
    ensures Pair(current[1..], overflow)
    ensures Merged(current, overflow, e)[0] == Entry(current[0].owner, e * TICKS + current[0].value)
    ensures Merged(current[1..], overflow, e) == Merged(current, overflow, e)[1..]
  {
  }

  /** Once the current list is empty, swapping the lists at an epoch change alters nothing. */
  lemma SwapIsInvisible<T>(overflow: seq<Entry<T>>, e: nat)
    ensures Merged(overflow, [], e + 1) == Merged([], overflow, e)
  {
  }

  /** The list without the items of one owner. */
  function Without<T(==)>(s: seq<Entry<T>>, x: T): (r: seq<Entry<T>>)
    decreases s
  {
    if s == [] then []
    else if s[0].owner == x then Without(s[1..], x)
    else [s[0]] + Without(s[1..], x)
  }

  lemma {:induction false} WithoutMember<T>(s: seq<Entry<T>>, x: T)
    ensures forall i :: 0 <= i < |Without(s, x)| ==> Without(s, x)[i] in s && Without(s, x)[i].owner != x
    decreases s
  {
    if s != [] {
      WithoutMember(s[1..], x);
    }
  }

  lemma {:induction false} WithoutSorted<T>(s: seq<Entry<T>>, x: T)
    requires Sorted(s)
    ensures Sorted(Without(s, x))
    decreases s
  {
    if s != [] {
      WithoutSorted(s[1..], x);
      WithoutMember(s[1..], x);
    }
  }

  lemma {:induction false} WithoutKeeps<T>(s: seq<Entry<T>>, x: T, y: Entry<T>)
    ensures y in Without(s, x) <==> y in s && y.owner != x
    decreases s
  {
    if s != [] {
      WithoutKeeps(s[1..], x, y);
      assert y in s <==> y == s[0] || y in s[1..];
    }
  }

  lemma {:induction false} WithoutConcat<T>(a: seq<Entry<T>>, b: seq<Entry<T>>, x: T)
    ensures Without(a + b, x) == Without(a, x) + Without(b, x)
    decreases a
  {
    if a == [] {
      assert a + b == b;
    } else {
      WithoutConcat(a[1..], b, x);
      assert (a + b)[1..] == a[1..] + b && (a + b)[0] == a[0];
    }
  }

  lemma {:induction false} WithoutLift<T>(s: seq<Entry<T>>, e: nat, x: T)
    ensures Without(Lift(s, e), x) == Lift(Without(s, x), e)
    decreases s
  {
    if s != [] {
      WithoutLift(s[1..], e, x);
      assert Lift(s, e)[1..] == Lift(s[1..], e);
    }
  }

  /** Unlinking an owner from whichever list holds it is unlinking it from the one list. */
  lemma WithoutMerged<T>(current: seq<Entry<T>>, overflow: seq<Entry<T>>, e: nat, x: T)
    requires Pair(current, overflow)
    ensures Pair(Without(current, x), Without(overflow, x))
    ensures Without(Merged(current, overflow, e), x) == Merged(Without(current, x), Without(overflow, x), e)
  {
    WithoutConcat(Lift(current, e), Lift(overflow, e + 1), x);
    WithoutLift(current, e, x);
    WithoutLift(overflow, e + 1, x);
    WithoutSorted(current, x);
    WithoutSorted(overflow, x);
    WithoutMember(current, x);
    WithoutMember(overflow, x);
  }
}
