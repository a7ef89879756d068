/** What the lock-count protocol promises over every interleaving of tasks and interrupts. */
module QueueTheorems {
  import opened Common
  import opened ListSpec
  import opened QueueSpec
  import opened QueueProtocol

  ghost predicate Possible<T>(s: Sys<T>, evs: seq<Event<T>>)
    decreases evs
  {
    evs == [] || (Enabled(s, evs[0]) && Possible(Step(s, evs[0]), evs[1..]))
  }

  ghost function Run<T>(s: Sys<T>, evs: seq<Event<T>>): (r: Sys<T>)
    requires Possible(s, evs)
    decreases evs
  {
    if evs == [] then s else Run(Step(s, evs[0]), evs[1..])
  }

  /** No lock window sees more interrupts than its counts hold. */
  ghost predicate AllCounted<T>(s: Sys<T>, evs: seq<Event<T>>)
    requires Possible(s, evs)
    decreases evs
  {
    evs == [] || (Counted(s, evs[0]) && AllCounted(Step(s, evs[0]), evs[1..]))
  }

  lemma {:induction false} RunKeepsInv<T>(s: Sys<T>, evs: seq<Event<T>>)
    requires Inv(s) && Possible(s, evs) && AllCounted(s, evs)
    ensures Inv(Run(s, evs))
    decreases evs
  {
    hide Step, Inv;
    if evs != [] {
      StepKeepsInv(s, evs[0]);
      RunKeepsInv(Step(s, evs[0]), evs[1..]);
    }
  }

  /** In every reachable state: if a task waits to receive, the items in the queue number at most
      the receivers that have been woken and have not rechecked it yet, plus the count that will
      wake receivers when the queue is unlocked; dually for free slots and waiting senders. */
  lemma NoLostWakeup<T>(length: nat, prio: seq<nat>, evs: seq<Event<T>>)
    requires Possible(Created(length, prio), evs) && AllCounted(Created(length, prio), evs)
    ensures var r := Run(Created(length, prio), evs);
            && (r.q.rxWait != [] ==> |r.q.items| <= |r.wokenRx| + Locks(r.q.cTx))
            && (r.q.txWait != [] ==> r.q.length - |r.q.items| <= |r.wokenTx| + Locks(r.q.cRx))
  {
    CreatedInv<T>(length, prio);
    RunKeepsInv(Created(length, prio), evs);
  }

  /** So once nobody holds the scheduler and every woken task has rechecked, a receiver waits only
      on an empty queue, a sender only on a full one, and never both. */
  lemma WaitersAreRight<T>(length: nat, prio: seq<nat>, evs: seq<Event<T>>)
    requires Possible(Created(length, prio), evs) && AllCounted(Created(length, prio), evs)
    ensures var r := Run(Created(length, prio), evs);
            r.owner.None? && r.wokenRx == {} && r.wokenTx == {} ==>
              && (r.q.rxWait != [] ==> r.q.items == [])
              && (r.q.txWait != [] ==> |r.q.items| == r.q.length)
              && (r.q.length > 0 ==> r.q.rxWait == [] || r.q.txWait == [])
  {
    CreatedInv<T>(length, prio);
    RunKeepsInv(Created(length, prio), evs);
    RunKeepsLength(Created(length, prio), evs);
  }

  lemma {:induction false} RunKeepsLength<T>(s: Sys<T>, evs: seq<Event<T>>)
    requires Possible(s, evs)
    ensures Run(s, evs).q.length == s.q.length && Run(s, evs).prio == s.prio
    decreases evs
  {
    if evs != [] {
      RunKeepsLength(Step(s, evs[0]), evs[1..]);
    }
  }

  /** The first waiter, the one a wakeup picks, has the highest priority of those that wait. */
  ghost predicate FirstIsHighest(prio: seq<nat>, w: seq<Entry<Task>>) {
    && (forall i :: 0 <= i < |w| ==> w[i].owner < |prio|)
    && (forall i :: 0 <= i < |w| ==> prio[w[i].owner] <= prio[w[0].owner])
  }

  lemma WaitListFirst<T>(s: Sys<T>, w: seq<Entry<Task>>, woken: set<Task>, rx: bool)
    requires WaitList(s, w, woken, rx)
    ensures FirstIsHighest(s.prio, w)
  {
    forall i | 0 <= i < |w|
      ensures s.prio[w[i].owner] <= s.prio[w[0].owner]
    {
      assert w[0].value <= w[i].value;
    }
  }

  lemma HighestWaiterFirst<T>(length: nat, prio: seq<nat>, evs: seq<Event<T>>)
    requires Possible(Created(length, prio), evs) && AllCounted(Created(length, prio), evs)
    ensures FirstIsHighest(prio, Run(Created(length, prio), evs).q.rxWait)
    ensures FirstIsHighest(prio, Run(Created(length, prio), evs).q.txWait)
  {
    CreatedInv<T>(length, prio);
    RunKeepsInv(Created(length, prio), evs);
    RunKeepsLength(Created(length, prio), evs);
    var r := Run(Created(length, prio), evs);
    WaitListFirst(r, r.q.rxWait, r.wokenRx, true);
    WaitListFirst(r, r.q.txWait, r.wokenTx, false);
  }

  // ---------- the data ----------

  /** The items a step puts into the queue, and those it hands out. */
  ghost function Accepted<T>(s: Sys<T>, ev: Event<T>): (r: seq<T>)
    requires Enabled(s, ev)
  {
    match ev
    case AtTop(t, _) => if s.pc[t].op.Send? && CanDo(s.q, s.pc[t].op) then [s.pc[t].op.x] else []
    case IsrSend(x, pos) => if HasRoom(s.q, pos) then [x] else []
    case _ => []
  }

  ghost function Delivered<T>(s: Sys<T>, ev: Event<T>): (r: seq<T>)
    requires Enabled(s, ev)
  {
    match ev
    case AtTop(t, _) => if s.pc[t].op.Receive? && s.q.items != [] then [s.q.items[0]] else []
    case IsrReceive => if s.q.items != [] then [s.q.items[0]] else []
    case _ => []
  }

  ghost function AllAccepted<T>(s: Sys<T>, evs: seq<Event<T>>): (r: seq<T>)
    requires Possible(s, evs)
    decreases evs
  {
    if evs == [] then [] else Accepted(s, evs[0]) + AllAccepted(Step(s, evs[0]), evs[1..])
  }

  ghost function AllDelivered<T>(s: Sys<T>, evs: seq<Event<T>>): (r: seq<T>)
    requires Possible(s, evs)
    decreases evs
  {
    if evs == [] then [] else Delivered(s, evs[0]) + AllDelivered(Step(s, evs[0]), evs[1..])
  }

  /** Everything is sent to the back. */
  ghost predicate BackOnly<T>(s: Sys<T>, ev: Event<T>)
    requires Enabled(s, ev)
  {
    match ev
    case AtTop(t, _) => s.pc[t].op.Send? ==> s.pc[t].op.pos == ToBack
    case IsrSend(_, pos) => pos == ToBack
    case _ => true
  }

  ghost predicate AllBack<T>(s: Sys<T>, evs: seq<Event<T>>)
    requires Possible(s, evs)
    decreases evs
  {
    evs == [] || (BackOnly(s, evs[0]) && AllBack(Step(s, evs[0]), evs[1..]))
  }

  lemma StepIsFifo<T>(s: Sys<T>, ev: Event<T>)
    requires Enabled(s, ev) && BackOnly(s, ev)
    ensures s.q.items + Accepted(s, ev) == Delivered(s, ev) + Step(s, ev).q.items
  {
  }

  lemma Regroup<T>(i: seq<T>, a: seq<T>, b: seq<T>, d: seq<T>, e: seq<T>, j: seq<T>, k: seq<T>)
    requires i + a == d + j && j + b == e + k
    ensures i + (a + b) == (d + e) + k
  {
    assert i + (a + b) == (i + a) + b == d + (j + b) == (d + e) + k;
  }

  /** First in, first out, nothing lost and nothing twice, for any number of senders, receivers,
      peekers and interrupts: what came out followed by what is left is what went in. */
  lemma {:induction false} QueueIsFifo<T>(s: Sys<T>, evs: seq<Event<T>>)
    requires Possible(s, evs) && AllBack(s, evs)
    ensures s.q.items + AllAccepted(s, evs) == AllDelivered(s, evs) + Run(s, evs).q.items
    decreases evs
  {
    hide Step, Accepted, Delivered;
    if evs != [] {
      var r := Step(s, evs[0]);
      StepIsFifo(s, evs[0]);
      QueueIsFifo(r, evs[1..]);
      Regroup(s.q.items, Accepted(s, evs[0]), AllAccepted(r, evs[1..]), Delivered(s, evs[0]),
              AllDelivered(r, evs[1..]), r.q.items, Run(r, evs[1..]).q.items);
    }
  }

  // ---------- the bound on the counts ----------

  /** Nobody who waits, or is about to, is left without a wakeup by n items that go uncounted. */
  ghost predicate ReceiversServed<T>(s: Sys<T>, n: int) {
    && (s.q.rxWait == [] || n <= |s.wokenRx|)
    && (forall t :: 0 <= t < |s.pc| && s.pc[t].MustBlock? ==> !IsRx(s.pc[t].op))
  }

  ghost predicate SendersServed<T>(s: Sys<T>, n: int) {
    && (s.q.txWait == [] || n <= |s.wokenTx|)
    && (forall t :: 0 <= t < |s.pc| && s.pc[t].MustBlock? ==> IsRx(s.pc[t].op))
  }

  /** Exactly when an interrupt that sends loses no wakeup: the count holds its item, or every
      receiver that waits has one of the woken ahead of it and none is about to wait. */
  lemma SendLosesNoWakeupIff<T>(s: Sys<T>, x: T, pos: Position)
    requires Inv(s) && Enabled(s, IsrSend(x, pos))
    ensures var r := Step(s, IsrSend(x, pos));
            NothingLost(r) && Decided(r) <==>
              Counted(s, IsrSend(x, pos)) || ReceiversServed(s, if pos == Overwrite then 1 else |s.q.items| + 1)
  {
    hide Lists;
    var r := Step(s, IsrSend(x, pos));
    if Counted(s, IsrSend(x, pos)) {
      IsrSendKeepsInv(s, x, pos);
    } else {
      assert r.q.cTx == -128 && r.q.items != [];
      forall t | 0 <= t < |s.pc| && s.pc[t].MustBlock? && IsRx(s.pc[t].op)
        ensures !Decided(r)
      {
        assert r.pc[t].MustBlock?;
      }
    }
  }

  /** The same for an interrupt that receives, and senders. */
  lemma ReceiveLosesNoWakeupIff<T>(s: Sys<T>)
    requires Inv(s)
    ensures var r := Step(s, IsrReceive);
            NothingLost(r) && Decided(r) <==>
              Counted(s, IsrReceive) || SendersServed(s, s.q.length - |s.q.items| + 1)
  {
    hide Lists;
    var r := Step(s, IsrReceive);
    if Counted(s, IsrReceive) {
      IsrReceiveKeepsInv(s);
    } else {
      assert r.q.cRx == -128 && |r.q.items| < r.q.length;
      forall t | 0 <= t < |s.pc| && s.pc[t].MustBlock? && !IsRx(s.pc[t].op)
        ensures !Decided(r)
      {
        assert r.pc[t].MustBlock?;
      }
    }
  }

  /** Whom the operation of an interrupt would have to wake is served already. */
  ghost predicate Served<T>(s: Sys<T>, ev: Event<T>) {
    match ev
    case IsrSend(_, pos) => ReceiversServed(s, if pos == Overwrite then 1 else |s.q.items| + 1)
    case IsrReceive => SendersServed(s, s.q.length - |s.q.items| + 1)
    case _ => true
  }

  /** In every run from creation, the first interrupt that the counts do not hold loses a wakeup
      exactly when somebody is not served already; one that they hold never does. */
  lemma InterruptLosesNoWakeupIff<T>(length: nat, prio: seq<nat>, evs: seq<Event<T>>, ev: Event<T>)
    requires Possible(Created(length, prio), evs) && AllCounted(Created(length, prio), evs)
    requires Enabled(Run(Created(length, prio), evs), ev) && (ev.IsrSend? || ev.IsrReceive?)
    ensures var s := Run(Created(length, prio), evs);
            NothingLost(Step(s, ev)) && Decided(Step(s, ev)) <==> Counted(s, ev) || Served(s, ev)
  {
    hide NothingLost, Decided, Lists, Counted, ReceiversServed, SendersServed, Enabled;
    CreatedInv<T>(length, prio);
    RunKeepsInv(Created(length, prio), evs);
    var s := Run(Created(length, prio), evs);
    if ev.IsrSend? {
      SendLosesNoWakeupIff(s, ev.x, ev.pos);
    } else {
      ReceiveLosesNoWakeupIff(s);
    }
  }

  /** A run from a leads to b. */
  ghost predicate Reaches<T(!new)>(a: Sys<T>, b: Sys<T>) {
    exists evs: seq<Event<T>> :: Possible(a, evs) && Run(a, evs) == b
  }

  lemma ReachesItself<T(!new)>(a: Sys<T>)
    ensures Reaches(a, a)
  {
    assert Possible(a, []) && Run(a, []) == a;
  }

  lemma ReachesFirst<T(!new)>(a: Sys<T>, ev: Event<T>, b: Sys<T>)
    requires Enabled(a, ev) && Reaches(Step(a, ev), b)
    ensures Reaches(a, b)
  {
    hide Enabled, Step;
    var evs: seq<Event<T>> :| Possible(Step(a, ev), evs) && Run(Step(a, ev), evs) == b;
    assert ([ev] + evs)[0] == ev && ([ev] + evs)[1..] == evs;
    assert Possible(a, [ev] + evs) && Run(a, [ev] + evs) == b;
  }

  /** The first task, in the call of a receive that found nothing, with the queue locked. */
  function Alone<T>(length: nat, prio: seq<nat>, pc: Pc<T>, items: seq<T>, cRx: int, cTx: int): (s: Sys<T>)
    requires prio != []
  {
    var c := Created<T>(length, prio);
    c.(q := c.q.(items := items, cRx := cRx, cTx := cTx), pc := c.pc[0 := pc], owner := Some(0))
  }

  /** It sleeps, and nobody is on the way to what is in the queue. */
  function Forgotten<T>(length: nat, prio: seq<nat>, x: T): (s: Sys<T>)
    requires prio != []
  {
    var c := Created<T>(length, prio);
    c.(q := c.q.(items := [x], rxWait := [Entry(0, ItemValue(c, 0))]), pc := c.pc[0 := Blocked(Receive)])
  }

  lemma Forgets<T(!new)>(length: nat, prio: seq<nat>, x: T)
    requires prio != [] && length > 0
    ensures Reaches(Alone(length, prio, MustBlock(Receive), [x], 127, -128), Forgotten(length, prio, x))
  {
    hide Reaches;
    var s := Alone(length, prio, MustBlock(Receive), [x], 127, -128);
    var s1 := Step(s, Place(0));
    var s2 := Step(s1, DoUnlockTx(0));
    var s3 := Step(s2, DoUnlockRx(0));
    var s4 := Step(s3, DoResume(0));
    assert s4.pc == Forgotten(length, prio, x).pc;
    assert s4 == Forgotten(length, prio, x);
    ReachesItself(s4);
    ReachesFirst(s3, DoResume(0), s4);
    ReachesFirst(s2, DoUnlockRx(0), s4);
    ReachesFirst(s1, DoUnlockTx(0), s4);
    ReachesFirst(s, Place(0), s4);
  }

  /** Interrupts put an item in and take it out again until the counts are full, and then put one
      more in. */
  lemma {:induction false} FillsUp<T(!new)>(length: nat, prio: seq<nat>, x: T, n: nat)
    requires prio != [] && length > 0 && n <= 127
    ensures Reaches(Alone(length, prio, MustBlock(Receive), [], n, n), Forgotten(length, prio, x))
    decreases 127 - n
  {
    hide Reaches;
    var s := Alone(length, prio, MustBlock(Receive), [], n, n);
    var s1 := Step(s, IsrSend(x, ToBack));
    if n == 127 {
      assert s1 == Alone(length, prio, MustBlock(Receive), [x], 127, -128);
      Forgets(length, prio, x);
    } else {
      var s2 := Step(s1, IsrReceive);
      assert s2 == Alone(length, prio, MustBlock(Receive), [], n + 1, n + 1);
      FillsUp(length, prio, x, n + 1);
      ReachesFirst(s1, IsrReceive, Forgotten(length, prio, x));
    }
    ReachesFirst(s, IsrSend(x, ToBack), Forgotten(length, prio, x));
  }

  /** It does happen, on a queue of any length: a receiver finds the queue empty and is about to
      block; the 128th item of that lock window makes the count negative, and the receiver sleeps
      on a queue with data, with nothing left that would wake it. */
  lemma TooManyInterrupts<T(!new)>(length: nat, prio: seq<nat>, x: T)
    requires prio != [] && length > 0
    ensures Reaches(Created(length, prio), Forgotten(length, prio, x))
    ensures var r := Forgotten(length, prio, x);
            r.owner.None? && r.wokenRx == {} && r.q.rxWait != [] && r.q.items == [x] && !NothingLost(r)
  {
    hide Reaches;
    var s := Created<T>(length, prio);
    var s1 := Step(s, Start(0, Receive));
    var s2 := Step(s1, AtTop(0, true));
    var s3 := Step(s2, DoLock(0));
    var s4 := Step(s3, Check(0, false));
    assert s4.pc == Alone(length, prio, MustBlock(Receive), [], 0, 0).pc;
    assert s4 == Alone(length, prio, MustBlock(Receive), [], 0, 0);
    FillsUp(length, prio, x, 0);
    ReachesFirst(s3, Check(0, false), Forgotten(length, prio, x));
    ReachesFirst(s2, DoLock(0), Forgotten(length, prio, x));
    ReachesFirst(s1, AtTop(0, true), Forgotten(length, prio, x));
    ReachesFirst(s, Start(0, Receive), Forgotten(length, prio, x));
  }
}
