/** Who is woken, in which order, and what an operation answers: laws of the queue protocol over
    every step and every run. */
module QueueLaws {
  import opened Common
  import opened ListSpec
  import opened QueueSpec
  import opened QueueProtocol
  import opened QueueTheorems

  // ---------- the most urgent waiter is woken ----------

  lemma PrefixIsUrgent<T>(s: Sys<T>, w: seq<Entry<Task>>, woken: set<Task>, rx: bool, n: nat, a: Task, b: Task)
    requires WaitList(s, w, woken, rx) && n <= |w| && a in OwnerSet(w[..n]) && b in OwnerSet(w[n..])
    ensures a < |s.prio| && b < |s.prio| && s.prio[b] <= s.prio[a]
  {
    var i :| 0 <= i < n && w[i].owner == a;
    var j :| 0 <= j < |w| - n && w[n..][j].owner == b;
    assert w[i].value <= w[n + j].value;
  }

  /** How a step other than blocking changes a wait list: some of the first waiters are woken, or one
      leaves, or nothing happens. */
  ghost predicate Shortened(w: seq<Entry<Task>>, v: seq<Entry<Task>>, was: set<Task>, now: set<Task>) {
    || (exists n: nat :: n <= |w| && v == w[n..] && now == was + OwnerSet(w[..n]))
    || (now <= was && (v == w || exists k: nat :: k < |w| && v == RemoveAt(w, k)))
  }

  lemma PopShortens(w: seq<Entry<Task>>, was: set<Task>)
    ensures w != [] ==> Shortened(w, w[1..], was, was + {w[0].owner})
    ensures Shortened(w, w, was, was)
  {
    if w != [] {
      assert OwnerSet(w[..1]) == {w[0].owner};
      assert w[1..] == w[1..] && 1 <= |w|;
    }
  }

  lemma RxUntouched<T>(s: Sys<T>, ev: Event<T>)
    requires Enabled(s, ev) && !ev.Place? && !ev.AtTop? && !ev.DoUnlockTx? && !ev.TimeOutRx? && !ev.IsrSend?
    ensures Step(s, ev).q.rxWait == s.q.rxWait && Step(s, ev).wokenRx == s.wokenRx
  {
    hide OwnerSet, Stuck, Int8;
  }

  lemma RxPopped<T>(s: Sys<T>, ev: Event<T>)
    requires Enabled(s, ev) && (ev.AtTop? || ev.IsrSend?)
    ensures var (r, w, was) := (Step(s, ev), s.q.rxWait, if ev.AtTop? then s.wokenRx - {ev.t} else s.wokenRx);
            || (r.q.rxWait == w && r.wokenRx == was)
            || (w != [] && r.q.rxWait == w[1..] && r.wokenRx == was + {w[0].owner})
  {
    hide OwnerSet, Stuck, Int8;
  }

  /** The receivers a step wakes, and those it leaves waiting. */
  lemma RxShortened<T>(s: Sys<T>, ev: Event<T>)
    requires Inv(s) && Enabled(s, ev) && !ev.Place?
    ensures var r := Step(s, ev);
            exists was :: was <= s.wokenRx && Shortened(s.q.rxWait, r.q.rxWait, was, r.wokenRx)
  {
    hide Inv, Shortened, OwnerSet, WaitList;
    var r, w := Step(s, ev), s.q.rxWait;
    var was := if ev.AtTop? then s.wokenRx - {ev.t} else s.wokenRx;
    if ev.DoUnlockTx? {
      UnlockShortens(w, WakeCount(s.q.cTx, w), was);
    } else if ev.TimeOutRx? {
      RemovalShortens(w, ev.k, was);
    } else if ev.AtTop? || ev.IsrSend? {
      RxPopped(s, ev);
      hide Step;
      PopShortens(w, was);
    } else {
      RxUntouched(s, ev);
      hide Step;
      PopShortens(w, was);
    }
    assert Shortened(w, r.q.rxWait, was, r.wokenRx);
  }

  lemma UnlockShortens(w: seq<Entry<Task>>, n: nat, was: set<Task>)
    requires n <= |w|
    ensures Shortened(w, w[n..], was, was + OwnerSet(w[..n]))
  {
  }

  lemma RemovalShortens(w: seq<Entry<Task>>, k: nat, was: set<Task>)
    requires k < |w|
    ensures Shortened(w, RemoveAt(w, k), was, was)
  {
  }

  lemma TxUntouched<T>(s: Sys<T>, ev: Event<T>)
    requires Enabled(s, ev) && !ev.Place? && !ev.AtTop? && !ev.DoUnlockRx? && !ev.TimeOutTx? && !ev.IsrReceive?
    ensures Step(s, ev).q.txWait == s.q.txWait && Step(s, ev).wokenTx == s.wokenTx
  {
    hide OwnerSet, Stuck, Int8;
  }

  lemma TxPopped<T>(s: Sys<T>, ev: Event<T>)
    requires Enabled(s, ev) && (ev.AtTop? || ev.IsrReceive?)
    ensures var (r, w, was) := (Step(s, ev), s.q.txWait, if ev.AtTop? then s.wokenTx - {ev.t} else s.wokenTx);
            || (r.q.txWait == w && r.wokenTx == was)
            || (w != [] && r.q.txWait == w[1..] && r.wokenTx == was + {w[0].owner})
  {
    hide OwnerSet, Stuck, Int8;
  }

  /** The same for senders. */
  lemma TxShortened<T>(s: Sys<T>, ev: Event<T>)
    requires Inv(s) && Enabled(s, ev) && !ev.Place?
    ensures var r := Step(s, ev);
            exists was :: was <= s.wokenTx && Shortened(s.q.txWait, r.q.txWait, was, r.wokenTx)
  {
    hide Inv, Shortened, OwnerSet, WaitList;
    var r, w := Step(s, ev), s.q.txWait;
    var was := if ev.AtTop? then s.wokenTx - {ev.t} else s.wokenTx;
    if ev.DoUnlockRx? {
      UnlockShortens(w, WakeCount(s.q.cRx, w), was);
    } else if ev.TimeOutTx? {
      RemovalShortens(w, ev.k, was);
    } else if ev.AtTop? || ev.IsrReceive? {
      TxPopped(s, ev);
      hide Step;
      PopShortens(w, was);
    } else {
      TxUntouched(s, ev);
      hide Step;
      PopShortens(w, was);
    }
    assert Shortened(w, r.q.txWait, was, r.wokenTx);
  }

  lemma ShortenedIsUrgent<T>(s: Sys<T>, w: seq<Entry<Task>>, v: seq<Entry<Task>>, woken: set<Task>, rx: bool,
      was: set<Task>, now: set<Task>, a: Task, b: Task)
    requires WaitList(s, w, woken, rx) && Shortened(w, v, was, now)
    requires a in now && a !in was && b in OwnerSet(v)
    ensures a < |s.prio| && b < |s.prio| && s.prio[b] <= s.prio[a]
  {
    hide WaitList, OwnerSet;
    if !(now <= was) {
      var n: nat :| n <= |w| && v == w[n..] && now == was + OwnerSet(w[..n]);
      PrefixIsUrgent(s, w, woken, rx, n, a, b);
    }
  }

  lemma InvLists<T>(s: Sys<T>)
    requires Inv(s)
    ensures WaitList(s, s.q.rxWait, s.wokenRx, true) && WaitList(s, s.q.txWait, s.wokenTx, false)
  {
  }

  /** Whatever step wakes receivers, by whatever task or interrupt, on an unlocked queue or by the
      count of a locked one: nobody who is left waiting is more urgent than one that was woken. */
  lemma WokenReceiverIsMostUrgent<T>(s: Sys<T>, ev: Event<T>, a: Task, b: Task)
    requires Inv(s) && Enabled(s, ev) && !ev.Place?
    requires a in Step(s, ev).wokenRx && a !in s.wokenRx && b in OwnerSet(Step(s, ev).q.rxWait)
    ensures a < |s.prio| && b < |s.prio| && s.prio[b] <= s.prio[a]
  {
    hide Inv, Step, Enabled, Shortened, OwnerSet, WaitList;
    RxShortened(s, ev);
    InvLists(s);
    var r := Step(s, ev);
    var was :| was <= s.wokenRx && Shortened(s.q.rxWait, r.q.rxWait, was, r.wokenRx);
    ShortenedIsUrgent(s, s.q.rxWait, r.q.rxWait, s.wokenRx, true, was, r.wokenRx, a, b);
  }

  lemma WokenSenderIsMostUrgent<T>(s: Sys<T>, ev: Event<T>, a: Task, b: Task)
    requires Inv(s) && Enabled(s, ev) && !ev.Place?
    requires a in Step(s, ev).wokenTx && a !in s.wokenTx && b in OwnerSet(Step(s, ev).q.txWait)
    ensures a < |s.prio| && b < |s.prio| && s.prio[b] <= s.prio[a]
  {
    hide Inv, Step, Enabled, Shortened, OwnerSet, WaitList;
    TxShortened(s, ev);
    InvLists(s);
    var r := Step(s, ev);
    var was :| was <= s.wokenTx && Shortened(s.q.txWait, r.q.txWait, was, r.wokenTx);
    ShortenedIsUrgent(s, s.q.txWait, r.q.txWait, s.wokenTx, false, was, r.wokenTx, a, b);
  }

  /** The same in every run from creation, for receivers and senders. */
  lemma MostUrgentIsWoken<T>(length: nat, prio: seq<nat>, evs: seq<Event<T>>, ev: Event<T>, a: Task, b: Task)
    requires Possible(Created(length, prio), evs) && AllCounted(Created(length, prio), evs)
    requires Enabled(Run(Created(length, prio), evs), ev) && !ev.Place?
    requires var (s, r) := (Run(Created(length, prio), evs), Step(Run(Created(length, prio), evs), ev));
             || (a in r.wokenRx && a !in s.wokenRx && b in OwnerSet(r.q.rxWait))
             || (a in r.wokenTx && a !in s.wokenTx && b in OwnerSet(r.q.txWait))
    ensures a < |prio| && b < |prio| && prio[b] <= prio[a]
  {
    hide Inv, Step, Enabled, OwnerSet;
    CreatedInv<T>(length, prio);
    RunKeepsInv(Created(length, prio), evs);
    RunKeepsLength(Created(length, prio), evs);
    var s := Run(Created(length, prio), evs);
    if a in Step(s, ev).wokenRx && a !in s.wokenRx && b in OwnerSet(Step(s, ev).q.rxWait) {
      WokenReceiverIsMostUrgent(s, ev, a, b);
    } else {
      WokenSenderIsMostUrgent(s, ev, a, b);
    }
  }

  // ---------- nobody overtakes a waiter ----------

  /** If b waits at all, it waits behind a. */
  ghost predicate Behind(w: seq<Entry<Task>>, a: Task, b: Task) {
    b in OwnerSet(w) ==> exists i, j :: 0 <= i < j < |w| && w[i].owner == a && w[j].owner == b
  }

  ghost predicate EachOnce(w: seq<Entry<Task>>) {
    forall i, j :: 0 <= i < j < |w| ==> w[i].owner != w[j].owner
  }

  lemma PrefixKeepsBehind(w: seq<Entry<Task>>, n: nat, a: Task, b: Task)
    requires EachOnce(w) && n <= |w| && Behind(w, a, b) && a in OwnerSet(w[n..]) && a != b
    ensures b !in OwnerSet(w[..n]) && Behind(w[n..], a, b)
  {
    var k :| 0 <= k < |w| - n && w[n..][k].owner == a;
    assert w[n + k].owner == a;
    forall x | 0 <= x < |w| && w[x].owner == b
      ensures x > n + k
    {
      assert b in OwnerSet(w);
      var i, j :| 0 <= i < j < |w| && w[i].owner == a && w[j].owner == b;
      assert i == n + k && j == x;
    }
    if b in OwnerSet(w[n..]) {
      var x :| 0 <= x < |w| - n && w[n..][x].owner == b;
      assert w[n + x].owner == b && w[n..][k].owner == a;
    }
  }

  lemma OnlyPlace(w: seq<Entry<Task>>, i: nat, j: nat)
    requires EachOnce(w) && i < |w| && j < |w| && w[i].owner == w[j].owner
    ensures i == j
  {
  }

  lemma RemovalKeepsBehind(w: seq<Entry<Task>>, k: nat, a: Task, b: Task)
    requires EachOnce(w) && k < |w| && Behind(w, a, b) && a in OwnerSet(RemoveAt(w, k))
    ensures Behind(RemoveAt(w, k), a, b)
  {
    var v := RemoveAt(w, k);
    if b in OwnerSet(v) {
      var x :| 0 <= x < |v| && v[x].owner == b;
      var y :| 0 <= y < |v| && v[y].owner == a;
      var x0, y0 := if x < k then x else x + 1, if y < k then y else y + 1;
      assert w[x0].owner == b && w[y0].owner == a;
      var i, j :| 0 <= i < j < |w| && w[i].owner == a && w[j].owner == b;
      hide RemoveAt, OwnerSet, EachOnce;
      OnlyPlace(w, i, y0);
      OnlyPlace(w, j, x0);
      assert y < x;
    }
  }

  /** Where item i of a list is once e has been inserted. */
  lemma InsertedIndex(w: seq<Entry<Task>>, e: Entry<Task>, i: nat)
    requires i < |w|
    ensures |Insert(w, e)| == |w| + 1
    ensures Insert(w, e)[if i < InsertPos(w, e.value) then i else i + 1] == w[i]
    ensures InsertPos(w, e.value) < |Insert(w, e)| && Insert(w, e)[InsertPos(w, e.value)] == e
  {
    InsertAt(w, e, if i < InsertPos(w, e.value) then i else i + 1);
    InsertAt(w, e, InsertPos(w, e.value));
  }

  lemma InsertedOwners(w: seq<Entry<Task>>, e: Entry<Task>, b: Task)
    requires b in OwnerSet(Insert(w, e)) && e.owner != b
    ensures b in OwnerSet(w)
  {
    var x :| 0 <= x < |Insert(w, e)| && Insert(w, e)[x].owner == b;
    InsertAt(w, e, 0);
    InsertAt(w, e, x);
    assert w[if x < InsertPos(w, e.value) then x else x - 1].owner == b;
  }

  /** A new waiter goes behind everybody of at least its priority. */
  lemma ArrivalKeepsBehind(w: seq<Entry<Task>>, e: Entry<Task>, a: Task, b: Task, k: nat)
    requires Sorted(w) && k < |w| && w[k].owner == a && Behind(w, a, b) && EachOnce(w)
    requires e.owner == b ==> w[k].value <= e.value
    ensures Behind(Insert(w, e), a, b)
  {
    hide Insert, InsertPos, EachOnce;
    var r, p := Insert(w, e), InsertPos(w, e.value);
    SortedSplit(w, e.value);
    InsertedIndex(w, e, k);
    hide Sorted;
    if b in OwnerSet(r) {
      if e.owner == b {
        assert k < p && r[k].owner == a && r[p].owner == b;
      } else {
        InsertedOwners(w, e, b);
        var i, j :| 0 <= i < j < |w| && w[i].owner == a && w[j].owner == b;
        InsertedIndex(w, e, i);
        InsertedIndex(w, e, j);
        assert r[if i < p then i else i + 1].owner == a && r[if j < p then j else j + 1].owner == b;
      }
    }
  }

  lemma ShortenedKeepsBehind(w: seq<Entry<Task>>, v: seq<Entry<Task>>, was: set<Task>, now: set<Task>,
      a: Task, b: Task)
    requires EachOnce(w) && Shortened(w, v, was, now) && Behind(w, a, b) && a != b && a in OwnerSet(v)
    ensures Behind(v, a, b) && (b in now ==> b in was)
  {
    hide Behind, EachOnce, OwnerSet;
    if n: nat :| n <= |w| && v == w[n..] && now == was + OwnerSet(w[..n]) {
      PrefixKeepsBehind(w, n, a, b);
    } else if k: nat :| k < |w| && v == RemoveAt(w, k) {
      RemovalKeepsBehind(w, k, a, b);
    }
  }

  lemma WaiterIsListed<T>(s: Sys<T>, w: seq<Entry<Task>>, woken: set<Task>, rx: bool, a: Task) returns (k: nat)
    requires WaitList(s, w, woken, rx) && a in OwnerSet(w)
    ensures k < |w| && w[k].owner == a && a < |s.prio| && w[k].value == ItemValue(s, a)
    ensures Sorted(w) && EachOnce(w)
  {
    k :| 0 <= k < |w| && w[k].owner == a;
  }

  lemma PlacerIsKnown<T>(s: Sys<T>, ev: Event<T>)
    requires Enabled(s, ev) && ev.Place?
    ensures ev.t < |s.prio| && ev.t < |s.pc| && s.pc[ev.t].MustBlock?
  {
  }

  /** As long as receiver a waits, a step does not wake a receiver of at most its priority that does
      not wait yet or waits behind it, nor let it go ahead. */
  lemma StepKeepsReceiversInLine<T>(s: Sys<T>, ev: Event<T>, a: Task, b: Task)
    requires Inv(s) && Enabled(s, ev) && a != b && a < |s.prio| && b < |s.prio| && s.prio[b] <= s.prio[a]
    requires a in OwnerSet(s.q.rxWait) && a in OwnerSet(Step(s, ev).q.rxWait)
    requires Behind(s.q.rxWait, a, b) && b !in s.wokenRx
    ensures Behind(Step(s, ev).q.rxWait, a, b) && b !in Step(s, ev).wokenRx
  {
    hide Inv, Enabled, Shortened, OwnerSet, WaitList, Behind, EachOnce, Sorted, Insert;
    InvLists(s);
    var k := WaiterIsListed(s, s.q.rxWait, s.wokenRx, true, a);
    if ev.Place? {
      PlacerIsKnown(s, ev);
      ArrivalKeepsBehind(s.q.rxWait, Entry(ev.t, ItemValue(s, ev.t)), a, b, k);
    } else {
      hide Step;
      RxShortened(s, ev);
      var r := Step(s, ev);
      var was :| was <= s.wokenRx && Shortened(s.q.rxWait, r.q.rxWait, was, r.wokenRx);
      ShortenedKeepsBehind(s.q.rxWait, r.q.rxWait, was, r.wokenRx, a, b);
    }
  }

  lemma StepKeepsSendersInLine<T>(s: Sys<T>, ev: Event<T>, a: Task, b: Task)
    requires Inv(s) && Enabled(s, ev) && a != b && a < |s.prio| && b < |s.prio| && s.prio[b] <= s.prio[a]
    requires a in OwnerSet(s.q.txWait) && a in OwnerSet(Step(s, ev).q.txWait)
    requires Behind(s.q.txWait, a, b) && b !in s.wokenTx
    ensures Behind(Step(s, ev).q.txWait, a, b) && b !in Step(s, ev).wokenTx
  {
    hide Inv, Enabled, Shortened, OwnerSet, WaitList, Behind, EachOnce, Sorted, Insert;
    InvLists(s);
    var k := WaiterIsListed(s, s.q.txWait, s.wokenTx, false, a);
    if ev.Place? {
      PlacerIsKnown(s, ev);
      ArrivalKeepsBehind(s.q.txWait, Entry(ev.t, ItemValue(s, ev.t)), a, b, k);
    } else {
      hide Step;
      TxShortened(s, ev);
      var r := Step(s, ev);
      var was :| was <= s.wokenTx && Shortened(s.q.txWait, r.q.txWait, was, r.wokenTx);
      ShortenedKeepsBehind(s.q.txWait, r.q.txWait, was, r.wokenTx, a, b);
    }
  }

  /** Task a waits to receive all along. */
  ghost predicate Waits<T>(s: Sys<T>, evs: seq<Event<T>>, a: Task)
    requires Possible(s, evs)
    decreases evs
  {
    a in OwnerSet(s.q.rxWait) && (evs == [] || Waits(Step(s, evs[0]), evs[1..], a))
  }

  ghost predicate WaitsToSend<T>(s: Sys<T>, evs: seq<Event<T>>, a: Task)
    requires Possible(s, evs)
    decreases evs
  {
    a in OwnerSet(s.q.txWait) && (evs == [] || WaitsToSend(Step(s, evs[0]), evs[1..], a))
  }

  /** No overtaking: as long as a receiver waits, no other one of at most its priority that has come
      later is woken, however often that one times out and comes again; so receivers of the same
      priority are woken in the order in which they blocked. */
  lemma {:induction false} NoReceiverOvertakes<T>(s: Sys<T>, evs: seq<Event<T>>, a: Task, b: Task)
    requires Inv(s) && Possible(s, evs) && AllCounted(s, evs) && Waits(s, evs, a)
    requires a != b && a < |s.prio| && b < |s.prio| && s.prio[b] <= s.prio[a]
    requires Behind(s.q.rxWait, a, b) && b !in s.wokenRx
    ensures Behind(Run(s, evs).q.rxWait, a, b) && b !in Run(s, evs).wokenRx
    decreases evs
  {
    hide Inv, Step, Enabled, Behind, OwnerSet;
    if evs != [] {
      var r := Step(s, evs[0]);
      assert Waits(r, evs[1..], a);
      StepKeepsInv(s, evs[0]);
      RunKeepsLength(s, [evs[0]]);
      assert Run(s, [evs[0]]) == r;
      StepKeepsReceiversInLine(s, evs[0], a, b);
      NoReceiverOvertakes(r, evs[1..], a, b);
    }
  }

  lemma {:induction false} NoSenderOvertakes<T>(s: Sys<T>, evs: seq<Event<T>>, a: Task, b: Task)
    requires Inv(s) && Possible(s, evs) && AllCounted(s, evs) && WaitsToSend(s, evs, a)
    requires a != b && a < |s.prio| && b < |s.prio| && s.prio[b] <= s.prio[a]
    requires Behind(s.q.txWait, a, b) && b !in s.wokenTx
    ensures Behind(Run(s, evs).q.txWait, a, b) && b !in Run(s, evs).wokenTx
    decreases evs
  {
    hide Inv, Step, Enabled, Behind, OwnerSet;
    if evs != [] {
      var r := Step(s, evs[0]);
      assert WaitsToSend(r, evs[1..], a);
      StepKeepsInv(s, evs[0]);
      RunKeepsLength(s, [evs[0]]);
      assert Run(s, [evs[0]]) == r;
      StepKeepsSendersInLine(s, evs[0], a, b);
      NoSenderOvertakes(r, evs[1..], a, b);
    }
  }

  // ---------- the items ----------

  /** An item is sent to the front, or over the one item of the queue. */
  ghost predicate JumpsIn<T>(s: Sys<T>, ev: Event<T>)
    requires Enabled(s, ev)
  {
    match ev
    case AtTop(t, _) => s.pc[t].op.Send? && s.pc[t].op.pos != ToBack && CanDo(s.q, s.pc[t].op)
    case IsrSend(_, pos) => pos != ToBack && HasRoom(s.q, pos)
    case _ => false
  }

  ghost predicate Overwrites<T>(s: Sys<T>, ev: Event<T>)
    requires Enabled(s, ev)
  {
    match ev
    case AtTop(t, _) => s.pc[t].op.Send? && s.pc[t].op.pos == Overwrite
    case IsrSend(_, pos) => pos == Overwrite
    case _ => false
  }

  /** Nothing is handed out and nothing gets in before the head. */
  ghost predicate HeadIsLeft<T>(s: Sys<T>, evs: seq<Event<T>>)
    requires Possible(s, evs)
    decreases evs
  {
    evs == [] ||
    (!JumpsIn(s, evs[0]) && Delivered(s, evs[0]) == [] && HeadIsLeft(Step(s, evs[0]), evs[1..]))
  }

  lemma StepLeavesHead<T>(s: Sys<T>, ev: Event<T>)
    requires Enabled(s, ev) && s.q.items != [] && !JumpsIn(s, ev) && Delivered(s, ev) == []
    ensures Step(s, ev).q.items != [] && Step(s, ev).q.items[0] == s.q.items[0]
  {
  }

  lemma {:induction false} HeadStays<T>(s: Sys<T>, evs: seq<Event<T>>)
    requires Possible(s, evs) && s.q.items != [] && HeadIsLeft(s, evs)
    ensures Run(s, evs).q.items != [] && Run(s, evs).q.items[0] == s.q.items[0]
    decreases evs
  {
    hide Step, Enabled, JumpsIn, Delivered;
    if evs != [] {
      StepLeavesHead(s, evs[0]);
      HeadStays(Step(s, evs[0]), evs[1..]);
    }
  }

  /** An item that was sent to the front, or over another one, is the next to be handed out, however
      many are sent to the back in between. */
  lemma FrontComesNext<T>(s: Sys<T>, ev: Event<T>, evs: seq<Event<T>>, next: Event<T>)
    requires Enabled(s, ev) && JumpsIn(s, ev)
    requires Possible(Step(s, ev), evs) && HeadIsLeft(Step(s, ev), evs)
    requires Enabled(Run(Step(s, ev), evs), next) && Delivered(Run(Step(s, ev), evs), next) != []
    ensures Delivered(Run(Step(s, ev), evs), next) == Accepted(s, ev) && |Accepted(s, ev)| == 1
  {
    JumpsToHead(s, ev);
    HeadStays(Step(s, ev), evs);
    hide Step, HeadIsLeft, Run, JumpsIn;
  }

  lemma JumpsToHead<T>(s: Sys<T>, ev: Event<T>)
    requires Enabled(s, ev) && JumpsIn(s, ev)
    ensures |Accepted(s, ev)| == 1
    ensures Step(s, ev).q.items != [] && Step(s, ev).q.items[0] == Accepted(s, ev)[0]
  {
  }

  lemma StepAtOneEnd<T>(s: Sys<T>, ev: Event<T>)
    requires Enabled(s, ev) && !Overwrites(s, ev)
    ensures var (i, j, a, d) := (s.q.items, Step(s, ev).q.items, Accepted(s, ev), Delivered(s, ev));
            || (d == [] && (j == i + a || j == a + i))
            || (a == [] && i == d + j)
  {
  }

  /** Sending to either end and receiving neither lose nor invent an item. */
  lemma StepConserves<T>(s: Sys<T>, ev: Event<T>)
    requires Enabled(s, ev) && !Overwrites(s, ev)
    ensures multiset(s.q.items) + multiset(Accepted(s, ev))
         == multiset(Delivered(s, ev)) + multiset(Step(s, ev).q.items)
  {
    hide Step, Accepted, Delivered, Enabled;
    StepAtOneEnd(s, ev);
  }

  ghost predicate NoOverwrite<T>(s: Sys<T>, evs: seq<Event<T>>)
    requires Possible(s, evs)
    decreases evs
  {
    evs == [] || (!Overwrites(s, evs[0]) && NoOverwrite(Step(s, evs[0]), evs[1..]))
  }

  lemma RegroupBags<T>(i: multiset<T>, a: multiset<T>, b: multiset<T>, d: multiset<T>, e: multiset<T>, j: multiset<T>,
      k: multiset<T>)
    requires i + a == d + j && j + b == e + k
    ensures i + (a + b) == (d + e) + k
  {
    assert i + (a + b) == (i + a) + b;
    assert (d + j) + b == d + (j + b);
  }

  /** In every run without overwriting, the items handed out and those left are, each as often, the
      items there were at first and those accepted. */
  lemma {:induction false} ItemsAreConserved<T>(s: Sys<T>, evs: seq<Event<T>>)
    requires Possible(s, evs) && NoOverwrite(s, evs)
    ensures multiset(s.q.items) + multiset(AllAccepted(s, evs))
         == multiset(AllDelivered(s, evs)) + multiset(Run(s, evs).q.items)
    decreases evs
  {
    hide Step, Enabled, Accepted, Delivered, Overwrites;
    if evs != [] {
      var r := Step(s, evs[0]);
      StepConserves(s, evs[0]);
      ItemsAreConserved(r, evs[1..]);
      RegroupBags(multiset(s.q.items), multiset(Accepted(s, evs[0])), multiset(AllAccepted(r, evs[1..])),
                  multiset(Delivered(s, evs[0])), multiset(AllDelivered(r, evs[1..])), multiset(r.q.items),
                  multiset(Run(r, evs[1..]).q.items));
    }
  }

  /** The last item sent, unless it has been handed out since. */
  ghost function Mail<T>(s: Sys<T>, evs: seq<Event<T>>, held: seq<T>): (r: seq<T>)
    requires Possible(s, evs)
    decreases evs
  {
    if evs == [] then held
    else
      Mail(Step(s, evs[0]), evs[1..],
           if Accepted(s, evs[0]) != [] then Accepted(s, evs[0])
           else if Delivered(s, evs[0]) != [] then []
           else held)
  }

  ghost predicate OnlyOverwrites<T>(s: Sys<T>, evs: seq<Event<T>>)
    requires Possible(s, evs)
    decreases evs
  {
    evs == [] ||
    ((Accepted(s, evs[0]) != [] ==> Overwrites(s, evs[0])) && OnlyOverwrites(Step(s, evs[0]), evs[1..]))
  }

  lemma StepOverwrites<T>(s: Sys<T>, ev: Event<T>)
    requires Enabled(s, ev) && |s.q.items| <= 1 && (Accepted(s, ev) != [] ==> Overwrites(s, ev))
    ensures Step(s, ev).q.items == if Accepted(s, ev) != [] then Accepted(s, ev)
                                   else if Delivered(s, ev) != [] then [] else s.q.items
    ensures |Step(s, ev).q.items| <= 1
  {
  }

  /** A queue that is only ever overwritten is a mailbox: it holds the last item sent, until that is
      received. */
  lemma {:induction false} MailboxHoldsTheLast<T>(s: Sys<T>, evs: seq<Event<T>>)
    requires Possible(s, evs) && OnlyOverwrites(s, evs) && |s.q.items| <= 1
    ensures Run(s, evs).q.items == Mail(s, evs, s.q.items)
    decreases evs
  {
    hide Step, Enabled, Accepted, Delivered, Overwrites;
    if evs != [] {
      StepOverwrites(s, evs[0]);
      MailboxHoldsTheLast(Step(s, evs[0]), evs[1..]);
    }
  }

  // ---------- what an operation answers ----------

  /** A send to a queue with room and a receive from a queue with an item go through at the top, over
      another one always; otherwise the queue is left alone, and the task gives up only if it may not
      block. */
  lemma TopAnswers<T>(s: Sys<T>, t: Task, mayBlock: bool)
    requires Enabled(s, AtTop(t, mayBlock))
    ensures var (r, op) := (Step(s, AtTop(t, mayBlock)), s.pc[t].op);
            var through := if op.Send? then op.pos == Overwrite || |s.q.items| < s.q.length else s.q.items != [];
            && t < |r.pc| && r.pc[t] == (if through || !mayBlock then Idle else Wants(op))
            && (!through ==> r.q == s.q)
            && (through ==> Accepted(s, AtTop(t, mayBlock)) == if op.Send? then [op.x] else [])
            && (through ==> Delivered(s, AtTop(t, mayBlock)) == if op.Receive? then [s.q.items[0]] else [])
            && (op.Peek? ==> r.q.items == s.q.items)
  {
  }

  /** A receive or a peek whose wait has expired gives up only if it finds the queue empty once more;
      a send gives up. */
  lemma ExpiredAnswers<T>(s: Sys<T>, t: Task)
    requires Enabled(s, AtExpired(t))
    ensures var (r, op) := (Step(s, AtExpired(t)), s.pc[t].op);
            && t < |r.pc| && r.q == s.q
            && r.pc[t] == if !op.Send? && s.q.items != [] then Top(op) else Idle
  {
  }

  /** Unlocking wakes exactly as many receivers as items were counted, as far as there are any. */
  lemma UnlockWakesCounted<T>(s: Sys<T>, t: Task)
    requires Inv(s)
    ensures Enabled(s, DoUnlockTx(t)) ==>
      var (r, n) := (Step(s, DoUnlockTx(t)), s.q.cTx);
      |r.q.rxWait| == (if n < 0 then |s.q.rxWait| else if n > |s.q.rxWait| then 0 else |s.q.rxWait| - n)
    ensures Enabled(s, DoUnlockRx(t)) ==>
      var (r, n) := (Step(s, DoUnlockRx(t)), s.q.cRx);
      |r.q.txWait| == (if n < 0 then |s.q.txWait| else if n > |s.q.txWait| then 0 else |s.q.txWait| - n)
  {
    hide Inv, OwnerSet;
  }

  // ---------- how a call goes round ----------

  datatype Phase = Outside | AtLoopTop | Willing | Looking | Blocking | Retrying | GivingUp

  /** What a task is about to do, whatever part of it is done. */
  function PhaseOf<T>(pc: Pc<T>): (p: Phase) {
    match pc
    case Idle => Outside
    case Top(_) => AtLoopTop
    case Wants(_) => Willing
    case Held(_) => Looking
    case MustBlock(_) => Blocking
    case Blocked(_) => Blocking
    case Expired(_) => GivingUp
    case UnlockingTx(_, next) => Heads(next)
    case UnlockingRx(_, next) => Heads(next)
    case Resuming(_, next) => Heads(next)
  }

  function Heads(next: Next): (p: Phase) {
    match next case GoBlock => Blocking case GoRetry => Retrying case GoExpire => GivingUp
  }

  ghost predicate Own<T>(ev: Event<T>, t: Task) {
    && !ev.TimeOutRx? && !ev.TimeOutTx? && !ev.IsrSend? && !ev.IsrReceive?
    && ev.t == t
  }

  /** The operation goes through at the top. */
  ghost predicate GoesThrough<T>(s: Sys<T>, ev: Event<T>, t: Task) {
    ev.AtTop? && ev.t == t && t < |s.pc| && s.pc[t] != Idle && CanDo(s.q, s.pc[t].op)
  }

  /** From phase to phase: a call blocks only if its wait has not expired and it has found nothing to do
      once more, retries if it has found something, and gives up if the wait has expired. */
  lemma PhaseAfterStep<T>(s: Sys<T>, ev: Event<T>, t: Task)
    requires Enabled(s, ev) && t < |s.pc|
    ensures |Step(s, ev).pc| == |s.pc|
    ensures var (p, q) := (PhaseOf(s.pc[t]), PhaseOf(Step(s, ev).pc[t]));
            && (!Own(ev, t) ==> Step(s, ev).pc[t] == s.pc[t])
            && (Own(ev, t) ==>
                 && (q == Willing <==> ev.AtTop? && ev.mayBlock && !GoesThrough(s, ev, t))
                 && (q == Blocking <==>
                      (ev.Check? && !ev.expired && Stuck(s.q, s.pc[t].op)) || (p == Blocking && !ev.AtTop?))
                 && (q == GivingUp <==> (ev.Check? && ev.expired) || (p == GivingUp && !ev.AtExpired?))
                 && (q == Retrying <==>
                      (ev.Check? && !ev.expired && !Stuck(s.q, s.pc[t].op)) || (p == Retrying && !ev.DoResume?))
                 && (q == Outside ==> GoesThrough(s, ev, t) || (ev.AtTop? && !ev.mayBlock) || ev.AtExpired?))
  {
    hide OwnerSet;
  }

  /** The call of t has gone through in one of the steps. */
  ghost predicate Served<T>(s: Sys<T>, evs: seq<Event<T>>, t: Task)
    requires Possible(s, evs)
    decreases evs
  {
    evs != [] && (GoesThrough(s, evs[0], t) || Served(Step(s, evs[0]), evs[1..], t))
  }

  /** In every run: a call that has begun to look and returns has gone through, or it was not allowed to
      block, or its wait has expired. */
  lemma {:induction false} ReturnsOnlyServedOrExpired<T>(s: Sys<T>, evs: seq<Event<T>>, t: Task)
    requires Possible(s, evs) && t < |s.pc| && PhaseOf(s.pc[t]) != Outside && PhaseOf(s.pc[t]) != GivingUp
    requires Check(t, true) !in evs && AtTop(t, false) !in evs
    requires |Run(s, evs).pc| == |s.pc| && Run(s, evs).pc[t] == Idle
    ensures Served(s, evs, t)
    decreases evs
  {
    hide Step, Enabled;
    if evs != [] && !GoesThrough(s, evs[0], t) {
      PhaseAfterStep(s, evs[0], t);
      var r := Step(s, evs[0]);
      StillInside(s, evs[0], t);
      ReturnsOnlyServedOrExpired(r, evs[1..], t);
    }
  }

  lemma StillInside<T>(s: Sys<T>, ev: Event<T>, t: Task)
    requires Enabled(s, ev) && t < |s.pc| && PhaseOf(s.pc[t]) != Outside && PhaseOf(s.pc[t]) != GivingUp
    requires ev != Check(t, true) && ev != AtTop(t, false) && !GoesThrough(s, ev, t)
    ensures |Step(s, ev).pc| == |s.pc|
    ensures PhaseOf(Step(s, ev).pc[t]) != Outside && PhaseOf(Step(s, ev).pc[t]) != GivingUp
  {
    PhaseAfterStep(s, ev, t);
    hide Step;
  }
}
