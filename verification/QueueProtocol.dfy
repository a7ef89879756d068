/** Tasks and interrupts on one queue: the lock-count protocol of FreeRTOS/queue.c, step by step,
    and the proof that no wakeup is lost between a task's look at the queue and its blocking. */
module QueueProtocol {
  import opened Common
  import opened ListSpec
  import opened QueueSpec

  datatype Op<T> = Receive | Peek | Send(x: T, pos: Position)

  predicate IsRx<T>(op: Op<T>) {
    !op.Send?
  }

  /** Where a task is in xQueueReceive, xQueuePeek or xQueueGenericSend. */
  datatype Pc<T> =
    | Idle
    | Top(op: Op<T>)                        // about to enter the critical section at the loop's top
    | Wants(op: Op<T>)                      // found nothing to do, and may block
    | Held(op: Op<T>)                       // scheduler suspended and queue locked
    | MustBlock(op: Op<T>)                  // not timed out, and still nothing to do
    | UnlockingTx(op: Op<T>, next: Next)
    | UnlockingRx(op: Op<T>, next: Next)
    | Resuming(op: Op<T>, next: Next)       // unlocked, about to resume the scheduler
    | Blocked(op: Op<T>)                    // on the wait list, or taken off it since
    | Expired(op: Op<T>)                    // timed out, about to look once more

  datatype Next = GoBlock | GoRetry | GoExpire

  datatype Sys<T> = Sys(
    q: Queue<T>,
    prio: seq<nat>,
    pc: seq<Pc<T>>,
    wokenRx: set<Task>,       // receivers taken off the wait list that have not rechecked yet
    wokenTx: set<Task>,
    owner: Option<Task>)      // the task that has suspended the scheduler

  /** An interrupt or one critical section of a task. */
  datatype Event<T> =
    | Start(t: Task, op: Op<T>)
    | AtTop(t: Task, mayBlock: bool)
    | DoLock(t: Task)
    | Check(t: Task, expired: bool)
    | Place(t: Task)
    | DoUnlockTx(t: Task)
    | DoUnlockRx(t: Task)
    | DoResume(t: Task)
    | AtExpired(t: Task)
    | TimeOutRx(k: nat)          // the k-th waiting receiver times out
    | TimeOutTx(k: nat)
    | IsrSend(x: T, pos: Position)
    | IsrReceive

  /** configMAX_PRIORITIES. */
  const MAX_PRIORITIES: int := 5

  /** configMAX_PRIORITIES - uxPriority, the value of a task's event list item. */
  function ItemValue<T>(s: Sys<T>, t: Task): (v: int)
    requires t < |s.prio|
  {
    MAX_PRIORITIES - s.prio[t]
  }

  /** Whether an operation has nothing to do: prvIsQueueEmpty or prvIsQueueFull. */
  predicate Stuck<T>(q: Queue<T>, op: Op<T>) {
    if IsRx(op) then q.items == [] else |q.items| == q.length
  }

  function Add(s: set<Task>, t: Option<Task>): (r: set<Task>) {
    if t.Some? then s + {t.value} else s
  }

  function OwnerSet(w: seq<Entry<Task>>): (r: set<Task>) {
    set i | 0 <= i < |w| :: w[i].owner
  }

  function Goto<T>(s: Sys<T>, t: Task, pc: Pc<T>): (r: Sys<T>)
    requires t < |s.pc|
  {
    s.(pc := s.pc[t := pc])
  }

  /** Task t has looked at the queue, so it no longer counts as woken, and goes on at pc. */
  function Leave<T>(s: Sys<T>, t: Task, pc: Pc<T>): (r: Sys<T>)
    requires t < |s.pc|
  {
    Goto(s.(wokenRx := s.wokenRx - {t}, wokenTx := s.wokenTx - {t}), t, pc)
  }

  function PutAndWake<T>(s: Sys<T>, x: T, pos: Position): (r: Sys<T>)
    requires HasRoom(s.q, pos)
  {
    var (q, w) := SendNow(s.q, x, pos);
    s.(q := q, wokenRx := Add(s.wokenRx, w))
  }

  function TakeAndWake<T>(s: Sys<T>): (r: Sys<T>)
    requires s.q.items != []
  {
    var (q, w) := ReceiveNow(s.q);
    s.(q := q, wokenTx := Add(s.wokenTx, w))
  }

  function LookAndWake<T>(s: Sys<T>): (r: Sys<T>) {
    var (q, w) := PopRx(s.q);
    s.(q := q, wokenRx := Add(s.wokenRx, w))
  }

  /** Can the operation go through? */
  predicate CanDo<T>(q: Queue<T>, op: Op<T>) {
    if IsRx(op) then q.items != [] else HasRoom(q, op.pos)
  }

  /** The critical section at the top of the loop.  A woken task rechecks the queue here. */
  function TopStep<T>(s: Sys<T>, t: Task, mayBlock: bool): (r: Sys<T>)
    requires t < |s.pc| && (s.pc[t].Top? || s.pc[t].Blocked?)
  {
    var op := s.pc[t].op;
    if !CanDo(s.q, op) then Leave(s, t, if mayBlock then Wants(op) else Idle)
    else
      match op
      case Receive => TakeAndWake(Leave(s, t, Idle))
      case Peek => LookAndWake(Leave(s, t, Idle))
      case Send(x, pos) => PutAndWake(Leave(s, t, Idle), x, pos)
  }

  /** vTaskPlaceOnEventList on the wait list of the operation. */
  function PlaceStep<T>(s: Sys<T>, t: Task): (r: Sys<T>)
    requires t < |s.pc| && t < |s.prio| && s.pc[t].MustBlock?
  {
    var op, e := s.pc[t].op, Entry(t, ItemValue(s, t));
    var q := if IsRx(op) then s.q.(rxWait := Insert(s.q.rxWait, e)) else s.q.(txWait := Insert(s.q.txWait, e));
    Goto(s.(q := q), t, UnlockingTx(op, GoBlock))
  }

  ghost predicate Enabled<T>(s: Sys<T>, ev: Event<T>) {
    && (ev.Start? || ev.AtTop? || ev.DoLock? || ev.AtExpired? ==> s.owner.None?)
    && (ev.Check? || ev.Place? || ev.DoUnlockTx? || ev.DoUnlockRx? || ev.DoResume? ==> s.owner == Some(ev.t))
    && match ev
       case Start(t, op) => t < |s.pc| && s.pc[t].Idle? && (op.Send? ==> MaySend(s.q, op.pos))
       case AtTop(t, _) => t < |s.pc| && (s.pc[t].Top? ||
                           (s.pc[t].Blocked? && t !in OwnerSet(s.q.rxWait) && t !in OwnerSet(s.q.txWait)))
       case DoLock(t) => t < |s.pc| && s.pc[t].Wants?
       case Check(t, _) => t < |s.pc| && s.pc[t].Held?
       case Place(t) => t < |s.pc| && t < |s.prio| && s.pc[t].MustBlock?
       case DoUnlockTx(t) => t < |s.pc| && s.pc[t].UnlockingTx?
       case DoUnlockRx(t) => t < |s.pc| && s.pc[t].UnlockingRx?
       case DoResume(t) => t < |s.pc| && s.pc[t].Resuming?
       case AtExpired(t) => t < |s.pc| && s.pc[t].Expired?
       case TimeOutRx(k) => s.owner.None? && k < |s.q.rxWait|
       case TimeOutTx(k) => s.owner.None? && k < |s.q.txWait|
       case IsrSend(_, pos) => MaySend(s.q, pos)
       case IsrReceive => true
  }

  /** The condition on the schedule: the operations of interrupts in one lock window stay within
      what an int8_t counts. */
  predicate Counted<T>(s: Sys<T>, ev: Event<T>) {
    match ev
    case IsrSend(_, pos) => HasRoom(s.q, pos) ==> s.q.cTx < 127
    case IsrReceive => s.q.items != [] ==> s.q.cRx < 127
    case _ => true
  }

  function Step<T>(s: Sys<T>, ev: Event<T>): (r: Sys<T>)
    requires Enabled(s, ev)
  {
    match ev
    case Start(t, op) => Goto(s, t, Top(op))
    case AtTop(t, mayBlock) => TopStep(s, t, mayBlock)
    case DoLock(t) => Goto(s.(q := Lock(s.q), owner := Some(t)), t, Held(s.pc[t].op))
    case Check(t, expired) =>
      var op := s.pc[t].op;
      Goto(s, t, if expired then UnlockingTx(op, GoExpire)
                 else if Stuck(s.q, op) then MustBlock(op) else UnlockingTx(op, GoRetry))
    case Place(t) => PlaceStep(s, t)
    case DoUnlockTx(t) =>
      var (q, w) := UnlockTx(s.q);
      Goto(s.(q := q, wokenRx := s.wokenRx + OwnerSet(w)), t, UnlockingRx(s.pc[t].op, s.pc[t].next))
    case DoUnlockRx(t) =>
      var (q, w) := UnlockRx(s.q);
      Goto(s.(q := q, wokenTx := s.wokenTx + OwnerSet(w)), t, Resuming(s.pc[t].op, s.pc[t].next))
    case DoResume(t) =>
      var op := s.pc[t].op;
      Goto(s.(owner := None), t,
          match s.pc[t].next case GoBlock => Blocked(op) case GoRetry => Top(op) case GoExpire => Expired(op))
    // xQueueReceive and xQueuePeek look once more, xQueueGenericSend does not
    case AtExpired(t) => Goto(s, t, if IsRx(s.pc[t].op) && !Stuck(s.q, s.pc[t].op) then Top(s.pc[t].op) else Idle)
    case TimeOutRx(k) => s.(q := s.q.(rxWait := RemoveAt(s.q.rxWait, k)))
    case TimeOutTx(k) => s.(q := s.q.(txWait := RemoveAt(s.q.txWait, k)))
    case IsrSend(x, pos) =>
      var (q, w) := SendFromIsr(s.q, x, pos);
      s.(q := q, wokenRx := Add(s.wokenRx, w))
    case IsrReceive =>
      var (q, w) := ReceiveFromIsr(s.q);
      s.(q := q, wokenTx := Add(s.wokenTx, w))
  }

  // ---------- the invariant ----------

  function Locks(n: int): (r: nat) {
    if n > 0 then n else 0
  }

  /** A task that has put itself on the wait list of its operation and not come back since. */
  predicate HasPlaced<T>(pc: Pc<T>, rx: bool) {
    match pc
    case UnlockingTx(op, next) => next == GoBlock && IsRx(op) == rx
    case UnlockingRx(op, next) => next == GoBlock && IsRx(op) == rx
    case Resuming(op, next) => next == GoBlock && IsRx(op) == rx
    case Blocked(op) => IsRx(op) == rx
    case _ => false
  }

  /** Every waiter is on one list once, in priority order, and none is already woken. */
  ghost predicate WaitList<T>(s: Sys<T>, w: seq<Entry<Task>>, woken: set<Task>, rx: bool) {
    && Sorted(w)
    && (forall i :: 0 <= i < |w| ==>
          && w[i].owner < |s.pc| && w[i].owner < |s.prio| && HasPlaced(s.pc[w[i].owner], rx)
          && w[i].value == ItemValue(s, w[i].owner) && w[i].owner !in woken)
    && (forall i, j :: 0 <= i < j < |w| ==> w[i].owner != w[j].owner)
  }

  ghost predicate Woken<T>(s: Sys<T>, woken: set<Task>, rx: bool) {
    forall t :: t in woken ==> t < |s.pc| && HasPlaced(s.pc[t], rx)
  }

  predicate InSection<T>(pc: Pc<T>) {
    pc.Held? || pc.MustBlock? || pc.UnlockingTx? || pc.UnlockingRx? || pc.Resuming?
  }

  /** The queue is locked exactly while the task that suspended the scheduler is deciding. */
  ghost predicate LockState<T>(s: Sys<T>) {
    match s.owner
    case None => s.q.cRx == UNLOCKED && s.q.cTx == UNLOCKED
    case Some(t) =>
      && t < |s.pc| && InSection(s.pc[t])
      && (s.pc[t].Resuming? <==> s.q.cRx == UNLOCKED)
      && (s.pc[t].Resuming? || s.pc[t].UnlockingRx? <==> s.q.cTx == UNLOCKED)
      && UNLOCKED <= s.q.cRx <= 127 && UNLOCKED <= s.q.cTx <= 127
  }

  ghost predicate OneOwner<T>(s: Sys<T>) {
    forall t :: 0 <= t < |s.pc| && InSection(s.pc[t]) ==> s.owner == Some(t)
  }

  /** No lost wakeup: items a waiting receiver could take are matched by receivers on their way to
      them or by counts that will wake receivers; the same for free slots and senders. */
  ghost predicate NothingLost<T>(s: Sys<T>) {
    && (s.q.rxWait != [] ==> |s.q.items| <= |s.wokenRx| + Locks(s.q.cTx))
    && (s.q.txWait != [] ==> s.q.length - |s.q.items| <= |s.wokenTx| + Locks(s.q.cRx))
  }

  /** A task that is about to block knows what came since it looked. */
  ghost predicate Decided<T>(s: Sys<T>) {
    forall t :: 0 <= t < |s.pc| && s.pc[t].MustBlock? ==>
      if IsRx(s.pc[t].op) then |s.q.items| <= Locks(s.q.cTx)
      else s.q.length - |s.q.items| <= Locks(s.q.cRx)
  }

  predicate OpOk<T>(s: Sys<T>, pc: Pc<T>) {
    !pc.Idle? && pc.op.Send? ==> MaySend(s.q, pc.op.pos)
  }

  ghost predicate Shaped<T>(s: Sys<T>) {
    && |s.prio| == |s.pc| && |s.q.items| <= s.q.length
    && forall t :: 0 <= t < |s.pc| ==> OpOk(s, s.pc[t])
  }

  ghost predicate Lists<T>(s: Sys<T>) {
    && WaitList(s, s.q.rxWait, s.wokenRx, true) && WaitList(s, s.q.txWait, s.wokenTx, false)
    && Woken(s, s.wokenRx, true) && Woken(s, s.wokenTx, false)
  }

  ghost predicate Inv<T>(s: Sys<T>) {
    Shaped(s) && LockState(s) && OneOwner(s) && Lists(s) && NothingLost(s) && Decided(s)
  }

  /** An empty queue that no task has touched. */
  function Created<T>(length: nat, prio: seq<nat>): (s: Sys<T>) {
    Sys(Queue([], length, [], [], UNLOCKED, UNLOCKED), prio, seq(|prio|, _ => Idle), {}, {}, None)
  }

  lemma CreatedInv<T>(length: nat, prio: seq<nat>)
    ensures Inv<T>(Created(length, prio))
  {
  }

  // ---------- every step keeps it ----------

  lemma {:induction false} OwnerSetSize(w: seq<Entry<Task>>)
    requires forall i, j :: 0 <= i < j < |w| ==> w[i].owner != w[j].owner
    ensures |OwnerSet(w)| == |w|
    decreases w
  {
    if w == [] {
      assert OwnerSet(w) == {};
    } else {
      var k := |w| - 1;
      OwnerSetSize(w[..k]);
      assert OwnerSet(w) == OwnerSet(w[..k]) + {w[k].owner};
    }
  }

  lemma DisjointSize(a: set<Task>, b: set<Task>)
    requires a !! b
    ensures |a + b| == |a| + |b|
  {
  }

  lemma MinusSize(a: set<Task>, t: Task)
    ensures |a| - 1 <= |a - {t}| <= |a|
  {
    if t in a {
      assert a == (a - {t}) + {t};
    } else {
      assert a - {t} == a;
    }
  }

  /** The first n waiters are woken. */
  lemma WakeFirst<T>(s: Sys<T>, w: seq<Entry<Task>>, woken: set<Task>, rx: bool, n: nat)
    requires WaitList(s, w, woken, rx) && Woken(s, woken, rx) && n <= |w|
    ensures WaitList(s, w[n..], woken + OwnerSet(w[..n]), rx) && Woken(s, woken + OwnerSet(w[..n]), rx)
    ensures |woken + OwnerSet(w[..n])| == |woken| + n
  {
    OwnerSetSize(w[..n]);
    DisjointSize(woken, OwnerSet(w[..n]));
  }

  lemma WakeOne<T>(s: Sys<T>, w: seq<Entry<Task>>, woken: set<Task>, rx: bool)
    requires WaitList(s, w, woken, rx) && Woken(s, woken, rx) && w != []
    ensures WaitList(s, w[1..], Add(woken, Some(w[0].owner)), rx) && Woken(s, Add(woken, Some(w[0].owner)), rx)
    ensures |Add(woken, Some(w[0].owner))| == |woken| + 1
  {
    WakeFirst(s, w, woken, rx, 1);
    assert OwnerSet(w[..1]) == {w[0].owner};
  }

  /** The lists depend on the program counters of placed tasks and on the priorities only. */
  lemma ListsElsewhere<T>(s: Sys<T>, r: Sys<T>, w: seq<Entry<Task>>, woken: set<Task>, rx: bool)
    requires WaitList(s, w, woken, rx) && Woken(s, woken, rx)
    requires r.prio == s.prio && |r.pc| == |s.pc|
    requires forall t :: 0 <= t < |s.pc| && r.pc[t] != s.pc[t] && HasPlaced(s.pc[t], rx) ==>
               HasPlaced(r.pc[t], rx) || (t !in woken && t !in OwnerSet(w))
    ensures WaitList(r, w, woken, rx) && Woken(r, woken, rx)
  {
    forall i | 0 <= i < |w|
      ensures HasPlaced(r.pc[w[i].owner], rx) && w[i].value == ItemValue(r, w[i].owner)
    {
      assert w[i].owner in OwnerSet(w);
    }
  }

  lemma WokenLess<T>(s: Sys<T>, w: seq<Entry<Task>>, woken: set<Task>, rx: bool, t: Task)
    requires WaitList(s, w, woken, rx) && Woken(s, woken, rx)
    ensures WaitList(s, w, woken - {t}, rx) && Woken(s, woken - {t}, rx)
  {
  }

  /** A task that is back at the top is on no list. */
  lemma TopIsOff<T>(s: Sys<T>, t: Task, mayBlock: bool)
    requires Inv(s) && Enabled(s, AtTop(t, mayBlock))
    ensures t !in OwnerSet(s.q.rxWait) && t !in OwnerSet(s.q.txWait)
  {
  }

  lemma AfterTopLists<T>(s: Sys<T>, t: Task, mayBlock: bool, pc: Pc<T>)
    requires Inv(s) && Enabled(s, AtTop(t, mayBlock))
    ensures Lists(Leave(s, t, pc))
  {
    hide WaitList, Woken, OwnerSet, HasPlaced, Shaped, NothingLost, Decided, LockState, OneOwner;
    var r := Leave(s, t, pc);
    TopIsOff(s, t, mayBlock);
    WokenLess(s, s.q.rxWait, s.wokenRx, true, t);
    WokenLess(s, s.q.txWait, s.wokenTx, false, t);
    ListsElsewhere(s, r, s.q.rxWait, r.wokenRx, true);
    ListsElsewhere(s, r, s.q.txWait, r.wokenTx, false);
  }

  /** Everything but the counts, with the queue unlocked. */
  ghost predicate Mostly<T>(s: Sys<T>) {
    Shaped(s) && LockState(s) && OneOwner(s) && Lists(s)
  }

  ghost predicate RxBound<T>(s: Sys<T>, slack: int) {
    s.q.rxWait != [] ==> |s.q.items| <= |s.wokenRx| + Locks(s.q.cTx) + slack
  }

  ghost predicate TxBound<T>(s: Sys<T>, slack: int) {
    s.q.txWait != [] ==> s.q.length - |s.q.items| <= |s.wokenTx| + Locks(s.q.cRx) + slack
  }

  /** What remains once t has rechecked and moved on: it may have been one of the woken. */
  lemma AfterTop<T>(s: Sys<T>, t: Task, mayBlock: bool, pc: Pc<T>)
    requires Inv(s) && Enabled(s, AtTop(t, mayBlock)) && (pc.Idle? || pc == Wants(s.pc[t].op))
    ensures var r := Leave(s, t, pc);
            && Mostly(r)
            && RxBound(r, if IsRx(s.pc[t].op) then 1 else 0) && TxBound(r, if IsRx(s.pc[t].op) then 0 else 1)
  {
    hide Lists;
    MinusSize(s.wokenRx, t);
    MinusSize(s.wokenTx, t);
    AfterTopLists(s, t, mayBlock, pc);
    WokenSides(s, t);
  }

  lemma WokenSides<T>(s: Sys<T>, t: Task)
    requires Inv(s) && t < |s.pc| && !s.pc[t].Idle?
    ensures IsRx(s.pc[t].op) ==> s.wokenTx - {t} == s.wokenTx
    ensures !IsRx(s.pc[t].op) ==> s.wokenRx - {t} == s.wokenRx
  {
    hide WaitList, NothingLost, Decided;
  }

  /** The wait lists say nothing about the queue's contents or the woken sets of the other side. */
  lemma QueueAside<T>(s: Sys<T>, r: Sys<T>)
    requires r.prio == s.prio && r.pc == s.pc
    ensures forall w: seq<Entry<Task>>, woken, rx :: WaitList(s, w, woken, rx) ==> WaitList(r, w, woken, rx)
    ensures forall woken, rx :: Woken(s, woken, rx) ==> Woken(r, woken, rx)
  {
  }

  lemma NobodyDecides<T>(s: Sys<T>)
    requires LockState(s) && OneOwner(s) && (s.q.cTx == UNLOCKED || s.q.cRx == UNLOCKED)
    ensures Decided(s)
  {
  }

  lemma PutAndWakeKeepsInv<T>(s: Sys<T>, x: T, pos: Position)
    requires Mostly(s) && RxBound(s, 0) && TxBound(s, 1) && s.q.cTx == UNLOCKED
    requires HasRoom(s.q, pos) && MaySend(s.q, pos)
    ensures Inv(PutAndWake(s, x, pos))
  {
    hide WaitList, Woken, Decided, OwnerSet;
    var r := PutAndWake(s, x, pos);
    if s.q.rxWait != [] {
      WakeOne(s, s.q.rxWait, s.wokenRx, true);
    }
    QueueAside(s, r);
    NobodyDecides(r);
  }

  lemma TakeAndWakeKeepsInv<T>(s: Sys<T>)
    requires Mostly(s) && RxBound(s, 1) && TxBound(s, 0) && s.q.cRx == UNLOCKED && s.q.items != []
    ensures Inv(TakeAndWake(s))
  {
    hide WaitList, Woken, Decided, OwnerSet;
    var r := TakeAndWake(s);
    if s.q.txWait != [] {
      WakeOne(s, s.q.txWait, s.wokenTx, false);
    }
    QueueAside(s, r);
    NobodyDecides(r);
  }

  lemma LookAndWakeKeepsInv<T>(s: Sys<T>)
    requires Mostly(s) && RxBound(s, 1) && TxBound(s, 0) && s.q.cTx == UNLOCKED
    ensures Inv(LookAndWake(s))
  {
    hide WaitList, Woken, Decided, OwnerSet;
    var r := LookAndWake(s);
    if s.q.rxWait != [] {
      WakeOne(s, s.q.rxWait, s.wokenRx, true);
    }
    QueueAside(s, r);
    NobodyDecides(r);
  }

  /** Finding nothing to do also settles the bounds. */
  lemma StuckKeepsInv<T>(s: Sys<T>)
    requires Mostly(s) && s.q.cTx == UNLOCKED
    requires (s.q.items == [] && TxBound(s, 0)) || (|s.q.items| == s.q.length && RxBound(s, 0))
    ensures Inv(s)
  {
    hide Lists, Decided;
    NobodyDecides(s);
  }

  lemma TopKeepsInv<T>(s: Sys<T>, t: Task, mayBlock: bool)
    requires Inv(s) && Enabled(s, AtTop(t, mayBlock))
    ensures Inv(Step(s, AtTop(t, mayBlock)))
  {
    hide Lists, OneOwner, NothingLost, Decided, Mostly, RxBound, TxBound, PutAndWake, TakeAndWake, LookAndWake;
    var op := s.pc[t].op;
    assert OpOk(s, s.pc[t]);
    if !CanDo(s.q, op) {
      var pc := if mayBlock then Wants(op) else Idle;
      AfterTop(s, t, mayBlock, pc);
      StuckKeepsInv(Leave(s, t, pc));
    } else {
      AfterTop(s, t, mayBlock, Idle);
      var a := Leave(s, t, Idle);
      match op
      case Receive => TakeAndWakeKeepsInv(a);
      case Peek => LookAndWakeKeepsInv(a);
      case Send(x, pos) => PutAndWakeKeepsInv(a, x, pos);
    }
  }

  lemma InsertElements(w: seq<Entry<Task>>, e: Entry<Task>)
    ensures |Insert(w, e)| == |w| + 1
    ensures forall i :: 0 <= i < |w| + 1 ==>
              Insert(w, e)[i] == if i < InsertPos(w, e.value) then w[i] else if i == InsertPos(w, e.value)
                  then e else w[i - 1]
  {
    forall i | 0 <= i < |w| + 1
      ensures Insert(w, e)[i] == var p := InsertPos(w, e.value); if i < p then w[i] else if i == p then e
          else w[i - 1]
    {
      InsertAt(w, e, i);
    }
  }

  lemma InsertWaiter<T>(s: Sys<T>, w: seq<Entry<Task>>, woken: set<Task>, rx: bool, t: Task)
    requires WaitList(s, w, woken, rx) && t < |s.pc| && t < |s.prio| && HasPlaced(s.pc[t], rx)
    requires t !in woken && t !in OwnerSet(w)
    ensures WaitList(s, Insert(w, Entry(t, ItemValue(s, t))), woken, rx)
  {
    hide Insert, Sorted, InsertPos, HasPlaced, OwnerSet;
    var e := Entry(t, ItemValue(s, t));
    var r, p := Insert(w, e), InsertPos(w, e.value);
    InsertIsStable(w, e);
    InsertElements(w, e);
    forall i | 0 <= i < |r|
      ensures r[i].owner < |s.pc| && r[i].owner < |s.prio| && HasPlaced(s.pc[r[i].owner], rx)
      ensures r[i].value == ItemValue(s, r[i].owner) && r[i].owner !in woken
    {
      if i != p {
        assert r[i] == w[if i < p then i else i - 1];
      }
    }
    InsertOwners(w, e);
  }

  lemma InsertOwners(w: seq<Entry<Task>>, e: Entry<Task>)
    requires e.owner !in OwnerSet(w)
    requires forall i, j :: 0 <= i < j < |w| ==> w[i].owner != w[j].owner
    ensures var r := Insert(w, e); forall i, j :: 0 <= i < j < |r| ==> r[i].owner != r[j].owner
  {
    hide Insert;
    var r, p := Insert(w, e), InsertPos(w, e.value);
    InsertAt(w, e, 0);
    forall i, j | 0 <= i < j < |r|
      ensures r[i].owner != r[j].owner
    {
      InsertAt(w, e, i);
      InsertAt(w, e, j);
      if i == p {
        assert r[j] == w[j - 1] && w[j - 1].owner in OwnerSet(w);
      } else if j == p {
        assert r[i] == w[i] && w[i].owner in OwnerSet(w);
      } else {
        var a, b := if i < p then i else i - 1, if j < p then j else j - 1;
        assert r[i] == w[a] && r[j] == w[b] && a < b;
      }
    }
  }

  lemma PlaceKeepsInv<T>(s: Sys<T>, t: Task)
    requires Inv(s) && Enabled(s, Place(t))
    ensures Inv(Step(s, Place(t)))
  {
    hide Insert;
    var op := s.pc[t].op;
    var a, r := Goto(s, t, UnlockingTx(op, GoBlock)), Step(s, Place(t));
    assert t !in s.wokenRx && t !in s.wokenTx && t !in OwnerSet(s.q.rxWait) && t !in OwnerSet(s.q.txWait);
    ListsElsewhere(s, a, s.q.rxWait, s.wokenRx, true);
    ListsElsewhere(s, a, s.q.txWait, s.wokenTx, false);
    PlaceLists(a, t, op);
    PlaceCounts(s, t);
  }

  lemma PlaceLists<T>(a: Sys<T>, t: Task, op: Op<T>)
    requires Lists(a) && t < |a.pc| == |a.prio| && a.pc[t] == UnlockingTx(op, GoBlock)
    requires t !in a.wokenRx && t !in a.wokenTx && t !in OwnerSet(a.q.rxWait) && t !in OwnerSet(a.q.txWait)
    ensures var e := Entry(t, ItemValue(a, t));
            Lists(a.(q := if IsRx(op) then a.q.(rxWait := Insert(a.q.rxWait, e))
                else a.q.(txWait := Insert(a.q.txWait, e))))
  {
    hide Insert;
    var e := Entry(t, ItemValue(a, t));
    if IsRx(op) {
      InsertWaiter(a, a.q.rxWait, a.wokenRx, true, t);
      QueueAside(a, a.(q := a.q.(rxWait := Insert(a.q.rxWait, e))));
    } else {
      InsertWaiter(a, a.q.txWait, a.wokenTx, false, t);
      QueueAside(a, a.(q := a.q.(txWait := Insert(a.q.txWait, e))));
    }
  }

  lemma PlaceCounts<T>(s: Sys<T>, t: Task)
    requires Inv(s) && Enabled(s, Place(t))
    ensures NothingLost(Step(s, Place(t))) && Decided(Step(s, Place(t)))
  {
    hide WaitList, Woken, Insert;
    assert s.pc[t].MustBlock?;
  }

  lemma StaysPlaced<T>(s: Sys<T>, t: Task)
    requires t < |s.pc| && (s.pc[t].UnlockingTx? || s.pc[t].UnlockingRx?)
    ensures forall rx :: HasPlaced(s.pc[t], rx) ==>
              HasPlaced(UnlockingRx(s.pc[t].op, s.pc[t].next), rx)
                  && HasPlaced(Resuming(s.pc[t].op, s.pc[t].next), rx)
  {
  }

  /** Unlocking turns each count into a woken receiver, as long as receivers wait. */
  lemma UnlockTxCounts<T>(s: Sys<T>, t: Task)
    requires Inv(s) && Enabled(s, DoUnlockTx(t))
    requires |s.wokenRx + OwnerSet(UnlockTx(s.q).1)| == |s.wokenRx| + WakeCount(s.q.cTx, s.q.rxWait)
    ensures NothingLost(Step(s, DoUnlockTx(t))) && Decided(Step(s, DoUnlockTx(t)))
  {
    hide Lists, OwnerSet;
  }

  lemma UnlockRxCounts<T>(s: Sys<T>, t: Task)
    requires Inv(s) && Enabled(s, DoUnlockRx(t))
    requires |s.wokenTx + OwnerSet(UnlockRx(s.q).1)| == |s.wokenTx| + WakeCount(s.q.cRx, s.q.txWait)
    ensures NothingLost(Step(s, DoUnlockRx(t))) && Decided(Step(s, DoUnlockRx(t)))
  {
    hide Lists, OwnerSet;
  }

  /** Unlocking wakes as many waiters as have been counted, and loses none. */
  lemma UnlockKeepsInv<T>(s: Sys<T>, ev: Event<T>)
    requires Inv(s) && Enabled(s, ev) && (ev.DoUnlockTx? || ev.DoUnlockRx?)
    ensures Inv(Step(s, ev))
  {
    hide WaitList, Woken, HasPlaced, NothingLost, Decided, OwnerSet;
    var t := ev.t;
    var pc := if ev.DoUnlockTx? then UnlockingRx(s.pc[t].op, s.pc[t].next) else Resuming(s.pc[t].op, s.pc[t].next);
    var a := Goto(s, t, pc);
    StaysPlaced(s, t);
    ListsElsewhere(s, a, s.q.rxWait, s.wokenRx, true);
    ListsElsewhere(s, a, s.q.txWait, s.wokenTx, false);
    QueueAside(a, Step(s, ev));
    if ev.DoUnlockTx? {
      WakeFirst(a, s.q.rxWait, s.wokenRx, true, WakeCount(s.q.cTx, s.q.rxWait));
      UnlockTxCounts(s, t);
    } else {
      WakeFirst(a, s.q.txWait, s.wokenTx, false, WakeCount(s.q.cRx, s.q.txWait));
      UnlockRxCounts(s, t);
    }
  }

  lemma IsrSendKeepsInv<T>(s: Sys<T>, x: T, pos: Position)
    requires Inv(s) && Enabled(s, IsrSend(x, pos)) && Counted(s, IsrSend(x, pos))
    ensures Inv(Step(s, IsrSend(x, pos)))
  {
    hide WaitList, Woken;
    var r := Step(s, IsrSend(x, pos));
    if HasRoom(s.q, pos) && s.q.cTx == UNLOCKED {
      PutAndWakeKeepsInv(s, x, pos);
      assert r == PutAndWake(s, x, pos);
    } else {
      QueueAside(s, r);
    }
  }

  lemma IsrReceiveKeepsInv<T>(s: Sys<T>)
    requires Inv(s) && Enabled(s, IsrReceive) && Counted(s, IsrReceive)
    ensures Inv(Step(s, IsrReceive))
  {
    hide WaitList, Woken;
    var r := Step(s, IsrReceive);
    if s.q.items != [] && s.q.cRx == UNLOCKED {
      TakeAndWakeKeepsInv(s);
      assert r == TakeAndWake(s);
    } else {
      QueueAside(s, r);
    }
  }

  lemma RemoveWaiter<T>(s: Sys<T>, w: seq<Entry<Task>>, woken: set<Task>, rx: bool, k: nat)
    requires WaitList(s, w, woken, rx) && k < |w|
    ensures WaitList(s, RemoveAt(w, k), woken, rx)
  {
  }

  lemma TimeOutKeepsInv<T>(s: Sys<T>, ev: Event<T>)
    requires Inv(s) && Enabled(s, ev) && (ev.TimeOutRx? || ev.TimeOutTx?)
    ensures Inv(Step(s, ev))
  {
    hide WaitList, Woken;
    QueueAside(s, Step(s, ev));
    if ev.TimeOutRx? {
      RemoveWaiter(s, s.q.rxWait, s.wokenRx, true, ev.k);
    } else {
      RemoveWaiter(s, s.q.txWait, s.wokenTx, false, ev.k);
    }
  }

  /** The steps that only move one task's program counter. */
  lemma MoveKeepsInv<T>(s: Sys<T>, ev: Event<T>)
    requires Inv(s) && Enabled(s, ev) && (ev.Start? || ev.Check? || ev.AtExpired?)
    ensures Inv(Step(s, ev))
  {
    hide WaitList, Woken;
    var r := Step(s, ev);
    ListsElsewhere(s, r, s.q.rxWait, s.wokenRx, true);
    ListsElsewhere(s, r, s.q.txWait, s.wokenTx, false);
  }

  lemma LockKeepsInv<T>(s: Sys<T>, t: Task)
    requires Inv(s) && Enabled(s, DoLock(t))
    ensures Inv(Step(s, DoLock(t)))
  {
    hide WaitList, Woken;
    var r := Step(s, DoLock(t));
    ListsElsewhere(s, r, s.q.rxWait, s.wokenRx, true);
    ListsElsewhere(s, r, s.q.txWait, s.wokenTx, false);
  }

  lemma ResumeKeepsInv<T>(s: Sys<T>, t: Task)
    requires Inv(s) && Enabled(s, DoResume(t))
    ensures Inv(Step(s, DoResume(t)))
  {
    hide WaitList, Woken;
    var r := Step(s, DoResume(t));
    ListsElsewhere(s, r, s.q.rxWait, s.wokenRx, true);
    ListsElsewhere(s, r, s.q.txWait, s.wokenTx, false);
  }

  lemma StepKeepsInv<T>(s: Sys<T>, ev: Event<T>)
    requires Inv(s) && Enabled(s, ev) && Counted(s, ev)
    ensures Inv(Step(s, ev))
  {
    hide Step, Inv;
    match ev
    case Start(_, _) => MoveKeepsInv(s, ev);
    case AtTop(t, mayBlock) => TopKeepsInv(s, t, mayBlock);
    case DoLock(t) => LockKeepsInv(s, t);
    case Check(_, _) => MoveKeepsInv(s, ev);
    case Place(t) => PlaceKeepsInv(s, t);
    case DoUnlockTx(_) => UnlockKeepsInv(s, ev);
    case DoUnlockRx(_) => UnlockKeepsInv(s, ev);
    case DoResume(t) => ResumeKeepsInv(s, t);
    case AtExpired(_) => MoveKeepsInv(s, ev);
    case TimeOutRx(_) => TimeOutKeepsInv(s, ev);
    case TimeOutTx(_) => TimeOutKeepsInv(s, ev);
    case IsrSend(x, pos) => IsrSendKeepsInv(s, x, pos);
    case IsrReceive => IsrReceiveKeepsInv(s);
  }
}
