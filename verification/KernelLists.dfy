/** The kernel's own data: a wrapping tick count, two delayed lists that trade places when it
    wraps, and a cached time before which no list needs to be looked at (FreeRTOS/tasks.c).

    Every method is proved to do what the unbounded-clock scheduler of SchedulerSpec does. */
module KernelLists {
  import opened Ticks
  import opened ListSpec
  import opened DelayLists
  import opened SchedulerSpec
  import opened SchedulerRuns

  lemma NextTick(n: nat)
    ensures Wrap(n + 1) == Wrap(Wrap(n) + 1)
    ensures if Wrap(n + 1) == 0 then Wrap(n) == MAX_DELAY && Epoch(n + 1) == Epoch(n) + 1
            else Wrap(n + 1) == Wrap(n) + 1 && Epoch(n + 1) == Epoch(n)
  {
  }

  class Kernel {
    const prio: seq<nat>
    var tickCount: Tick
    var numOfOverflows: Tick
    var nextTaskUnblockTime: Tick
    var delayed: seq<Entry<Task>>        // *pxDelayedTaskList
    var overflow: seq<Entry<Task>>       // *pxOverflowDelayedTaskList
    var suspended: seq<Task>
    var ready: seq<Ring<Task>>
    var events: seq<seq<Entry<Task>>>
    var pending: seq<Task>
    var notify: seq<NotifyState>
    var pended: nat
    var depth: nat
    var top: nat
    var current: Task
    var yieldPending: bool
    var switchRequested: bool
    var selfBlocked: bool

    /** The ticks processed since start-up. */
    ghost var now: nat

    /** The lists on the unbounded clock. */
    ghost function Abs(): (s: Sched)
      reads this
    {
      Sched(prio, now, Merged(delayed, overflow, Epoch(now)), suspended, ready, events, pending, notify,
            pended, depth, top, current, yieldPending, switchRequested, selfBlocked)
    }

    /** The cached time is never after the first wake time of the current list. */
    ghost predicate CacheOk()
      reads this
    {
      delayed != [] ==> nextTaskUnblockTime <= delayed[0].value
    }

    ghost predicate Clock()
      reads this
    {
      tickCount == Wrap(now) && numOfOverflows == Wrap(Epoch(now)) && Pair(delayed, overflow)
    }

    ghost predicate Valid()
      reads this
    {
      Clock() && CacheOk() && Base(Abs()) && Ahead(Abs())
    }

    /** prvResetNextTaskUnblockTime. */
    method ResetNextTaskUnblockTime()
      requires TickValues(delayed)
      modifies this`nextTaskUnblockTime
      ensures nextTaskUnblockTime == if delayed == [] then MAX_DELAY else delayed[0].value
    {
      if delayed == [] {
        nextTaskUnblockTime := MAX_DELAY;
      } else {
        nextTaskUnblockTime := delayed[0].value;
      }
    }

    /** taskSWITCH_DELAYED_LISTS.  That the current list is empty is the code's assertion. */
    method SwitchDelayedLists()
      requires delayed == [] && Pair(delayed, overflow)
      modifies this`delayed, this`overflow, this`nextTaskUnblockTime, this`numOfOverflows
      ensures delayed == old(overflow) && overflow == []
      ensures nextTaskUnblockTime == if delayed == [] then MAX_DELAY else delayed[0].value
      ensures numOfOverflows == Wrap(old(numOfOverflows) + 1)
    {
      delayed, overflow := overflow, delayed;
      numOfOverflows := Wrap(numOfOverflows + 1);
      ResetNextTaskUnblockTime();
    }

    /** prvAddTaskToReadyList. */
    method AddTaskToReadyList(t: Task)
      requires Shape(Abs()) && t < |prio|
      modifies this`ready, this`top
      ensures Abs() == AddReady(old(Abs()), t)
    {
      if prio[t] > top {
        top := prio[t];
      }
      ready := ready[prio[t] := InsertEnd(ready[prio[t]], t)];
    }

    /** The assertion of taskSWITCH_DELAYED_LISTS: at the last tick of an epoch no task of the
        current list is left. */
    lemma NothingLeftBehind()
      requires Valid()
      ensures tickCount == MAX_DELAY ==> delayed == []
    {
      hide OneHome, ReadyLists, Members, Shape;
      TrueTime(now);
      if delayed != [] {
        assert Abs().sleeping[0] in Abs().sleeping;
        assert now < Abs().sleeping[0].value;
      }
    }

    /** The list switch changes no true time. */
    method SwitchAtEpoch()
      requires delayed == [] && Pair(delayed, overflow)
      modifies this`delayed, this`overflow, this`nextTaskUnblockTime, this`numOfOverflows
      ensures Pair(delayed, overflow) && CacheOk() && numOfOverflows == Wrap(old(numOfOverflows) + 1)
      ensures Merged(delayed, overflow, Epoch(now) + 1) == old(Merged(delayed, overflow, Epoch(now)))
    {
      hide Merged, Sorted, TickValues, Wrap, Epoch;
      SwapIsInvisible(overflow, Epoch(now));
      SwitchDelayedLists();
    }

    /** The count goes on by one, and the lists are switched if it has wrapped to 0. */
    method AdvanceClock()
      requires Clock() && CacheOk() && (tickCount == MAX_DELAY ==> delayed == [])
      modifies this`tickCount, this`now, this`delayed, this`overflow, this`nextTaskUnblockTime, this`numOfOverflows
      ensures Clock() && CacheOk()
      ensures Abs() == old(Abs()).(now := old(now) + 1)
    {
      hide Merged, Pair, Wrap, Epoch;
      NextTick(now);
      NextTick(Epoch(now));
      tickCount := Wrap(tickCount + 1);
      if tickCount == 0 {
        SwitchAtEpoch();
      }
      now := now + 1;
    }

    /** xTaskIncrementTick. */
    method IncrementTick() returns (switchRequired: bool)
      requires Valid()
      modifies this
      ensures Valid()
      ensures old(depth) == 0 ==> (Abs(), switchRequired) == TickOne(old(Abs()))
      ensures old(depth) > 0 ==> Abs() == old(Abs()).(pended := old(pended) + 1) && switchRequired == yieldPending
    {
      hide OneHome, ReadyLists, Members, Ahead, Merged, WakeDue, AheadOrDue;
      switchRequired := false;
      if depth == 0 {
        ghost var was := Abs();
        TickOneKeeps(was, true);
        NothingLeftBehind();
        AdvanceClock();
        OneTickOn(was);
        if tickCount >= nextTaskUnblockTime {
          switchRequired := WakeDueTasks();
        } else {
          NoneDue(false);
        }
        if |ready[prio[current]].items| > 1 {
          switchRequired := true;
        }
      } else {
        pended := pended + 1;
        SameBase(old(Abs()), Abs());
      }
      if yieldPending {
        switchRequired := true;
      }
    }

    /** With the first wake time of the current list ahead, nothing is due. */
    lemma NoneDue(urgent: bool)
      requires Clock() && Shape(Abs()) && Members(Abs())
      requires delayed != [] ==> delayed[0].value > tickCount
      ensures WakeDue(Abs(), urgent) == (Abs(), urgent)
    {
      TrueTime(now);
    }

    /** The loop of xTaskIncrementTick. */
    method WakeDueTasks() returns (urgent: bool)
      requires Clock() && Base(Abs()) && AheadOrDue(Abs())
      modifies this
      ensures Clock() && CacheOk()
      ensures (Abs(), urgent) == WakeDue(old(Abs()), false)
      ensures tickCount == old(tickCount) && numOfOverflows == old(numOfOverflows)
    {
      hide WakeDue, OneHome, ReadyLists, Members, Merged, Sorted;
      urgent := false;
      while true
        invariant Clock() && Base(Abs()) && AheadOrDue(Abs())
        invariant WakeDue(Abs(), urgent) == WakeDue(old(Abs()), false)
        invariant now == old(now) && tickCount == old(tickCount) && numOfOverflows == old(numOfOverflows)
        decreases |delayed|
      {
        if delayed == [] {
          nextTaskUnblockTime := MAX_DELAY;
          NoneDue(urgent);
          return;
        }
        var item := delayed[0];
        if tickCount < item.value {
          nextTaskUnblockTime := item.value;
          NoneDue(urgent);
          return;
        }
        urgent := WakeFirst(urgent);
      }
    }

    lemma FirstIsDue()
      requires Clock() && Members(Abs()) && delayed != [] && delayed[0].value <= tickCount
      ensures Abs().sleeping != [] && Abs().sleeping[0].value <= now
      ensures Abs().sleeping[0].owner == delayed[0].owner < |prio|
    {
      TrueTime(now);
      assert Abs().sleeping[0] in Abs().sleeping;
    }

    /** One round of that loop, with its first wake time due. */
    method WakeFirst(urgent: bool) returns (due: bool)
      requires Clock() && Base(Abs()) && AheadOrDue(Abs())
      requires delayed != [] && delayed[0].value <= tickCount
      modifies this`delayed, this`events, this`ready, this`top
      ensures Clock() && Base(Abs()) && AheadOrDue(Abs())
      ensures delayed == old(delayed[1..])
      ensures WakeDue(Abs(), due) == old(WakeDue(Abs(), urgent))
    {
      hide OneHome, ReadyLists, Members, AheadOrDue, Sorted, Merged, AddReady;
      ghost var was := Abs();
      FirstIsDue();
      PopCurrent(delayed, overflow, Epoch(now));
      WakeHeadKeeps(was, true);
      var t := delayed[0].owner;
      delayed := delayed[1..];
      events := DropEvent(events, t);
      AddTaskToReadyList(t);
      due := urgent || prio[t] >= prio[current];
      assert Abs() == WakeHead(was);
    }

    /** uxListRemove of a task's state list item, from the list it is in. */
    method UnlinkTask(t: Task)
      requires Clock() && CacheOk() && Shape(Abs()) && t < |prio|
      modifies this`delayed, this`overflow, this`suspended, this`ready
      ensures Clock() && CacheOk()
      ensures Abs() == UnlinkState(old(Abs()), t)
    {
      hide Merged, Without, DropTask, DropReady, Sorted;
      WithoutMerged(delayed, overflow, Epoch(now), t);
      WithoutHead(delayed, t);
      delayed, overflow := Without(delayed, t), Without(overflow, t);
      suspended := DropTask(suspended, t);
      ready := ready[prio[t] := DropReady(ready[prio[t]], t)];
    }

    /** prvAddCurrentTaskToDelayedList. */
    method AddCurrentTaskToDelayedList(ticksToWait: Tick, canBlockIndefinitely: bool)
      requires Valid() && current != IDLE && ticksToWait > 0
      modifies this
      ensures Valid()
      ensures Abs() == BlockCurrent(old(Abs()), ticksToWait, canBlockIndefinitely)
      ensures tickCount == old(tickCount)
    {
      hide OneHome, ReadyLists, Members, Ahead, Merged, UnlinkState, Sorted, Insert;
      ghost var was := Abs();
      BlockKeepsBase(was, ticksToWait, canBlockIndefinitely);
      UnlinkTask(current);
      selfBlocked := true;
      if ticksToWait == MAX_DELAY && canBlockIndefinitely {
        suspended := suspended + [current];
      } else {
        InsertByWakeTime(ticksToWait);
      }
    }

    /** The choice of prvAddCurrentTaskToDelayedList between the two lists. */
    method InsertByWakeTime(ticksToWait: Tick)
      requires Clock() && CacheOk() && ticksToWait > 0
      modifies this`delayed, this`overflow, this`nextTaskUnblockTime
      ensures Clock() && CacheOk()
      ensures Abs() == old(Abs()).(sleeping := Insert(old(Abs()).sleeping, Entry(current, now + ticksToWait)))
    {
      hide Merged, Sorted, Insert;
      var timeToWake := Wrap(tickCount + ticksToWait);
      WrapSum(now, ticksToWait);
      if timeToWake < tickCount {
        InsertOverflow(delayed, overflow, Epoch(now), current, timeToWake);
        overflow := Insert(overflow, Entry(current, timeToWake));
      } else {
        InsertCurrent(delayed, overflow, Epoch(now), current, timeToWake);
        InsertHead(delayed, Entry(current, timeToWake));
        delayed := Insert(delayed, Entry(current, timeToWake));
        if timeToWake < nextTaskUnblockTime {
          nextTaskUnblockTime := timeToWake;
        }
      }
    }

    /** vTaskPlaceOnEventList. */
    method PlaceOnEventList(e: nat, ticksToWait: Tick)
      requires Valid() && Inv(Abs()) && current != IDLE && ticksToWait > 0 && e < |events|
      modifies this
      ensures Valid()
      ensures Abs() == SchedulerSpec.PlaceOnEventList(old(Abs()), e, ticksToWait)
    {
      hide OneHome, ReadyLists, Members, Ahead, Merged, BlockCurrent;
      OnEventListKeeps(Abs(), e);
      events := events[e := Insert(events[e], Entry(current, MAX_PRIORITIES - prio[current]))];
      AddCurrentTaskToDelayedList(ticksToWait, true);
    }

    /** Making a task ready while the delayed lists may be touched. */
    method MakeTaskReady(t: Task)
      requires Valid() && Known(Abs(), t)
      modifies this`delayed, this`overflow, this`suspended, this`ready, this`top
      ensures Valid()
      ensures Abs() == MakeReady(old(Abs()), t)
    {
      MakeReadyBase(Abs(), t);
      MakeReadyAhead(Abs(), t);
      UnlinkTask(t);
      AddTaskToReadyList(t);
    }

    /** The task becomes ready, or ready-to-be while the scheduler is suspended. */
    method ReadyOrPend(t: Task)
      requires Valid() && Known(Abs(), t)
      modifies this`delayed, this`overflow, this`suspended, this`ready, this`top, this`pending
      ensures Valid()
      ensures Abs() == if depth == 0 then MakeReady(old(Abs()), t) else old(Abs()).(pending := old(pending) + [t])
    {
      hide OneHome, ReadyLists, Members, Ahead, Merged, MakeReady, WellFormed, Sorted, TickValues;
      if depth == 0 {
        MakeTaskReady(t);
      } else {
        ghost var was := Abs();
        pending := pending + [t];
        PendOne(was, t);
      }
    }

    /** xTaskRemoveFromEventList. */
    method RemoveFromEventList(e: nat) returns (higher: bool)
      requires Valid() && e < |events| && events[e] != []
      modifies this
      ensures Valid()
      ensures old(events)[e][0].owner < |prio| && Abs() == EventWake(old(Abs()), e)
      ensures higher == (prio[old(events)[e][0].owner] > prio[current])
    {
      hide OneHome, ReadyLists, Members, Ahead, Merged, MakeReady, WellFormed, Sorted, TickValues;
      var t := events[e][0].owner;
      PopEvent(Abs(), e);
      events := events[e := events[e][1..]];
      ReadyOrPend(t);
      higher := MarkYield(t);
    }

    /** The last lines of xTaskRemoveFromEventList. */
    method MarkYield(t: Task) returns (higher: bool)
      requires Valid() && t < |prio|
      modifies this`yieldPending
      ensures Valid() && higher == (prio[t] > prio[current])
      ensures Abs() == old(Abs()).(yieldPending := old(yieldPending) || higher)
    {
      hide OneHome, ReadyLists, Members, Ahead, Merged, WellFormed, Sorted, TickValues;
      higher := prio[t] > prio[current];
      if higher {
        yieldPending := true;
      }
      SameBase(old(Abs()), Abs());
    }

    /** vTaskRemoveFromUnorderedEventList of the item at place k. */
    method RemoveFromUnorderedEventList(e: nat, k: nat)
      requires Valid() && depth > 0 && e < |events| && k < |events[e]|
      modifies this
      ensures Valid()
      ensures old(events)[e][k].owner < |prio| && Abs() == UnorderedWake(old(Abs()), e, k)
    {
      hide OneHome, ReadyLists, Members, Ahead, Merged, MakeReady, WellFormed, Sorted, TickValues;
      var t := events[e][k].owner;
      CutEvent(Abs(), e, k);
      events := events[e := RemoveAt(events[e], k)];
      MakeTaskReady(t);
      var _ := MarkYield(t);
    }

    method SetNotifyState(t: Task, x: NotifyState)
      requires Valid() && t < |notify|
      modifies this`notify
      ensures Valid() && Abs() == old(Abs()).(notify := old(notify)[t := x])
    {
      hide OneHome, ReadyLists, Members, Ahead, Merged, MakeReady, WellFormed, Sorted, TickValues;
      notify := notify[t := x];
      SameBase(old(Abs()), Abs());
    }

    /** portYIELD, if it is called for. */
    method RequestSwitch(due: bool)
      requires Valid()
      modifies this`switchRequested
      ensures Valid() && Abs() == old(Abs()).(switchRequested := old(switchRequested) || due)
    {
      hide OneHome, ReadyLists, Members, Ahead, Merged, MakeReady, WellFormed, Sorted, TickValues;
      if due {
        switchRequested := true;
      }
      SameBase(old(Abs()), Abs());
    }

    /** xTaskGenericNotify, but for the notification value. */
    method Notify(t: Task)
      requires Valid() && Known(Abs(), t)
      modifies this
      ensures Valid() && Abs() == SchedulerSpec.Notify(old(Abs()), t)
    {
      hide OneHome, ReadyLists, Members, Ahead, Merged, MakeReady, WellFormed, Sorted, TickValues;
      var original := notify[t];
      SetNotifyState(t, Received);
      if original == Waiting {
        MakeTaskReady(t);
        RequestSwitch(prio[t] > prio[current]);
      }
    }

    /** xTaskGenericNotifyFromISR; with a flag argument the caller asks for the switch. */
    method NotifyFromIsr(t: Task, flag: bool)
      requires Valid() && Known(Abs(), t)
      modifies this
      ensures Valid() && Abs() == SchedulerSpec.NotifyFromIsr(old(Abs()), t, flag)
    {
      hide OneHome, ReadyLists, Members, Ahead, Merged, MakeReady, WellFormed, Sorted, TickValues;
      var original := notify[t];
      SetNotifyState(t, Received);
      if original == Waiting {
        ReadyOrPend(t);
        if flag {
          RequestSwitch(prio[t] > prio[current]);
        } else {
          var _ := MarkYield(t);
        }
      }
    }

    /** The first critical section of xTaskNotifyWait. */
    method NotifyWait(ticksToWait: Tick)
      requires Valid() && current != IDLE
      modifies this
      ensures Valid() && Abs() == SchedulerSpec.NotifyWait(old(Abs()), ticksToWait)
    {
      hide OneHome, ReadyLists, Members, Ahead, Merged, BlockCurrent, WellFormed, Sorted, TickValues;
      if notify[current] != Received {
        SetNotifyState(current, Waiting);
        if ticksToWait > 0 {
          AddCurrentTaskToDelayedList(ticksToWait, true);
          RequestSwitch(true);
        }
      }
    }

    /** The second one: whether a notification came. */
    method NotifyFinish() returns (received: bool)
      requires Valid()
      modifies this`notify
      ensures Valid() && Abs() == SchedulerSpec.NotifyFinish(old(Abs()))
      ensures received == (old(notify)[current] == Received)
    {
      hide OneHome, ReadyLists, Members, Ahead, Merged, MakeReady, WellFormed, Sorted, TickValues;
      received := notify[current] == Received;
      SetNotifyState(current, NotWaiting);
    }

    /** vTaskSuspend. */
    method Suspend(t: Task)
      requires Valid() && Known(Abs(), t)
      modifies this
      ensures Valid() && Abs() == SchedulerSpec.Suspend(old(Abs()), t)
    {
      hide OneHome, ReadyLists, Members, Ahead, Merged, UnlinkState, DropTask, WellFormed, Pair, DropEvent;
      SuspendKeepsBase(Abs(), t);
      UnlinkTask(t);
      MoveToSuspended(t);
      assert TickValues(delayed) by {
        DelayedIsWrapped();
      }
      ResetNextTaskUnblockTime();
      if t == current {
        selfBlocked := true;
      }
    }

    lemma DelayedIsWrapped()
      requires Clock()
      ensures TickValues(delayed)
    {
    }

    /** Off its event list, on the suspended list, and not waiting for a notification any more. */
    method MoveToSuspended(t: Task)
      requires Clock() && CacheOk() && t < |notify|
      modifies this`events, this`pending, this`suspended, this`notify
      ensures Clock() && CacheOk()
      ensures Abs() == old(Abs()).(
                events := DropEvent(old(events), t), pending := DropTask(old(pending), t),
                suspended := old(suspended) + [t],
                notify := if old(notify)[t] == Waiting then old(notify)[t := NotWaiting] else old(notify))
    {
      hide Merged, DropTask, Pair, DropEvent;
      events := DropEvent(events, t);
      pending := DropTask(pending, t);
      suspended := suspended + [t];
      if notify[t] == Waiting {
        notify := notify[t := NotWaiting];
      }
    }

    /** prvTaskIsTaskSuspended: in the suspended list, not resumed by an interrupt already, and not
        there because it waits for an event without a timeout. */
    predicate IsSuspended(t: Task)
      reads this
    {
      t in suspended && t !in pending && forall e :: 0 <= e < |events| ==> t !in Owners(events[e])
    }

    /** vTaskResume. */
    method Resume(t: Task)
      requires Valid() && Known(Abs(), t)
      modifies this
      ensures Valid() && Abs() == SchedulerSpec.Resume(old(Abs()), t)
    {
      hide OneHome, ReadyLists, Members, Ahead, Merged, MakeReady, WellFormed, Sorted, TickValues;
      if t != current && IsSuspended(t) {
        MakeTaskReady(t);
        RequestSwitch(prio[t] >= prio[current]);
      }
    }

    /** xTaskResumeAll. */
    method ResumeAll() returns (alreadyYielded: bool)
      requires Valid() && depth > 0
      modifies this
      ensures Valid()
      ensures Abs() == SchedulerSpec.ResumeAll(old(Abs()))
      ensures alreadyYielded == (depth == 0 && yieldPending)
    {
      hide OneHome, ReadyLists, Members, Ahead, Merged, DrainPending, UnwindTicks, WellFormed, Sorted, TickValues;
      alreadyYielded := false;
      ghost var was := Abs();
      depth := depth - 1;
      SameBase(was, Abs());
      if depth == 0 {
        alreadyYielded := ResumeOuter();
      }
    }

    /** Its two loops. */
    method ResumeOuter() returns (alreadyYielded: bool)
      requires Valid() && depth == 0
      modifies this
      ensures Valid() && depth == 0 && alreadyYielded == yieldPending
      ensures Abs() == var b := UnwindTicks(DrainPending(old(Abs())), old(pended));
                       b.(pended := 0, switchRequested := b.switchRequested || b.yieldPending)
    {
      hide OneHome, ReadyLists, Members, Ahead, Merged, DrainPending, UnwindTicks, WellFormed, Sorted, TickValues;
      var moved := DrainPendingTasks();
      if moved {
        ResetNextTaskUnblockTime();
      }
      CatchUp();
      alreadyYielded := YieldIfPending();
    }

    /** The last lines of xTaskResumeAll. */
    method YieldIfPending() returns (yielded: bool)
      requires Valid()
      modifies this`switchRequested
      ensures Valid() && yielded == yieldPending
      ensures Abs() == old(Abs()).(switchRequested := old(switchRequested) || yieldPending)
    {
      hide OneHome, ReadyLists, Members, Ahead, Merged;
      yielded := yieldPending;
      if yieldPending {
        switchRequested := true;
      }
      SameBase(old(Abs()), Abs());
    }

    /** The first loop of xTaskResumeAll. */
    method DrainPendingTasks() returns (moved: bool)
      requires Valid()
      modifies this
      ensures Valid()
      ensures Abs() == DrainPending(old(Abs()))
      ensures depth == old(depth) && pended == old(pended)
    {
      hide OneHome, ReadyLists, Members, Ahead, Merged, DrainOne, WellFormed, Sorted, TickValues;
      moved := false;
      while pending != []
        invariant Valid() && DrainPending(Abs()) == DrainPending(old(Abs()))
        invariant depth == old(depth) && pended == old(pended)
        decreases |pending|
      {
        DrainFirst();
        moved := true;
      }
    }

    method DrainFirst()
      requires Valid() && pending != []
      modifies this
      ensures Valid() && Abs() == DrainOne(old(Abs()))
      ensures depth == old(depth) && pended == old(pended) && pending == old(pending)[1..]
    {
      hide OneHome, ReadyLists, Ahead, Merged, MakeReady;
      var t := pending[0];
      assert t in pending;
      MakeTaskReady(t);
      ghost var moved := Abs();
      pending := pending[1..];
      if prio[t] >= prio[current] {
        yieldPending := true;
      }
      SameBase(moved, Abs());
    }

    /** The second loop of xTaskResumeAll. */
    method CatchUp()
      requires Valid() && depth == 0
      modifies this
      ensures Valid()
      ensures depth == 0 && Abs() == UnwindTicks(old(Abs()), old(pended)).(pended := 0)
    {
      hide OneHome, ReadyLists, Members, Ahead, Merged, UnwindOne, WellFormed, Sorted, TickValues;
      var counts := pended;
      while counts > 0
        invariant Valid() && depth == 0
        invariant UnwindTicks(Abs(), counts) == UnwindTicks(old(Abs()), old(pended))
        decreases counts
      {
        CatchUpOne();
        counts := counts - 1;
      }
      ghost var was := Abs();
      pended := 0;
      SameBase(was, Abs());
    }

    method CatchUpOne()
      requires Valid() && depth == 0
      modifies this
      ensures Valid() && depth == 0 && Abs() == UnwindOne(old(Abs()))
    {
      hide OneHome, ReadyLists, Members, Ahead, Merged, TickOne;
      TickOneKeeps(Abs(), true);
      var ret := IncrementTick();
      ghost var was := Abs();
      if ret {
        yieldPending := true;
      }
      SameBase(was, Abs());
    }

    /** vTaskSwitchContext. */
    method SwitchContext()
      requires Valid() && Inv(Abs())
      modifies this
      ensures Valid() && Inv(Abs())
      ensures Abs() == (SwitchKeepsInv(old(Abs())); SchedulerSpec.SwitchContext(old(Abs())))
    {
      hide OneHome, ReadyLists, Members, Ahead, Merged, RunsHighest, Sorted, TickValues, NothingDeferred, WellFormed,
           SchedulerSpec.SwitchContext;
      SwitchKeepsInv(Abs());
      DeferOrSwitch();
    }

    method DeferOrSwitch()
      requires Clock() && CacheOk() && Shape(Abs()) && ready[0].items != []
      requires forall t :: t in ready[HighestReady(ready, top)].items ==> t < |prio|
      modifies this`ready, this`current, this`top, this`yieldPending, this`switchRequested, this`selfBlocked
      ensures Clock() && CacheOk()
      ensures Abs() == SchedulerSpec.SwitchContext(old(Abs()))
    {
      hide Merged, Pair, HighestReady, Advance, WellFormed, Selected, Wrap, Epoch;
      if depth > 0 {
        yieldPending, switchRequested := true, false;
      } else {
        SwitchNow();
      }
    }

    method SwitchNow()
      requires Clock() && CacheOk() && Shape(Abs()) && ready[0].items != []
      modifies this`ready, this`current, this`top, this`yieldPending, this`switchRequested, this`selfBlocked
      ensures Clock() && CacheOk() && |old(ready)| == |ready| && top == HighestReady(old(ready), old(top))
      ensures var list := Advance(old(ready)[top]);
              Abs() == old(Abs()).(yieldPending := false, switchRequested := false, selfBlocked := false,
                                   top := top, ready := old(ready)[top := list], current := Selected(list))
    {
      hide Merged, Pair, HighestReady, Advance, WellFormed, Selected, Wrap, Epoch;
      yieldPending, switchRequested, selfBlocked := false, false, false;
      SelectHighestPriorityTask();
    }

    /** taskSELECT_HIGHEST_PRIORITY_TASK. */
    method SelectHighestPriorityTask()
      requires top < |ready| && ready[0].items != [] && forall p :: 0 <= p < |ready| ==> WellFormed(ready[p])
      modifies this`ready, this`current, this`top
      ensures top == HighestReady(old(ready), old(top))
      ensures ready == old(ready)[top := Advance(old(ready)[top])] && current == Selected(ready[top])
    {
      var p: nat := top;
      while ready[p].items == []
        invariant 0 <= p <= top < |ready| && ready[0].items != []
        invariant HighestReady(ready, p) == HighestReady(ready, top)
        decreases p
      {
        p := p - 1;
      }
      ready := ready[p := Advance(ready[p])];
      current := Selected(ready[p]);
      top := p;
    }
  }

  /** A wake time d ticks ahead lies in this epoch or the next, as the wrapped comparison says. */
  lemma WrapSum(n: nat, d: Tick)
    requires d > 0
    ensures var w := Wrap(Wrap(n) + d);
            n + d == if w < Wrap(n) then InEpoch(Epoch(n) + 1, w) else InEpoch(Epoch(n), w)
  {
    TrueTime(n);
  }

  /** One tick on, wake times are ahead or due. */
  lemma OneTickOn(s: Sched)
    requires Base(s) && Ahead(s)
    ensures Base(s.(now := s.now + 1)) && AheadOrDue(s.(now := s.now + 1))
  {
    SameHomes(s, s.(now := s.now + 1));
  }

  lemma PopEvent(s: Sched, e: nat)
    requires Base(s) && Ahead(s) && e < |s.events| && s.events[e] != []
    ensures var a := s.(events := s.events[e := s.events[e][1..]]);
            Base(a) && Ahead(a) && Known(a, s.events[e][0].owner)
  {
    var a := s.(events := s.events[e := s.events[e][1..]]);
    assert s.events[e][0] in s.events[e];
    assert forall x :: x in a.events[e] ==> x in s.events[e];
    SameHomes(s, a);
  }

  lemma CutEvent(s: Sched, e: nat, k: nat)
    requires Base(s) && Ahead(s) && e < |s.events| && k < |s.events[e]|
    ensures var a := s.(events := s.events[e := RemoveAt(s.events[e], k)]);
            Base(a) && Ahead(a) && Known(a, s.events[e][k].owner)
  {
    hide Homes;
    var a := s.(events := s.events[e := RemoveAt(s.events[e], k)]);
    assert s.events[e][k] in s.events[e];
    assert forall x :: x in a.events[e] ==> x in s.events[e];
    SameHomes(s, a);
  }

  lemma WithoutHead(s: seq<Entry<Task>>, t: Task)
    requires Sorted(s)
    ensures Without(s, t) != [] ==> s != [] && Without(s, t)[0].value >= s[0].value
  {
    WithoutMember(s, t);
    if Without(s, t) != [] {
      assert Without(s, t)[0] in s;
    }
  }

  lemma PendOne(s: Sched, t: Task)
    requires Base(s) && Ahead(s) && Known(s, t)
    ensures Base(s.(pending := s.pending + [t])) && Ahead(s.(pending := s.pending + [t]))
  {
    SameBase(s, s.(pending := s.pending + [t]));
  }

  lemma InsertHead(s: seq<Entry<Task>>, e: Entry<Task>)
    requires Sorted(s)
    ensures Insert(s, e) != []
    ensures Insert(s, e)[0].value == if s == [] || e.value < s[0].value then e.value else s[0].value
  {
    InsertAt(s, e, 0);
  }

  lemma BlockKeepsBase(s: Sched, ticks: Tick, forever: bool)
    requires Base(s) && Ahead(s) && s.current != IDLE && ticks > 0
    ensures Base(BlockCurrent(s, ticks, forever)) && Ahead(BlockCurrent(s, ticks, forever))
  {
    hide BlockCurrent;
    BlockHomes(s, ticks, forever);
    BlockMembers(s, ticks, forever);
    BlockAhead(s, ticks, forever);
    BlockReadyLists(s, ticks, forever);
  }
}
