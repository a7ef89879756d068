/** The queue as FreeRTOS/queue.c stores it: a circular array whose read position stands one slot
    behind the head item.  Every method is proved against the sequence view of QueueSpec. */
module QueueStorage {
  import opened Common
  import opened ListSpec
  import Spec = QueueSpec

  type Task = nat

  /** Slot i of a ring of n slots that starts at base <= n. */
  function Slot(base: nat, i: nat, n: nat): (k: nat)
    requires base <= n && i < n
    ensures k < n
  {
    if base + i >= n then base + i - n else base + i
  }

  class Queue<T> {
    const length: nat
    const storage: array<T>
    var writeTo: nat          // pcWriteTo, in items
    var readFrom: nat         // u.pcReadFrom, in items: where the last item was read
    var messagesWaiting: nat
    var rxWait: seq<Entry<Task>>
    var txWait: seq<Entry<Task>>
    var cRxLock: int
    var cTxLock: int

    ghost predicate Valid()
      reads this, storage
    {
      && 0 < length == storage.Length
      && writeTo < length && readFrom < length && messagesWaiting <= length
      && writeTo == if messagesWaiting < length then Slot(readFrom + 1, messagesWaiting, length)
          else Slot(readFrom + 1, 0, length)
    }

    ghost function Items(): (s: seq<T>)
      requires Valid()
      reads this, storage
      ensures |s| == messagesWaiting
      ensures forall i :: 0 <= i < |s| ==> s[i] == storage[Slot(readFrom + 1, i, length)]
    {
      seq(messagesWaiting, i requires 0 <= i < messagesWaiting && Valid() reads this, storage =>
        storage[Slot(readFrom + 1, i, length)])
    }

    ghost function View(): (q: Spec.Queue<T>)
      requires Valid()
      reads this, storage
    {
      Spec.Queue(Items(), length, rxWait, txWait, cRxLock, cTxLock)
    }

    /** xQueueGenericReset of a new queue, on the storage area given. */
    constructor (area: array<T>)
      requires area.Length > 0
      ensures Valid() && storage == area
      ensures View() == Spec.Queue([], area.Length, [], [], Spec.UNLOCKED, Spec.UNLOCKED)
    {
      length, storage := area.Length, area;
      writeTo, readFrom, messagesWaiting := 0, area.Length - 1, 0;
      rxWait, txWait := [], [];
      cRxLock, cTxLock := Spec.UNLOCKED, Spec.UNLOCKED;
    }

    /** prvCopyDataToQueue for a queue with items. */
    method CopyDataToQueue(item: T, position: Spec.Position)
      requires Valid() && Spec.HasRoom(View(), position) && Spec.MaySend(View(), position)
      modifies this`writeTo, this`readFrom, this`messagesWaiting, storage
      ensures Valid()
      ensures View() == Spec.Put(old(View()), item, position)
    {
      if position == Spec.ToBack {
        WriteBack(item);
      } else {
        WriteFront(item, if position == Spec.Overwrite && messagesWaiting > 0 then 1 else 0);
      }
    }

    /** Behind the last item. */
    method WriteBack(item: T)
      requires Valid() && messagesWaiting < length
      modifies this`writeTo, this`messagesWaiting, storage
      ensures Valid() && Items() == old(Items()) + [item]
    {
      ghost var was := Items();
      storage[writeTo] := item;
      writeTo := writeTo + 1;
      if writeTo >= length {
        writeTo := 0;
      }
      messagesWaiting := messagesWaiting + 1;
      assert Items() == was + [item];
    }

    /** Before the head item, in the slot where the last item was read; an item that is overwritten
        does not count any more. */
    method WriteFront(item: T, overwritten: nat)
      requires Valid() && overwritten <= messagesWaiting < length + overwritten && overwritten <= 1
      requires overwritten == 1 ==> length == 1
      modifies this`readFrom, this`messagesWaiting, storage
      ensures Valid() && Items() == [item] + old(Items())[overwritten..]
    {
      ghost var was := Items();
      storage[readFrom] := item;
      if readFrom == 0 {
        readFrom := length - 1;
      } else {
        readFrom := readFrom - 1;
      }
      messagesWaiting := messagesWaiting - overwritten + 1;
      assert Items() == [item] + was[overwritten..];
    }

    /** prvCopyDataFromQueue: the read position moves onto the head item. */
    method CopyDataFromQueue() returns (item: T)
      requires Valid() && messagesWaiting > 0
      modifies this`readFrom
      ensures readFrom == Slot(old(readFrom) + 1, 0, length) && item == old(Items())[0]
    {
      readFrom := readFrom + 1;
      if readFrom >= length {
        readFrom := 0;
      }
      item := storage[readFrom];
    }

    /** The successful critical section of xQueueGenericSend. */
    method Send(item: T, position: Spec.Position) returns (woken: Option<Task>)
      requires Valid() && Spec.HasRoom(View(), position) && Spec.MaySend(View(), position)
      modifies this, storage
      ensures Valid() && (View(), woken) == Spec.SendNow(old(View()), item, position)
    {
      CopyDataToQueue(item, position);
      woken := WakeReceiver();
    }

    /** xTaskRemoveFromEventList on the tasks waiting to receive, if there are any. */
    method WakeReceiver() returns (woken: Option<Task>)
      requires Valid()
      modifies this`rxWait
      ensures Valid() && (View(), woken) == Spec.PopRx(old(View()))
    {
      woken := None;
      if rxWait != [] {
        woken := Some(rxWait[0].owner);
        rxWait := rxWait[1..];
      }
      assert Items() == old(Items());
    }

    method WakeSender() returns (woken: Option<Task>)
      requires Valid()
      modifies this`txWait
      ensures Valid() && (View(), woken) == Spec.PopTx(old(View()))
    {
      woken := None;
      if txWait != [] {
        woken := Some(txWait[0].owner);
        txWait := txWait[1..];
      }
      assert Items() == old(Items());
    }

    /** Remove the head item. */
    method TakeItem() returns (item: T)
      requires Valid() && messagesWaiting > 0
      modifies this`readFrom, this`messagesWaiting
      ensures Valid() && item == old(Items())[0]
      ensures View() == old(View()).(items := old(Items())[1..])
    {
      ghost var was := Items();
      item := CopyDataFromQueue();
      messagesWaiting := messagesWaiting - 1;
      assert Items() == was[1..];
    }

    /** The successful critical section of xQueueReceive. */
    method Receive() returns (item: T, woken: Option<Task>)
      requires Valid() && messagesWaiting > 0
      modifies this
      ensures Valid() && item == old(Items())[0]
      ensures (View(), woken) == Spec.ReceiveNow(old(View()))
    {
      item := TakeItem();
      woken := WakeSender();
    }

    /** The successful critical section of xQueuePeek: the read position is put back. */
    method Peek() returns (item: T, woken: Option<Task>)
      requires Valid() && messagesWaiting > 0
      modifies this
      ensures Valid() && item == old(Items())[0]
      ensures (View(), woken) == Spec.PopRx(old(View())) && Items() == old(Items())
    {
      var originalReadPosition := readFrom;
      item := CopyDataFromQueue();
      readFrom := originalReadPosition;
      assert Items() == old(Items());
      woken := WakeReceiver();
    }

    /** xQueueGenericSendFromISR. */
    method SendFromIsr(item: T, position: Spec.Position) returns (sent: bool, woken: Option<Task>)
      requires Valid() && Spec.MaySend(View(), position)
      modifies this, storage
      ensures Valid() && sent == Spec.HasRoom(old(View()), position)
      ensures (View(), woken) == Spec.SendFromIsr(old(View()), item, position)
    {
      woken := None;
      sent := messagesWaiting < length || position == Spec.Overwrite;
      if sent {
        var lock := cTxLock;
        CopyDataToQueue(item, position);
        if lock == Spec.UNLOCKED {
          woken := WakeReceiver();
        } else {
          cTxLock := Spec.Int8(lock + 1);
          assert Items() == Spec.Put(old(View()), item, position).items;
        }
      }
    }

    /** xQueueReceiveFromISR. */
    method ReceiveFromIsr() returns (item: Option<T>, woken: Option<Task>)
      requires Valid()
      modifies this
      ensures Valid() && (View(), woken) == Spec.ReceiveFromIsr(old(View()))
      ensures item == if old(Items()) == [] then None else Some(old(Items())[0])
    {
      item, woken := None, None;
      if messagesWaiting > 0 {
        var lock := cRxLock;
        var x := TakeItem();
        item := Some(x);
        if lock == Spec.UNLOCKED {
          woken := WakeSender();
        } else {
          cRxLock := Spec.Int8(lock + 1);
          assert Items() == old(Items())[1..];
        }
      }
    }

    /** prvLockQueue. */
    method LockQueue()
      requires Valid()
      modifies this`cRxLock, this`cTxLock
      ensures Valid() && View() == Spec.Lock(old(View()))
    {
      if cRxLock == Spec.UNLOCKED {
        cRxLock := 0;
      }
      if cTxLock == Spec.UNLOCKED {
        cTxLock := 0;
      }
      assert Items() == old(Items());
    }

    /** What xQueueReceive does with the scheduler suspended when the wait has not timed out: lock,
        look once more, wait if there is still nothing, unlock.  When no interrupt comes in between,
        locking and unlocking wake nobody and leave no trace. */
    method WaitForItem(t: Task, value: int) returns (blocked: bool)
      requires Valid() && cRxLock == Spec.UNLOCKED && cTxLock == Spec.UNLOCKED
      modifies this
      ensures Valid() && blocked == (old(Items()) == [])
      ensures View() == if blocked then old(View()).(rxWait := Insert(old(rxWait), Entry(t, value))) else old(View())
    {
      hide Insert;
      LockQueue();
      blocked := messagesWaiting == 0;
      if blocked {
        ghost var was := Items();
        rxWait := Insert(rxWait, Entry(t, value));
        assert Items() == was;
      }
      var receivers := UnlockTx();
      var senders := UnlockRx();
    }

    /** The first critical section of prvUnlockQueue. */
    method UnlockTx() returns (woken: seq<Task>)
      requires Valid()
      modifies this`rxWait, this`cTxLock
      ensures Valid() && View() == Spec.UnlockTx(old(View())).0
      ensures woken == Owners(Spec.UnlockTx(old(View())).1)
    {
      var lock := cTxLock;
      woken := [];
      ghost var k := 0;
      while lock > 0
        invariant 0 <= k <= |old(rxWait)| && lock == old(cTxLock) - k && (k > 0 ==> lock >= 0)
        invariant rxWait == old(rxWait)[k..] && cTxLock == old(cTxLock)
        invariant woken == Owners(old(rxWait)[..k])
        decreases lock
      {
        if rxWait == [] {
          break;
        }
        woken := woken + [rxWait[0].owner];
        rxWait := rxWait[1..];
        assert old(rxWait)[..k + 1] == old(rxWait)[..k] + [old(rxWait)[k]];
        k := k + 1;
        lock := lock - 1;
      }
      assert k == Spec.WakeCount(old(cTxLock), old(rxWait));
      cTxLock := Spec.UNLOCKED;
      assert Items() == old(Items());
    }

    /** The second critical section of prvUnlockQueue. */
    method UnlockRx() returns (woken: seq<Task>)
      requires Valid()
      modifies this`txWait, this`cRxLock
      ensures Valid() && View() == Spec.UnlockRx(old(View())).0
      ensures woken == Owners(Spec.UnlockRx(old(View())).1)
    {
      var lock := cRxLock;
      woken := [];
      ghost var k := 0;
      while lock > 0
        invariant 0 <= k <= |old(txWait)| && lock == old(cRxLock) - k && (k > 0 ==> lock >= 0)
        invariant txWait == old(txWait)[k..] && cRxLock == old(cRxLock)
        invariant woken == Owners(old(txWait)[..k])
        decreases lock
      {
        if txWait == [] {
          break;
        }
        woken := woken + [txWait[0].owner];
        txWait := txWait[1..];
        assert old(txWait)[..k + 1] == old(txWait)[..k] + [old(txWait)[k]];
        k := k + 1;
        lock := lock - 1;
      }
      assert k == Spec.WakeCount(old(cRxLock), old(txWait));
      cRxLock := Spec.UNLOCKED;
      assert Items() == old(Items());
    }
  }
}
