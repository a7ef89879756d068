/** A queue of FreeRTOS/queue.c as a sequence with two wait lists and two lock counts: what each
    of its critical sections does. */
module QueueSpec {
  import opened Common
  import opened ListSpec

  type Task = nat

  /** queueUNLOCKED. */
  const UNLOCKED: int := -1

  /** The cast to int8_t. */
  function Int8(n: int): (r: int) {
    (n + 128) % 256 - 128
  }

  datatype Position = ToBack | ToFront | Overwrite

  datatype Queue<T> = Queue(
    items: seq<T>,
    length: nat,
    rxWait: seq<Entry<Task>>,   // xTasksWaitingToReceive
    txWait: seq<Entry<Task>>,   // xTasksWaitingToSend
    cRx: int,
    cTx: int)

  predicate HasRoom<T>(q: Queue<T>, pos: Position) {
    |q.items| < q.length || pos == Overwrite
  }

  /** Overwriting is for queues of length one only: the assertion of xQueueGenericSend. */
  predicate MaySend<T>(q: Queue<T>, pos: Position) {
    pos == Overwrite ==> q.length == 1
  }

  /** prvCopyDataToQueue. */
  function Put<T>(q: Queue<T>, x: T, pos: Position): (r: Queue<T>)
    requires HasRoom(q, pos)
  {
    match pos
    case ToBack => q.(items := q.items + [x])
    case ToFront => q.(items := [x] + q.items)
    case Overwrite => q.(items := [x] + if q.items == [] then [] else q.items[1..])
  }

  /** Wake the first task waiting to receive, if there is one. */
  function PopRx<T>(q: Queue<T>): (r: (Queue<T>, Option<Task>)) {
    if q.rxWait == [] then (q, None) else (q.(rxWait := q.rxWait[1..]), Some(q.rxWait[0].owner))
  }

  function PopTx<T>(q: Queue<T>): (r: (Queue<T>, Option<Task>)) {
    if q.txWait == [] then (q, None) else (q.(txWait := q.txWait[1..]), Some(q.txWait[0].owner))
  }

  /** The successful critical section of xQueueGenericSend. */
  function SendNow<T>(q: Queue<T>, x: T, pos: Position): (r: (Queue<T>, Option<Task>))
    requires HasRoom(q, pos)
  {
    PopRx(Put(q, x, pos))
  }

  /** The successful critical section of xQueueReceive. */
  function ReceiveNow<T>(q: Queue<T>): (r: (Queue<T>, Option<Task>))
    requires q.items != []
  {
    PopTx(q.(items := q.items[1..]))
  }

  /** xQueueGenericSendFromISR: with the queue locked the event list is left alone. */
  function SendFromIsr<T>(q: Queue<T>, x: T, pos: Position): (r: (Queue<T>, Option<Task>)) {
    if !HasRoom(q, pos) then (q, None)
    else if q.cTx == UNLOCKED then SendNow(q, x, pos)
    else (Put(q, x, pos).(cTx := Int8(q.cTx + 1)), None)
  }

  /** xQueueReceiveFromISR. */
  function ReceiveFromIsr<T>(q: Queue<T>): (r: (Queue<T>, Option<Task>)) {
    if q.items == [] then (q, None)
    else if q.cRx == UNLOCKED then ReceiveNow(q)
    else (q.(items := q.items[1..], cRx := Int8(q.cRx + 1)), None)
  }

  /** prvLockQueue. */
  function Lock<T>(q: Queue<T>): (r: Queue<T>) {
    q.(cRx := if q.cRx == UNLOCKED then 0 else q.cRx, cTx := if q.cTx == UNLOCKED then 0 else q.cTx)
  }

  /** How many tasks an unlock wakes: one for each item that came, as long as tasks wait. */
  function WakeCount<T>(count: int, wait: seq<T>): (n: nat)
    ensures n <= |wait|
  {
    if count <= 0 then 0 else if count < |wait| then count else |wait|
  }

  /** The first half of prvUnlockQueue. */
  function UnlockTx<T>(q: Queue<T>): (r: (Queue<T>, seq<Entry<Task>>)) {
    var n := WakeCount(q.cTx, q.rxWait);
    (q.(rxWait := q.rxWait[n..], cTx := UNLOCKED), q.rxWait[..n])
  }

  /** The second half of prvUnlockQueue. */
  function UnlockRx<T>(q: Queue<T>): (r: (Queue<T>, seq<Entry<Task>>)) {
    var n := WakeCount(q.cRx, q.txWait);
    (q.(txWait := q.txWait[n..], cRx := UNLOCKED), q.txWait[..n])
  }
}
