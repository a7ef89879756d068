/** The bit fields of FreeRTOS/event_groups.c: what a waiting task asks for is packed in the
    32-bit value of its event list item, and so is what it is told when it is released. */
module EventBits {

  type Bits = bv32

  const CLEAR_EVENTS_ON_EXIT: Bits := 0x01000000
  const UNBLOCKED_DUE_TO_BIT_SET: Bits := 0x02000000
  const WAIT_FOR_ALL_BITS: Bits := 0x04000000
  const CONTROL_BYTES: Bits := 0xff000000
  /** taskEVENT_LIST_ITEM_VALUE_IN_USE. */
  const VALUE_IN_USE: Bits := 0x80000000

  /** The arguments of a wait. */
  datatype Request = Request(waitFor: Bits, clearOnExit: bool, all: bool)

  predicate NoControl(b: Bits) {
    b & CONTROL_BYTES == 0
  }

  function Or(a: Bits, b: Bits): (c: Bits) {
    a | b
  }

  /** a with the bits of b cleared. */
  function Minus(a: Bits, b: Bits): (c: Bits) {
    a & !b
  }

  /** Every bit of a is a bit of b. */
  predicate Subset(a: Bits, b: Bits) {
    a & b == a
  }

  /** prvTestWaitCondition. */
  predicate Met(current: Bits, waitFor: Bits, all: bool) {
    if all then current & waitFor == waitFor else current & waitFor != 0
  }

  /** The item value with which a task blocks. */
  function Encode(q: Request): (v: Bits) {
    (q.waitFor
     | (if q.clearOnExit then CLEAR_EVENTS_ON_EXIT else 0)
     | (if q.all then WAIT_FOR_ALL_BITS else 0))
    | VALUE_IN_USE
  }

  function WaitedFor(v: Bits): (b: Bits) {
    v & !CONTROL_BYTES
  }

  predicate WaitsForAll(v: Bits) {
    v & CONTROL_BYTES & WAIT_FOR_ALL_BITS != 0
  }

  predicate ClearsOnExit(v: Bits) {
    v & CONTROL_BYTES & CLEAR_EVENTS_ON_EXIT != 0
  }

  /** Whether the current bits release a task that waits with item value v, as xEventGroupSetBits
      tests it. */
  predicate Satisfied(current: Bits, v: Bits) {
    Matches(current, WaitedFor(v), WaitsForAll(v))
  }

  predicate Matches(current: Bits, waitedFor: Bits, all: bool) {
    if all then waitedFor & current == waitedFor else waitedFor & current != 0
  }

  /** The item value with which a task is released. */
  function Snapshot(current: Bits): (v: Bits) {
    (current | UNBLOCKED_DUE_TO_BIT_SET) | VALUE_IN_USE
  }

  predicate Unblocked(v: Bits) {
    v & UNBLOCKED_DUE_TO_BIT_SET != 0
  }

  /** What the set bits decode is what the wait encoded. */
  lemma RequestRoundTrip(q: Request)
    requires NoControl(q.waitFor)
    ensures WaitedFor(Encode(q)) == q.waitFor
    ensures WaitsForAll(Encode(q)) == q.all && ClearsOnExit(Encode(q)) == q.clearOnExit
    ensures !Unblocked(Encode(q))
  {
  }

  lemma MatchesIsMet(current: Bits, w: Bits, all: bool)
    ensures Matches(current, w, all) <==> Met(current, w, all)
  {
  }

  /** The two tests of a wait condition, on the arguments and on the item value, agree. */
  lemma SatisfiedIsMet(current: Bits, q: Request)
    requires NoControl(q.waitFor)
    ensures Satisfied(current, Encode(q)) <==> Met(current, q.waitFor, q.all)
  {
    hide Encode, WaitedFor, WaitsForAll, Matches, Met;
    RequestRoundTrip(q);
    MatchesIsMet(current, q.waitFor, q.all);
  }

  lemma SnapshotRoundTrip(current: Bits)
    requires NoControl(current)
    ensures Unblocked(Snapshot(current)) && WaitedFor(Snapshot(current)) == current
  {
  }

  lemma MetGrows(a: Bits, b: Bits, waitFor: Bits, all: bool)
    requires Subset(a, b) && Met(a, waitFor, all)
    ensures Met(b, waitFor, all)
  {
  }

  lemma MatchGrows(a: Bits, b: Bits, w: Bits, all: bool)
    requires Subset(a, b) && Matches(a, w, all)
    ensures Matches(b, w, all)
  {
  }

  /** More bits never stop a task from being released. */
  lemma SatisfiedGrows(a: Bits, b: Bits, v: Bits)
    requires Subset(a, b) && Satisfied(a, v)
    ensures Satisfied(b, v)
  {
    hide WaitedFor, WaitsForAll, Subset, Matches;
    MatchGrows(a, b, WaitedFor(v), WaitsForAll(v));
  }

  lemma ClearingShrinks(a: Bits, c: Bits)
    ensures Subset(Minus(a, c), a) && (NoControl(a) ==> NoControl(Minus(a, c)))
    ensures Subset(a, a)
  {
  }

  lemma SettingNoControl(a: Bits, b: Bits)
    requires NoControl(a) && NoControl(b)
    ensures NoControl(Or(a, b))
  {
  }

  lemma OrCommutes(a: Bits, b: Bits)
    ensures Or(a, b) == Or(b, a)
  {
  }

  lemma OrAssociates(a: Bits, b: Bits, c: Bits)
    ensures Or(Or(a, b), c) == Or(a, Or(b, c))
  {
  }

  lemma OrMoves(a: Bits, x: Bits, y: Bits)
    ensures Or(Or(a, x), y) == Or(Or(a, y), x)
  {
    hide Or;
    OrAssociates(a, x, y);
    OrAssociates(a, y, x);
    OrCommutes(x, y);
  }
}
