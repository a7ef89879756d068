/** FreeRTOS/list.c on the heap: the intrusive circular doubly linked list. */
module HeapList {
  import opened Ticks
  import opened ListSpec

  /** The circle a with x put in behind place p. */
  ghost function Spliced<T>(a: seq<T>, x: T, p: nat): (r: seq<T>)
    requires p < |a|
    ensures |r| == |a| + 1
    ensures forall k :: 0 <= k < |r| ==> r[k] == if k <= p then a[k] else if k == p + 1 then x else a[k - 1]
  {
    a[..p + 1] + [x] + a[p + 1..]
  }

  lemma SplicedItems<T>(a: seq<T>, x: T, p: nat)
    requires p < |a|
    ensures Spliced(a, x, p)[1..] == a[1..][..p] + [x] + a[1..][p..]
    ensures RemoveAt(Spliced(a, x, p), p + 1) == a
  {
  }

  lemma RemovedItems<T>(a: seq<T>, p: nat)
    requires 0 < p < |a|
    ensures RemoveAt(a, p)[1..] == RemoveAt(a[1..], p - 1)
  {
  }

  class ListItem {
    var value: Tick
    var next: ListItem?
    var prev: ListItem?
    var container: List?

    /** vListInitialiseItem, with the item value the owner has set. */
    constructor (v: Tick)
      ensures value == v && container == null
    {
      value := v;
      next, prev, container := null, null, null;
    }
  }

  class List {
    var numberOfItems: nat
    var index: ListItem
    const end: ListItem

    /** The circle: the end marker, then the items in order. */
    ghost var nodes: seq<ListItem>
    /** Where in the circle the cursor stands. */
    ghost var cursor: nat

    ghost predicate Linked()
      reads this, nodes
    {
      && |nodes| > 0
      && (forall k {:trigger nodes[k].next} :: 0 <= k < |nodes| ==>
            nodes[k].next == if k + 1 < |nodes| then nodes[k + 1] else nodes[0])
      && (forall k {:trigger nodes[k].prev} :: 0 <= k < |nodes| ==>
            nodes[k].prev == if k > 0 then nodes[k - 1] else nodes[|nodes| - 1])
    }

    ghost predicate Valid()
      reads this, nodes
    {
      && Linked()
      && nodes[0] == end
      && (forall i, j :: 0 <= i < j < |nodes| ==> nodes[i] != nodes[j])
      && end.value == MAX_DELAY
      && (forall x :: x in nodes ==> x.container == if x == end then null else this)
      && numberOfItems == |nodes| - 1
      && cursor < |nodes| && index == nodes[cursor]
    }

    /** The list as the rest of the kernel sees it. */
    ghost function View(): (r: Ring<ListItem>)
      requires Valid()
      reads this, nodes
      ensures WellFormed(r)
    {
      Ring(nodes[1..], cursor)
    }

    /** The items with their values, as vListInsert scans them. */
    ghost function Entries(): (s: seq<Entry<ListItem>>)
      requires Valid()
      reads this, nodes
      ensures |s| == |nodes| - 1
      ensures forall k :: 0 <= k < |s| ==> s[k] == Entry(nodes[k + 1], nodes[k + 1].value)
    {
      seq(|nodes| - 1, k requires 0 <= k < |nodes| - 1 reads this, nodes => Entry(nodes[k + 1], nodes[k + 1].value))
    }

    /** vListInitialise. */
    constructor ()
      ensures Valid() && View() == EmptyRing()
      ensures fresh(nodes)
    {
      var marker := new ListItem(MAX_DELAY);
      end, index := marker, marker;
      numberOfItems := 0;
      nodes, cursor := [marker], 0;
      new;
      end.next, end.prev := end, end;
    }

    /** The circle after item has been linked in behind nodes[p]. */
    twostate lemma SplicedIn(new item: ListItem, p: nat)
      requires old(Linked()) && p < |old(nodes)| && item !in old(nodes)
      requires forall i, j :: 0 <= i < j < |old(nodes)| ==> old(nodes)[i] != old(nodes)[j]
      requires nodes == Spliced(old(nodes), item, p)
      requires item.prev == nodes[p] && item.next == (if p + 2 < |nodes| then nodes[p + 2] else nodes[0])
      requires item.next != null && item.prev != null && nodes[p].next == item && item.next.prev == item
      requires forall x: ListItem :: x in old(nodes) && x != nodes[p] ==> x.next == old(x.next)
      requires forall x: ListItem :: x in old(nodes) && x != item.next ==> x.prev == old(x.prev)
      ensures Linked()
      ensures forall i, j :: 0 <= i < j < |nodes| ==> nodes[i] != nodes[j]
      ensures forall x: ListItem :: x in nodes ==> x == item || x in old(nodes)
    {
      ghost var was := old(nodes);
      forall k {:trigger nodes[k].next} | 0 <= k < |nodes|
        ensures nodes[k].next == if k + 1 < |nodes| then nodes[k + 1] else nodes[0]
      {
        if k < p {
          assert nodes[k] == was[k] && was[k] in was && was[k] != was[p];
        } else if k > p + 1 {
          assert nodes[k] == was[k - 1] && was[k - 1] in was && was[k - 1] != was[p];
        }
      }
      forall k {:trigger nodes[k].prev} | 0 <= k < |nodes|
        ensures nodes[k].prev == if k > 0 then nodes[k - 1] else nodes[|nodes| - 1]
      {
        var q := if p + 1 < |was| then p + 1 else 0;
        assert item.next == was[q];
        if k <= p {
          assert nodes[k] == was[k] && was[k] in was;
          assert k != q ==> was[k] != was[q];
        } else if k > p + 1 {
          assert nodes[k] == was[k - 1] && was[k - 1] in was;
          assert k - 1 != q ==> was[k - 1] != was[q];
        }
      }
    }

    /** The pointer writes of vListInsertEnd. */
    method PointBeforeIndex(item: ListItem, ghost p: nat, ghost q: nat)
      requires Valid() && item !in nodes && p < |nodes|
      requires q == cursor && q == if p + 1 < |nodes| then p + 1 else 0
      modifies nodes, item
      ensures item.prev == nodes[p] && item.next == nodes[q] && nodes[p].next == item && nodes[q].prev == item
      ensures item.value == old(item.value) && item.container == old(item.container)
      ensures forall x :: x in nodes && x != nodes[p] ==> x.next == old(x.next)
      ensures forall x :: x in nodes && x != nodes[q] ==> x.prev == old(x.prev)
      ensures forall x :: x in nodes ==> x.value == old(x.value) && x.container == old(x.container)
    {
      var before := index.prev;
      assert before == nodes[p];
      item.next := index;
      item.prev := before;
      before.next := item;
      index.prev := item;
    }

    /** vListInsertEnd with its place in the circle: nodes[p] precedes the cursor. */
    method LinkBeforeIndex(item: ListItem, ghost p: nat)
      requires Valid() && item !in nodes
      requires p == if cursor == 0 then |nodes| - 1 else cursor - 1
      modifies this, nodes, item
      ensures Valid() && item.container == this
      ensures nodes == Spliced(old(nodes), item, p)
      ensures cursor == if old(cursor) == 0 then 0 else old(cursor) + 1
      ensures item.value == old(item.value)
      ensures forall x :: x in old(nodes) ==> x.value == old(x.value)
    {
      hide Linked;
      PointBeforeIndex(item, p, cursor);
      item.container := this;
      numberOfItems := numberOfItems + 1;
      nodes := Spliced(nodes, item, p);
      cursor := if cursor == 0 then 0 else cursor + 1;
      SplicedIn(item, p);
    }

    /** vListInsertEnd. */
    method InsertEnd(item: ListItem)
      requires Valid() && item !in nodes
      modifies this, nodes, item
      ensures Valid() && item.container == this
      ensures View() == ListSpec.InsertEnd(old(View()), item)
      ensures item.value == old(item.value)
      ensures forall x :: x in old(nodes) ==> x.value == old(x.value)
    {
      ghost var p := if cursor == 0 then |nodes| - 1 else cursor - 1;
      SplicedItems(nodes, item, p);
      LinkBeforeIndex(item, p);
    }

    /** The scan of vListInsert: the item to insert behind. */
    method FindPlace(v: Tick) returns (before: ListItem, ghost p: nat)
      requires Valid()
      ensures p < |nodes| && before == nodes[p] && p == InsertPos(Entries(), v)
    {
      ghost var was := Entries();
      before, p := end, 0;
      if v == MAX_DELAY {
        before := end.prev;
        p := |nodes| - 1;
        AllBelow(was, v);
      } else {
        while before.next.value <= v
          invariant 0 <= p < |nodes| && before == nodes[p]
          invariant forall i :: 0 <= i < p ==> was[i].value <= v
          decreases |nodes| - p
        {
          assert p + 1 < |nodes|;
          before := before.next;
          p := p + 1;
        }
        assert p < |was| ==> before.next == nodes[p + 1] && was[p].value > v;
        ScanStops(was, v, p);
      }
    }

    /** The pointer writes of vListInsert. */
    method PointBehind(item: ListItem, before: ListItem, ghost p: nat, ghost q: nat)
      requires Valid() && item !in nodes && p < |nodes| && before == nodes[p]
      requires q == if p + 1 < |nodes| then p + 1 else 0
      modifies nodes, item
      ensures item.prev == nodes[p] && item.next == nodes[q] && nodes[p].next == item && nodes[q].prev == item
      ensures item.value == old(item.value) && item.container == old(item.container)
      ensures forall x :: x in nodes && x != nodes[p] ==> x.next == old(x.next)
      ensures forall x :: x in nodes && x != nodes[q] ==> x.prev == old(x.prev)
      ensures forall x :: x in nodes ==> x.value == old(x.value) && x.container == old(x.container)
    {
      assert before.next == nodes[q];
      item.next := before.next;
      item.next.prev := item;
      item.prev := before;
      before.next := item;
    }

    /** The last lines of vListInsert: link the item in behind the place found. */
    method LinkBehind(item: ListItem, before: ListItem, ghost p: nat)
      requires Valid() && item !in nodes && p < |nodes| && before == nodes[p]
      modifies this, nodes, item
      ensures Valid() && item.container == this
      ensures nodes == Spliced(old(nodes), item, p)
      ensures index == old(index)
      ensures cursor == if old(cursor) <= p then old(cursor) else old(cursor) + 1
      ensures item.value == old(item.value)
      ensures forall x :: x in old(nodes) ==> x.value == old(x.value)
    {
      hide Linked;
      PointBehind(item, before, p, if p + 1 < |nodes| then p + 1 else 0);
      item.container := this;
      numberOfItems := numberOfItems + 1;
      nodes := Spliced(nodes, item, p);
      cursor := if cursor <= p then cursor else cursor + 1;
      SplicedIn(item, p);
    }

    /** The scan order after item has been linked in behind nodes[p]. */
    twostate lemma EntriesAfter(new item: ListItem, p: nat)
      requires old(Valid()) && Valid() && p == InsertPos(old(Entries()), item.value)
      requires p < |old(nodes)| && nodes == Spliced(old(nodes), item, p)
      requires forall x :: x in old(nodes) ==> x.value == old(x.value)
      ensures Entries() == ListSpec.Insert(old(Entries()), Entry(item, item.value))
    {
      var was := old(Entries());
      forall k | 0 <= k < |Entries()|
        ensures Entries()[k] == ListSpec.Insert(was, Entry(item, item.value))[k]
      {
        InsertAt(was, Entry(item, item.value), k);
        if k < p {
          assert nodes[k + 1] == old(nodes)[k + 1] && old(nodes)[k + 1] in old(nodes);
        } else if k > p {
          assert nodes[k + 1] == old(nodes)[k] && old(nodes)[k] in old(nodes);
        }
      }
    }

    /** vListInsert. */
    method Insert(item: ListItem) returns (ghost place: nat)
      requires Valid() && item !in nodes
      modifies this, nodes, item
      ensures Valid() && item.container == this
      ensures place < |old(nodes)| && nodes == Spliced(old(nodes), item, place)
      ensures cursor == if old(cursor) <= place then old(cursor) else old(cursor) + 1
      ensures Entries() == ListSpec.Insert(old(Entries()), Entry(item, old(item.value)))
      ensures index == old(index)
      ensures item.value == old(item.value)
      ensures forall x :: x in old(nodes) ==> x.value == old(x.value)
    {
      var before, p := FindPlace(item.value);
      LinkBehind(item, before, p);
      place := p;
      EntriesAfter(item, p);
    }

    /** The circle after nodes[p], which is not the end marker, has been unlinked. */
    twostate lemma TakenOut(p: nat)
      requires old(Linked()) && 0 < p < |old(nodes)|
      requires forall i, j :: 0 <= i < j < |old(nodes)| ==> old(nodes)[i] != old(nodes)[j]
      requires nodes == RemoveAt(old(nodes), p)
      requires var q := if p + 1 < |old(nodes)| then p + 1 else 0;
               && old(nodes)[p - 1].next == old(nodes)[q]
               && old(nodes)[q].prev == old(nodes)[p - 1]
               && (forall x: ListItem :: x in old(nodes) && x != old(nodes)[p - 1] ==> x.next == old(x.next))
               && (forall x: ListItem :: x in old(nodes) && x != old(nodes)[q] ==> x.prev == old(x.prev))
      ensures Linked()
      ensures forall i, j :: 0 <= i < j < |nodes| ==> nodes[i] != nodes[j]
      ensures forall x: ListItem :: x in nodes ==> x in old(nodes) && x != old(nodes)[p]
    {
      ghost var was := old(nodes);
      var q := if p + 1 < |was| then p + 1 else 0;
      forall k {:trigger nodes[k].next} | 0 <= k < |nodes|
        ensures nodes[k].next == if k + 1 < |nodes| then nodes[k + 1] else nodes[0]
      {
        var i := if k < p then k else k + 1;
        assert nodes[k] == was[i] && was[i] in was;
        assert i != p - 1 ==> was[i] != was[p - 1];
      }
      forall k {:trigger nodes[k].prev} | 0 <= k < |nodes|
        ensures nodes[k].prev == if k > 0 then nodes[k - 1] else nodes[|nodes| - 1]
      {
        var i := if k < p then k else k + 1;
        assert nodes[k] == was[i] && was[i] in was;
        assert i != q ==> was[i] != was[q];
      }
    }

    /** The two pointer writes of uxListRemove. */
    method Bypass(item: ListItem, ghost p: nat, ghost q: nat)
      requires Valid() && 0 < p < |nodes| && nodes[p] == item
      requires q == if p + 1 < |nodes| then p + 1 else 0
      modifies nodes
      ensures nodes[p - 1].next == nodes[q] && nodes[q].prev == nodes[p - 1] == item.prev
      ensures forall x :: x in nodes && x != nodes[p - 1] ==> x.next == old(x.next)
      ensures forall x :: x in nodes && x != nodes[q] ==> x.prev == old(x.prev)
      ensures forall x :: x in nodes ==> x.value == old(x.value) && x.container == old(x.container)
    {
      assert item.next == nodes[q] && item.prev == nodes[p - 1];
      item.next.prev := item.prev;
      item.prev.next := item.next;
    }

    /** The pointers and the cursor of uxListRemove. */
    method TakeOff(item: ListItem, ghost p: nat, ghost q: nat)
      requires Valid() && 0 < p < |nodes| && nodes[p] == item
      requires q == if p + 1 < |nodes| then p + 1 else 0
      modifies this`index, nodes
      ensures nodes[p - 1].next == nodes[q] && nodes[q].prev == nodes[p - 1]
      ensures index == nodes[if cursor == p then p - 1 else cursor]
      ensures forall x :: x in nodes && x != nodes[p - 1] ==> x.next == old(x.next)
      ensures forall x :: x in nodes && x != nodes[q] ==> x.prev == old(x.prev)
      ensures forall x :: x in nodes ==> x.value == old(x.value)
      ensures forall x :: x in nodes && x != item ==> x.container == old(x.container)
      ensures item.container == null
    {
      hide Linked;
      assert item in nodes;
      Bypass(item, p, q);
      if index == item {
        index := item.prev;
      }
      item.container := null;
    }

    /** uxListRemove on the item at nodes[p]. */
    method Unlink(item: ListItem, ghost p: nat)
      requires Valid() && 0 < p < |nodes| && nodes[p] == item
      modifies this, nodes
      ensures Valid() && item.container == null
      ensures nodes == RemoveAt(old(nodes), p)
      ensures cursor == if old(cursor) >= p then old(cursor) - 1 else old(cursor)
      ensures forall x :: x in old(nodes) ==> x.value == old(x.value)
    {
      hide Linked;
      assert item in nodes;
      TakeOff(item, p, if p + 1 < |nodes| then p + 1 else 0);
      numberOfItems := numberOfItems - 1;
      nodes := RemoveAt(nodes, p);
      cursor := if cursor >= p then cursor - 1 else cursor;
      TakenOut(p);
    }

    /** uxListRemove: the list is found through the item.  Its place is returned for the proof. */
    static method Remove(item: ListItem) returns (left: nat, ghost k: nat)
      requires item.container != null && item.container.Valid() && item in item.container.nodes
      modifies item.container, item.container.nodes
      ensures item.container == null
      ensures var list := old(item.container);
              && list.Valid() && left == list.numberOfItems
              && k < |old(list.View()).items| && old(list.View()).items[k] == item
              && list.View() == RemoveItem(old(list.View()), k)
              && list.nodes == RemoveAt(old(list.nodes), k + 1)
              && (forall x :: x in old(list.nodes) ==> x.value == old(x.value))
    {
      var list := item.container;
      ghost var view := list.View();
      ghost var p :| 0 <= p < |list.nodes| && list.nodes[p] == item;
      k := p - 1;
      assert view.items[k] == item;
      list.Unlink(item, p);
      left := list.numberOfItems;
      RemovedItems(old(list.nodes), p);
    }

    /** listGET_OWNER_OF_NEXT_ENTRY. */
    method NextEntry() returns (item: ListItem)
      requires Valid() && numberOfItems > 0
      modifies this
      ensures Valid() && nodes == old(nodes)
      ensures View() == Advance(old(View())) && item == Selected(View())
    {
      index := index.next;
      cursor := if cursor == |nodes| - 1 then 0 else cursor + 1;
      if index == end {
        index := index.next;
        cursor := 1;
      }
      item := index;
    }
  }

  /** uxListRemove undoes vListInsert: the circle, the cursor and every value come back. */
  method InsertThenRemove(list: List, item: ListItem)
    requires list.Valid() && item !in list.nodes
    modifies list, list.nodes, item
    ensures list.Valid() && item.container == null
    ensures list.nodes == old(list.nodes) && list.cursor == old(list.cursor)
    ensures item.value == old(item.value)
    ensures forall x :: x in list.nodes ==> x.value == old(x.value)
  {
    hide List.Valid, List.Entries, ListSpec.Insert;
    ghost var was := list.nodes;
    ghost var p := list.Insert(item);
    SplicedItems(was, item, p);
    ghost var q := p + 1;
    assert list.nodes[q] == item;
    list.Unlink(item, q);
  }
}
