/** The priority changes of FreeRTOS/tasks.c as the code makes them: on the fields of a task and on
    the ready list it sits in.  What they do to the task is what module MutexProtocol says. */
module Inheritance {
  import opened Common
  import opened ListSpec
  import M = MutexProtocol

  /** The position of t in a list. */
  function Place(s: seq<M.TaskId>, t: M.TaskId): (k: nat)
    requires t in s
    ensures k < |s| && s[k] == t
    decreases s
  {
    if s[0] == t then 0 else 1 + Place(s[1..], t)
  }

  lemma Removed(r: Ring<M.TaskId>, k: nat)
    requires WellFormed(r) && k < |r.items| && Distinct(r.items)
    ensures Distinct(RemoveItem(r, k).items)
    ensures forall x :: x in RemoveItem(r, k).items <==> x in r.items && x != r.items[k]
  {
    var q := RemoveItem(r, k).items;
    forall x | x in r.items && x != r.items[k]
      ensures x in q
    {
      var i := Place(r.items, x);
      assert q[if i < k then i else i - 1] == x;
    }
  }

  lemma AddedAt(r: Ring<M.TaskId>, t: M.TaskId, i: nat)
    requires WellFormed(r) && i <= |r.items|
    ensures var (q, k) := (InsertEnd(r, t).items, if r.index == 0 then |r.items| else r.index - 1);
            |q| == |r.items| + 1 && k <= |r.items|
            && q[i] == if i < k then r.items[i] else if i == k then t else r.items[i - 1]
  {
  }

  lemma Added(r: Ring<M.TaskId>, t: M.TaskId)
    requires WellFormed(r) && Distinct(r.items) && t !in r.items
    ensures Distinct(InsertEnd(r, t).items)
    ensures forall x :: x in InsertEnd(r, t).items <==> x in r.items || x == t
  {
    var q, k := InsertEnd(r, t).items, if r.index == 0 then |r.items| else r.index - 1;
    AddedAt(r, t, 0);
    hide InsertEnd, WellFormed;
    forall i | 0 <= i < |q|
      ensures q[i] == if i < k then r.items[i] else if i == k then t else r.items[i - 1]
    {
      AddedAt(r, t, i);
    }
    forall x | x in r.items
      ensures x in q
    {
      var i := Place(r.items, x);
      assert q[if i < k then i else i + 1] == x;
    }
    assert q[k] == t;
  }

  class ReadyTasks {
    var tasks: seq<M.Task>
    var ready: seq<Ring<M.TaskId>>   // pxReadyTasksLists
    var top: nat                     // uxTopReadyPriority
    var current: M.TaskId            // pxCurrentTCB

    /** Ready list p holds each ready task of priority p once and nothing else, and no list above
        uxTopReadyPriority has a task. */
    ghost predicate Valid()
      reads this
    {
      && current < |tasks| && tasks[current].status.Ready?
      && top < |ready|
      && (forall t :: 0 <= t < |tasks| ==> tasks[t].base < |ready| && tasks[t].prio < |ready|)
      && (forall p :: 0 <= p < |ready| ==> ListOk(tasks, ready[p], p))
      && (forall p :: top < p < |ready| ==> ready[p].items == [])
    }

    static ghost predicate ListOk(tasks: seq<M.Task>, r: Ring<M.TaskId>, p: nat) {
      && WellFormed(r) && Distinct(r.items)
      && (forall t: M.TaskId :: t in r.items <==> t < |tasks| && tasks[t].status.Ready? && tasks[t].prio == p)
    }

    /** A ready task goes from the list of its old priority to that of its new one. */
    static lemma Moved(tasks: seq<M.Task>, r: Ring<M.TaskId>, p: nat, t: M.TaskId, prio: nat)
      requires t < |tasks| && tasks[t].status.Ready? && prio != tasks[t].prio && ListOk(tasks, r, p)
      ensures p == tasks[t].prio ==> t in r.items && WellFormed(RemoveItem(r, Place(r.items, t)))
      ensures var after := tasks[t := tasks[t].(prio := prio)];
              if p == tasks[t].prio then ListOk(after, RemoveItem(r, Place(r.items, t)), p)
              else if p == prio then ListOk(after, InsertEnd(r, t), p)
              else ListOk(after, r, p)
    {
      hide RemoveItem, InsertEnd, Distinct;
      if p == tasks[t].prio {
        Removed(r, Place(r.items, t));
      } else if p == prio {
        Added(r, t);
      }
    }

    /** Remove a ready task, set its priority, and add it behind its new ready list's cursor. */
    method Move(t: M.TaskId, prio: nat)
      requires Valid() && t < |tasks| && tasks[t].status.Ready? && prio < |ready| && prio != tasks[t].prio
      modifies this`tasks, this`ready, this`top
      ensures Valid() && tasks == old(tasks)[t := old(tasks)[t].(prio := prio)]
      ensures |ready| == |old(ready)| && ready[prio] == InsertEnd(old(ready)[prio], t)
      ensures ready[old(tasks)[t].prio]
              == RemoveItem(old(ready)[old(tasks)[t].prio], Place(old(ready)[old(tasks)[t].prio].items, t))
      ensures forall p :: 0 <= p < |ready| && p != prio && p != old(tasks)[t].prio ==> ready[p] == old(ready)[p]
    {
      var was := tasks[t].prio;
      Moved(tasks, ready[was], was, t, prio);
      assert WellFormed(ready[prio]) by {
        assert ListOk(tasks, ready[prio], prio);
      }
      hide ListOk, RemoveItem, InsertEnd;
      ready := ready[was := RemoveItem(ready[was], Place(ready[was].items, t))];
      tasks := tasks[t := tasks[t].(prio := prio)];
      if prio > top {
        top := prio;
      }
      ready := ready[prio := InsertEnd(ready[prio], t)];
      forall p | 0 <= p < |ready|
        ensures ListOk(tasks, ready[p], p)
      {
        Moved(old(tasks), old(ready)[p], p, t, prio);
      }
    }

    method SetPriority(t: M.TaskId, prio: nat)
      requires Valid() && t < |tasks| && prio < |ready| && !tasks[t].status.Ready?
      modifies this`tasks
      ensures Valid() && tasks == old(tasks)[t := old(tasks)[t].(prio := prio)]
    {
      tasks := tasks[t := tasks[t].(prio := prio)];
      forall p | 0 <= p < |ready|
        ensures ListOk(tasks, ready[p], p)
      {
        assert ListOk(old(tasks), ready[p], p);
      }
    }

    /** xTaskPriorityInherit, called by the running task. */
    method PriorityInherit(holder: Option<M.TaskId>) returns (occurred: bool)
      requires Valid() && (holder.Some? ==> holder.value < |tasks|)
      modifies this
      ensures Valid() && current == old(current)
      ensures holder.None? ==> !occurred && tasks == old(tasks) && ready == old(ready)
      ensures holder.Some? ==>
                && occurred == M.Inherit(old(tasks)[holder.value], old(tasks)[current].prio).1
                && tasks == old(tasks)[
                     holder.value := M.Inherit(old(tasks)[holder.value], old(tasks)[current].prio).0]
    {
      occurred := false;
      if holder.Some? {
        var h := holder.value;
        if tasks[h].prio < tasks[current].prio {
          if tasks[h].status.Ready? {
            Move(h, tasks[current].prio);
          } else {
            SetPriority(h, tasks[current].prio);
          }
          occurred := true;
        } else {
          occurred := tasks[h].base < tasks[current].prio;
        }
      }
    }

    /** xTaskPriorityDisinherit by the running task. */
    method PriorityDisinherit() returns (yieldRequired: bool)
      requires Valid() && tasks[current].held > 0
      modifies this
      ensures Valid() && current == old(current)
      ensures tasks == old(tasks)[current := M.Disinherited(old(tasks)[current])]
      ensures yieldRequired <==> tasks[current].prio != old(tasks)[current].prio
    {
      yieldRequired := false;
      tasks := tasks[current := tasks[current].(held := tasks[current].held - 1)];
      forall p | 0 <= p < |ready|
        ensures ListOk(tasks, ready[p], p)
      {
        assert ListOk(old(tasks), ready[p], p);
      }
      if tasks[current].prio != tasks[current].base {
        if tasks[current].held == 0 {
          Move(current, tasks[current].base);
          yieldRequired := true;
        }
      }
    }

    /** vTaskPriorityDisinheritAfterTimeout by a task other than the holder. */
    method PriorityDisinheritAfterTimeout(holder: Option<M.TaskId>, highest: nat)
      requires Valid() && highest < |ready|
      requires holder.Some? ==> holder.value < |tasks| && holder.value != current && tasks[holder.value].held > 0
      modifies this
      ensures Valid() && current == old(current)
      ensures tasks == if holder.None? then old(tasks)
                       else old(tasks)[holder.value := M.AfterTimeout(old(tasks)[holder.value], highest)]
    {
      if holder.Some? {
        var h := holder.value;
        var use := if tasks[h].base < highest then highest else tasks[h].base;
        if tasks[h].prio != use && tasks[h].held == 1 {
          if tasks[h].status.Ready? {
            Move(h, use);
          } else {
            SetPriority(h, use);
          }
        }
      }
    }
  }
}
