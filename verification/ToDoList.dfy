/** The list of scheduled tasks: a deque kept sorted by the tasks' mutable times refines a stable priority queue. */
module ToDoList {

  /** A scheduled task; what it does is up to the user. */
  class ToDo {
    var when: int

    constructor (when: int)
      ensures this.when == when
    {
      this.when := when;
    }
  }

  // ----- the stable priority queue -----

  /** A pending task's priority: its time, then the order of insertion. */
  datatype Key = Key(when: int, stamp: nat)
  {
    predicate Before(other: Key)
    {
      when < other.when || (when == other.when && stamp < other.stamp)
    }
  }

  datatype Queue = Queue(keys: map<ToDo, Key>, next: nat)
  {
    function Insert(t: ToDo, when: int): Queue
    {
      Queue(keys[t := Key(when, next)], next + 1)
    }

    function Remove(t: ToDo): Queue
    {
      Queue(keys - {t}, next)
    }

    function Move(t: ToDo, when: int): Queue
    {
      Remove(t).Insert(t, when)
    }

    ghost predicate IsLeast(t: ToDo)
    {
      t in keys && forall u | u in keys && u != t :: keys[t].Before(keys[u])
    }

    /** Every insertion took a fresh stamp from the counter. */
    ghost predicate Stamped()
    {
      && (forall t | t in keys :: keys[t].stamp < next)
      && (forall t, u | t in keys && u in keys && t != u :: keys[t].stamp != keys[u].stamp)
    }
  }

  ghost predicate Leads(q: Queue, some: set<ToDo>, t: ToDo)
    requires forall u | u in some :: u in q.keys
  {
    t in some && forall u | u in some && u != t :: q.keys[t].Before(q.keys[u])
  }

  lemma {:induction false} LeastIn(q: Queue, some: set<ToDo>) returns (t: ToDo)
    requires q.Stamped() && some != {} && forall u | u in some :: u in q.keys
    ensures Leads(q, some, t)
  {
    t :| t in some;
    var others := some - {t};
    assert forall u | u in some && u != t :: u in others;
    if others != {} {
      var w := LeastIn(q, others);
      LeadsWith(q, some, t, w);
      t := if q.keys[t].Before(q.keys[w]) then t else w;
    }
  }

  lemma LeadsWith(q: Queue, some: set<ToDo>, t: ToDo, w: ToDo)
    requires q.Stamped() && t in some && forall u | u in some :: u in q.keys
    requires Leads(q, some - {t}, w)
    ensures Leads(q, some, if q.keys[t].Before(q.keys[w]) then t else w)
  {
  }

  /** There is always a task to run next. */
  lemma LeastExists(q: Queue)
    requires q.Stamped() && q.keys != map[]
    ensures exists t :: t in q.keys && q.IsLeast(t)
  {
    var t := LeastIn(q, q.keys.Keys);
    assert q.IsLeast(t);
  }

  predicate Distinct(list: seq<ToDo>)
  {
    forall i, j | 0 <= i < j < |list| :: list[i] != list[j]
  }

  /** The list holds exactly the pending tasks, each once, in the order of their priorities. */
  ghost predicate Lists(list: seq<ToDo>, q: Queue)
  {
    && Distinct(list)
    && (forall t | t in list :: t in q.keys)
    && (forall t | t in q.keys :: t in list)
    && (forall i, j | 0 <= i < j < |list| :: q.keys[list[i]].Before(q.keys[list[j]]))
  }

  /** The priority queue determines the list. */
  lemma {:induction false} ListIsUnique(a: seq<ToDo>, b: seq<ToDo>, q: Queue)
    requires Lists(a, q) && Lists(b, q)
    ensures a == b
    decreases |a|
  {
    assert a != [] ==> a[0] in b;
    assert b != [] ==> b[0] in a;
    if a != [] && b != [] {
      ListWithoutFront(a, q);
      ListWithoutFront(b, q);
      assert a[0] in q.keys && b[0] in q.keys;
      ListIsUnique(a[1..], b[1..], q.Remove(a[0]));
      assert a == [a[0]] + a[1..] && b == [b[0]] + b[1..];
    }
  }

  /** The front of the list is the task with the least (time, insertion order). */
  lemma ListWithoutFront(list: seq<ToDo>, q: Queue)
    requires Lists(list, q) && list != []
    ensures q.IsLeast(list[0])
    ensures Lists(list[1..], q.Remove(list[0]))
  {
  }

  lemma EmptyTogether(list: seq<ToDo>, q: Queue)
    requires Lists(list, q)
    ensures list == [] <==> q.keys == map[]
  {
    assert list != [] ==> list[0] in q.keys;
  }

  lemma ListWithout(list: seq<ToDo>, i: nat, q: Queue)
    requires Lists(list, q) && i < |list|
    ensures Lists(list[..i] + list[i + 1..], q.Remove(list[i]))
  {
  }

  lemma Placed(list: seq<ToDo>, i: nat, t: ToDo, when: int, q: Queue, j: nat, k: nat)
    requires Lists(list, q) && q.Stamped() && i <= |list| && t !in list
    requires forall k | 0 <= k < i :: q.keys[list[k]].when <= when
    requires i < |list| ==> when < q.keys[list[i]].when
    requires j < k <= |list|
    ensures var list', q' := list[..i] + [t] + list[i..], q.Insert(t, when);
            && list'[j] != list'[k]
            && list'[j] in q'.keys && list'[k] in q'.keys
            && q'.keys[list'[j]].Before(q'.keys[list'[k]])
  {
  }

  lemma InsertedMembers(list: seq<ToDo>, i: nat, t: ToDo)
    requires i <= |list|
    ensures forall u :: u in list[..i] + [t] + list[i..] <==> u in list || u == t
  {
    assert list == list[..i] + list[i..];
  }

  lemma InsertedStamped(q: Queue, t: ToDo, when: int)
    requires q.Stamped()
    ensures q.Insert(t, when).Stamped()
  {
  }

  lemma ListWith(list: seq<ToDo>, i: nat, t: ToDo, when: int, q: Queue)
    requires Lists(list, q) && q.Stamped() && i <= |list| && t !in list
    requires forall k | 0 <= k < i :: q.keys[list[k]].when <= when
    requires i < |list| ==> when < q.keys[list[i]].when
    ensures Lists(list[..i] + [t] + list[i..], q.Insert(t, when))
    ensures q.Insert(t, when).Stamped()
  {
    var list', q' := list[..i] + [t] + list[i..], q.Insert(t, when);
    InsertedMembers(list, i, t);
    InsertedStamped(q, t, when);
    forall j, k | 0 <= j < k < |list'|
      ensures list'[j] != list'[k] && q'.keys[list'[j]].Before(q'.keys[list'[k]])
    {
      Placed(list, i, t, when, q, j, k);
    }
  }

  // ----- the deque -----

  class ToDos {
    var list: seq<ToDo>
    ghost var queue: Queue

    ghost predicate Valid()
      reads this, list
    {
      && Lists(list, queue)
      && queue.Stamped()
      && (forall t | t in list :: t.when == queue.keys[t].when)
    }

    constructor ()
      ensures Valid() && list == [] && queue == Queue(map[], 0)
    {
      list := [];
      queue := Queue(map[], 0);
    }

    /** std::find_if with WhenBefore: the first task later than the given time. */
    method FindLater(when: int) returns (i: nat)
      requires Valid()
      ensures i <= |list|
      ensures forall k | 0 <= k < i :: list[k].when <= when
      ensures i < |list| ==> when < list[i].when
    {
      i := 0;
      while i < |list| && !(when < list[i].when)
        invariant i <= |list|
        invariant forall k | 0 <= k < i :: list[k].when <= when
      {
        i := i + 1;
      }
    }

    /** std::find_if with IsSame. */
    method FindSame(t: ToDo) returns (i: nat)
      ensures i <= |list|
      ensures i == |list| <==> t !in list
      ensures i < |list| ==> list[i] == t
    {
      i := 0;
      while i < |list| && list[i] != t
        invariant i <= |list|
        invariant t !in list[..i]
      {
        i := i + 1;
      }
      assert list == list[..i] + list[i..];
    }

    /** Take the least task off the list. */
    method PopFront() returns (t: ToDo)
      requires Valid() && list != []
      modifies this
      ensures Valid() && list == old(list)[1..]
      ensures t == old(list)[0] && old(queue).IsLeast(t) && queue == old(queue).Remove(t)
    {
      ListWithoutFront(list, queue);
      t := list[0];
      list := list[1..];
      queue := queue.Remove(t);
    }

    method Insert(t: ToDo)
      requires Valid() && t !in list
      modifies this
      ensures Valid() && queue == old(queue).Insert(t, t.when)
    {
      var i := FindLater(t.when);
      assert forall k | 0 <= k < |list| :: list[k] in list;
      ListWith(list, i, t, t.when, queue);
      list := list[..i] + [t] + list[i..];
      queue := queue.Insert(t, t.when);
    }

    method Remove(t: ToDo)
      requires Valid()
      modifies this
      ensures Valid() && queue == old(queue).Remove(t) && t !in list
      ensures forall u | u in list :: u in old(list)
    {
      var i := FindSame(t);
      if i != |list| {
        ListWithout(list, i, queue);
        list := list[..i] + list[i + 1..];
      } else {
        assert t !in queue.keys;
        assert queue.Remove(t).keys == queue.keys;
      }
      queue := queue.Remove(t);
      assert t !in queue.keys;
    }

    /** The write to the shared time happens while the task is off the list. */
    method Move(t: ToDo, when: int)
      requires Valid()
      modifies this, t
      ensures Valid() && queue == old(queue).Move(t, when) && t.when == when
      ensures forall u | u in list :: u == t || u in old(list)
    {
      Remove(t);
      t.when := when;
      Insert(t);
    }
  }

  /** Writing the time of a task that stays on the list would break the order: of two tasks at times 0 and 1,
      moving the first to 2 needs the other order. */
  lemma WriteInPlaceBreaksOrder(a: ToDo, b: ToDo)
    requires a != b
    ensures var q := Queue(map[], 0).Insert(a, 0).Insert(b, 1);
            Lists([a, b], q) && Lists([b, a], q.Move(a, 2)) && !Lists([a, b], q.Move(a, 2))
  {
    var q := Queue(map[], 0).Insert(a, 0).Insert(b, 1);
    assert [b, a][0] == b && [b, a][1] == a;
    assert q.Move(a, 2).keys[a] == Key(2, 2) && q.Move(a, 2).keys[b] == Key(1, 1);
    assert [a, b][0] == a && [a, b][1] == b;
  }
}
