/** Driver::StepTodos: running due tasks that may themselves cancel, shift or add tasks, under a deadline.

    A run of user code is given by the list edits it makes: a ToDo constructed with a time is a Shift of a task
    that is not on the list. The given tasks and clock readings are a finite prefix of what the program would meet;
    a result without a timeout says that the prefix ended before StepTodos returned. */
module Scheduler {
  import opened Wrappers
  import opened Deadlines
  import opened ToDoList

  datatype Edit = Cancel(todo: ToDo) | Shift(todo: ToDo, when: int)

  function EditOne(q: Queue, e: Edit): Queue
  {
    match e
    case Cancel(t) => q.Remove(t)
    case Shift(t, when) => q.Move(t, when)
  }

  function Edited(q: Queue, edits: seq<Edit>): (r: Queue)
    ensures q.Stamped() ==> r.Stamped()
    decreases |edits|
  {
    if edits == [] then q else Edited(EditOne(q, edits[0]), edits[1..])
  }

  /** The tasks run, the timeout returned (if the environment's prefix sufficed), the tasks then pending
      and the last clock reading. */
  datatype Outcome = Outcome(ran: seq<ToDo>, timeout: Option<int>, queue: Queue, now: int)

  /** The tasks pending after the least one has been run. */
  ghost function Left(q: Queue, tasks: seq<seq<Edit>>, k: nat): (r: Queue)
    requires q.Stamped() && q.keys != map[] && k < |tasks|
    ensures r.Stamped()
  {
    Edited(q.Remove(LeastOf(q)), tasks[k])
  }

  /** The least task is due, and after it has been run, tasks and time remain. */
  ghost predicate GoesOn(q: Queue, limit: Limit, now: int, tasks: seq<seq<Edit>>, clock: seq<int>, k: nat)
    requires q.Stamped() && q.keys != map[] && k <= |clock| == |tasks|
  {
    q.keys[LeastOf(q)].when <= now && k < |tasks| && Left(q, tasks, k).keys != map[] && TimeLeft(limit, clock[k])
  }

  /** The outcome of the last round. */
  ghost function Ended(q: Queue, limit: Limit, now: int, tasks: seq<seq<Edit>>, clock: seq<int>, k: nat): Outcome
    requires q.Stamped() && q.keys != map[] && k <= |clock| == |tasks|
  {
    var t := LeastOf(q);
    var until := q.keys[t].when - now;
    if until > 0 then
      Outcome([], Some(MinDuration(until, Remaining(limit, now))), q, now)
    else if k == |tasks| then
      Outcome([], None, q, now)
    else
      var q', now' := Left(q, tasks, k), clock[k];
      Outcome([t], Some(if q'.keys == map[] then Remaining(limit, now') else 0), q', now')
  }

  // ----- what user code does to the list -----

  /** No edit from i on touches the task. */
  predicate Untouched(edits: seq<Edit>, i: nat, t: ToDo)
  {
    forall j | i <= j < |edits| :: edits[j].todo != t
  }

  /** Tasks that are not edited keep their time and their place among the others. */
  lemma {:induction false} OthersKeepTheirPlace(q: Queue, edits: seq<Edit>, t: ToDo)
    requires Untouched(edits, 0, t)
    ensures var r := Edited(q, edits);
            && (t in r.keys <==> t in q.keys) && (t in q.keys ==> r.keys[t] == q.keys[t])
            && q.next <= r.next
    decreases |edits|
  {
    if edits == [] {
    } else {
      OthersKeepTheirPlace(EditOne(q, edits[0]), edits[1..], t);
    }
  }

  /** The last edit of a task takes effect: cancelled, it is not pending; shifted, it is pending for the new time,
      as if inserted after all that had been inserted before. */
  lemma {:induction false} LastEditTakesEffect(q: Queue, edits: seq<Edit>, i: nat)
    requires i < |edits| && Untouched(edits, i + 1, edits[i].todo)
    ensures var t, r := edits[i].todo, Edited(q, edits);
            && (edits[i].Cancel? ==> t !in r.keys)
            && (edits[i].Shift? ==>
                  t in r.keys && r.keys[t].when == edits[i].when && r.keys[t].stamp >= q.next)
    decreases |edits|
  {
    var q' := EditOne(q, edits[0]);
    if i == 0 {
      assert Untouched(edits[1..], 0, edits[i].todo);
      OthersKeepTheirPlace(q', edits[1..], edits[i].todo);
    } else {
      assert Untouched(edits[1..], i, edits[i].todo);
      LastEditTakesEffect(q', edits[1..], i - 1);
    }
  }

  /** So a shifted task comes after the others that are pending for its time. */
  lemma ShiftedComesLast(q: Queue, edits: seq<Edit>, i: nat, u: ToDo)
    requires q.Stamped() && i < |edits| && edits[i].Shift? && Untouched(edits, i + 1, edits[i].todo)
    requires u in q.keys && q.keys[u].when == edits[i].when && Untouched(edits, 0, u)
    ensures var r := Edited(q, edits);
            u in r.keys && edits[i].todo in r.keys && r.keys[u].Before(r.keys[edits[i].todo])
  {
    LastEditTakesEffect(q, edits, i);
    OthersKeepTheirPlace(q, edits, u);
  }

  /** The specification: take the least task of the priority queue if it is due, run it, and go on
      while tasks and time remain. */
  ghost function Scheduled(q: Queue, limit: Limit, now: int, tasks: seq<seq<Edit>>, clock: seq<int>, k: nat): Outcome
    requires q.Stamped() && q.keys != map[] && k <= |clock| == |tasks|
    decreases |tasks| - k
  {
    if GoesOn(q, limit, now, tasks, clock, k) then
      var rest := Scheduled(Left(q, tasks, k), limit, clock[k], tasks, clock, k + 1);
      rest.(ran := [LeastOf(q)] + rest.ran)
    else
      Ended(q, limit, now, tasks, clock, k)
  }

  ghost function LeastOf(q: Queue): (t: ToDo)
    requires q.Stamped() && q.keys != map[]
    ensures q.IsLeast(t)
  {
    LeastExists(q);
    var least :| least in q.keys && q.IsLeast(least);
    least
  }

  /** Apply one task's edits to the list. */
  method RunTask(todos: ToDos, edits: seq<Edit>, ghost universe: set<ToDo>)
    requires todos.Valid()
    requires forall e | e in edits :: e.todo in universe
    modifies todos, universe
    ensures todos.Valid() && todos.queue == Edited(old(todos.queue), edits)
    ensures todos.list == [] <==> todos.queue.keys == map[]
  {
    for i := 0 to |edits|
      invariant todos.Valid()
      invariant Edited(todos.queue, edits[i..]) == Edited(old(todos.queue), edits)
    {
      assert edits[i..][0] == edits[i] && edits[i..][1..] == edits[i + 1..];
      match edits[i]
      case Cancel(t) => todos.Remove(t);
      case Shift(t, when) => todos.Move(t, when);
    }
    EmptyTogether(todos.list, todos.queue);
  }

  /** Take the front task from the list, execute it and tick the deadline. */
  method RunFront(todos: ToDos, deadline: Deadline, edits: seq<Edit>, reading: int, ghost universe: set<ToDo>)
    returns (task: ToDo)
    requires todos.Valid() && todos.list != [] && todos.queue.keys != map[]
    requires forall e | e in edits :: e.todo in universe
    modifies todos, deadline, universe
    ensures todos.Valid() && (todos.list == [] <==> todos.queue.keys == map[])
    ensures task == LeastOf(old(todos.queue))
    ensures todos.queue == Edited(old(todos.queue).Remove(task), edits)
    ensures deadline.now == reading
  {
    ghost var q := todos.queue;
    task := todos.PopFront();
    LeastIsUnique(q, task);
    RunTask(todos, edits, universe);
    deadline.Tick(reading);
  }

  /** When the front task is due. */
  method Until(todos: ToDos, deadline: Deadline) returns (until: int)
    requires todos.Valid() && todos.list != []
    ensures todos.queue.keys != map[]
    ensures until == todos.queue.keys[LeastOf(todos.queue)].when - deadline.now
  {
    ListWithoutFront(todos.list, todos.queue);
    LeastIsUnique(todos.queue, todos.list[0]);
    assert todos.list[0] in todos.list;
    until := todos.list[0].when - deadline.now;
  }

  ghost function Prepend(ran: seq<ToDo>, o: Outcome): Outcome
  {
    o.(ran := ran + o.ran)
  }

  /** The specification, as the loop meets it after some rounds. */
  lemma LastRound(q: Queue, limit: Limit, now: int, tasks: seq<seq<Edit>>, clock: seq<int>, ran: seq<ToDo>)
    requires q.Stamped() && q.keys != map[] && |ran| <= |clock| == |tasks|
    requires !GoesOn(q, limit, now, tasks, clock, |ran|)
    ensures Prepend(ran, Scheduled(q, limit, now, tasks, clock, |ran|))
            == Prepend(ran, Ended(q, limit, now, tasks, clock, |ran|))
  {
  }

  lemma NextRound(q: Queue, limit: Limit, now: int, tasks: seq<seq<Edit>>, clock: seq<int>, ran: seq<ToDo>)
    requires q.Stamped() && q.keys != map[] && |ran| <= |clock| == |tasks|
    requires GoesOn(q, limit, now, tasks, clock, |ran|)
    ensures var k := |ran|;
            Prepend(ran, Scheduled(q, limit, now, tasks, clock, k))
            == Prepend(ran + [LeastOf(q)], Scheduled(Left(q, tasks, k), limit, clock[k], tasks, clock, k + 1))
  {
    var k := |ran|;
    var rest := Scheduled(Left(q, tasks, k), limit, clock[k], tasks, clock, k + 1);
    assert ran + ([LeastOf(q)] + rest.ran) == (ran + [LeastOf(q)]) + rest.ran;
  }

  method StepTodos(todos: ToDos, deadline: Deadline, tasks: seq<seq<Edit>>, clock: seq<int>, ghost universe: set<ToDo>)
    returns (timeout: Option<int>, ran: seq<ToDo>)
    requires todos.Valid() && todos.list != []
    requires |clock| == |tasks|
    requires forall k | 0 <= k < |tasks| :: forall e | e in tasks[k] :: e.todo in universe
    modifies todos, deadline, universe
    ensures todos.Valid()
    ensures old(todos.queue).keys != map[]
    ensures Outcome(ran, timeout, todos.queue, deadline.now)
            == Scheduled(old(todos.queue), deadline.limit, old(deadline.now), tasks, clock, 0)
  {
    EmptyTogether(todos.list, todos.queue);
    ran := [];
    ghost var all := Scheduled(todos.queue, deadline.limit, deadline.now, tasks, clock, 0);
    while true
      invariant todos.Valid() && todos.list != [] && todos.queue.keys != map[]
      invariant |ran| <= |tasks|
      invariant all == Prepend(ran, Scheduled(todos.queue, deadline.limit, deadline.now, tasks, clock, |ran|))
      decreases |tasks| - |ran|
    {
      var until := Until(todos, deadline);
      ghost var q, now, k := todos.queue, deadline.now, |ran|;
      if GoesOn(q, deadline.limit, now, tasks, clock, k) {
        NextRound(q, deadline.limit, now, tasks, clock, ran);
      } else {
        LastRound(q, deadline.limit, now, tasks, clock, ran);
      }
      if until > 0 {
        return Some(MinDuration(until, Remaining(deadline.limit, deadline.now))), ran;
      }
      if |ran| == |tasks| {
        return None, ran; // end of the environment's prefix
      }

      var task := RunFront(todos, deadline, tasks[|ran|], clock[|ran|], universe);
      assert todos.queue == Left(q, tasks, k);

      ran := ran + [task];
      if todos.list == [] {
        return Some(Remaining(deadline.limit, deadline.now)), ran;
      }
      if !TimeLeft(deadline.limit, deadline.now) {
        return Some(0), ran;
      }
    }
  }

  lemma LeastIsUnique(q: Queue, t: ToDo)
    requires q.Stamped() && q.IsLeast(t)
    ensures q.keys != map[] && LeastOf(q) == t
  {
  }

  // ----- what the specification promises -----

  /** The pending tasks after the first j of the tasks run, from round k on. */
  function QueueAt(q: Queue, ran: seq<ToDo>, tasks: seq<seq<Edit>>, k: nat, j: nat): Queue
    requires j <= |ran| && k + |ran| <= |tasks|
  {
    if j == 0 then q else Edited(QueueAt(q, ran, tasks, k, j - 1).Remove(ran[j - 1]), tasks[k + j - 1])
  }

  /** The last clock reading then. */
  function NowAt(now: int, clock: seq<int>, k: nat, j: nat): int
    requires k + j <= |clock|
  {
    if j == 0 then now else clock[k + j - 1]
  }

  lemma {:induction false} QueueAtShift(q: Queue, ran: seq<ToDo>, tasks: seq<seq<Edit>>, k: nat, j: nat)
    requires 0 < j <= |ran| && k + |ran| <= |tasks|
    ensures QueueAt(q, ran, tasks, k, j)
            == QueueAt(Edited(q.Remove(ran[0]), tasks[k]), ran[1..], tasks, k + 1, j - 1)
  {
    if j > 1 {
      QueueAtShift(q, ran, tasks, k, j - 1);
    }
  }

  /** The task is the pending one with the least (time, insertion order), it is due at the last ticked time,
      and unless it is the first of a step, time remains. */
  ghost predicate RightTask(pending: Queue, t: ToDo, limit: Limit, now: int, first: bool)
  {
    && pending.IsLeast(t)
    && pending.keys[t].when <= now
    && (first || TimeLeft(limit, now))
  }

  /** Round j of the run took the right task. */
  ghost predicate RightAt(q: Queue, limit: Limit, now: int, tasks: seq<seq<Edit>>, clock: seq<int>, k: nat,
      ran: seq<ToDo>, j: nat)
    requires j < |ran| && k + |ran| <= |tasks| == |clock|
  {
    RightTask(QueueAt(q, ran, tasks, k, j), ran[j], limit, NowAt(now, clock, k, j), j == 0)
  }

  /** Each task run is the right one at that moment; it is off the list before it runs. */
  ghost predicate RanInOrder(q: Queue, limit: Limit, now: int, tasks: seq<seq<Edit>>, clock: seq<int>, k: nat,
      o: Outcome)
  {
    && k + |o.ran| <= |tasks| == |clock|
    && (forall j | 0 <= j < |o.ran| :: RightAt(q, limit, now, tasks, clock, k, o.ran, j))
    && o.queue == QueueAt(q, o.ran, tasks, k, |o.ran|)
    && o.now == NowAt(now, clock, k, |o.ran|)
  }

  /** A round put in front of a run shifts what the run met by one. */
  lemma OrderAt(q: Queue, limit: Limit, now: int, tasks: seq<seq<Edit>>, clock: seq<int>, k: nat, ran: seq<ToDo>,
      rest: Outcome, j: nat)
    requires ran != [] && rest.ran == ran[1..] && k < |tasks| == |clock|
    requires rest.ran != [] ==> TimeLeft(limit, clock[k])
    requires RanInOrder(Edited(q.Remove(ran[0]), tasks[k]), limit, clock[k], tasks, clock, k + 1, rest)
    requires 0 < j < |ran|
    ensures RightAt(q, limit, now, tasks, clock, k, ran, j)
  {
    QueueAtShift(q, ran, tasks, k, j);
    var q' := Edited(q.Remove(ran[0]), tasks[k]);
    assert rest.ran[j - 1] == ran[j];
    assert RightAt(q', limit, clock[k], tasks, clock, k + 1, rest.ran, j - 1);
  }

  lemma OrderEnd(q: Queue, limit: Limit, now: int, tasks: seq<seq<Edit>>, clock: seq<int>, k: nat, ran: seq<ToDo>,
      rest: Outcome)
    requires ran != [] && rest.ran == ran[1..] && k < |tasks| == |clock|
    requires RanInOrder(Edited(q.Remove(ran[0]), tasks[k]), limit, clock[k], tasks, clock, k + 1, rest)
    ensures rest.queue == QueueAt(q, ran, tasks, k, |ran|) && rest.now == NowAt(now, clock, k, |ran|)
  {
    var j := |ran|;
    assert |rest.ran| == j - 1;
    QueueAtShift(q, ran, tasks, k, j);
  }

  lemma OrderCons(q: Queue, limit: Limit, now: int, tasks: seq<seq<Edit>>, clock: seq<int>, k: nat, t: ToDo,
      rest: Outcome, o: Outcome)
    requires k < |tasks| == |clock| && RightTask(q, t, limit, now, true)
    requires rest.ran != [] ==> TimeLeft(limit, clock[k])
    requires RanInOrder(Edited(q.Remove(t), tasks[k]), limit, clock[k], tasks, clock, k + 1, rest)
    requires o == rest.(ran := [t] + rest.ran)
    ensures RanInOrder(q, limit, now, tasks, clock, k, o)
  {
    forall j | 0 < j < |o.ran|
      ensures RightAt(q, limit, now, tasks, clock, k, o.ran, j)
    {
      OrderAt(q, limit, now, tasks, clock, k, o.ran, rest, j);
    }
    OrderEnd(q, limit, now, tasks, clock, k, o.ran, rest);
  }

  lemma OrderEnded(q: Queue, limit: Limit, now: int, tasks: seq<seq<Edit>>, clock: seq<int>, k: nat)
    requires q.Stamped() && q.keys != map[] && k <= |clock| == |tasks|
    ensures RanInOrder(q, limit, now, tasks, clock, k, Ended(q, limit, now, tasks, clock, k))
  {
    var o := Ended(q, limit, now, tasks, clock, k);
    if o.ran != [] {
      OrderCons(q, limit, now, tasks, clock, k, LeastOf(q), o.(ran := []), o);
    }
  }

  /** The specification runs the right task every time. */
  lemma {:induction false} StablePriorityOrder(q: Queue, limit: Limit, now: int, tasks: seq<seq<Edit>>,
      clock: seq<int>, k: nat)
    requires q.Stamped() && q.keys != map[] && k <= |clock| == |tasks|
    ensures RanInOrder(q, limit, now, tasks, clock, k, Scheduled(q, limit, now, tasks, clock, k))
    decreases |tasks| - k
  {
    if GoesOn(q, limit, now, tasks, clock, k) {
      var q', o := Left(q, tasks, k), Scheduled(q, limit, now, tasks, clock, k);
      StablePriorityOrder(q', limit, clock[k], tasks, clock, k + 1);
      var rest := Scheduled(q', limit, clock[k], tasks, clock, k + 1);
      OrderCons(q, limit, now, tasks, clock, k, LeastOf(q), rest, o);
    } else {
      OrderEnded(q, limit, now, tasks, clock, k);
    }
  }

  /** A zero timeout runs at most one task. */
  lemma ZeroRunsAtMostOne(q: Queue, now: int, tasks: seq<seq<Edit>>, clock: seq<int>)
    requires q.Stamped() && q.keys != map[] && |clock| == |tasks|
    ensures |Scheduled(q, Zero, now, tasks, clock, 0).ran| <= 1
  {
  }

  ghost predicate Shifts(edits: seq<Edit>, t: ToDo)
  {
    exists e | e in edits :: e.Shift? && e.todo == t
  }

  lemma {:induction false} PendingNeedsShift(q: Queue, edits: seq<Edit>, t: ToDo)
    requires t !in q.keys && t in Edited(q, edits).keys
    ensures Shifts(edits, t)
    decreases |edits|
  {
    if t in EditOne(q, edits[0]).keys {
      assert edits[0] in edits;
    } else {
      PendingNeedsShift(EditOne(q, edits[0]), edits[1..], t);
    }
  }

  /** A task that has run is pending again only if a task that ran since, possibly itself, shifted it. */
  lemma {:induction false} RunsAgainOnlyIfShifted(q: Queue, ran: seq<ToDo>, tasks: seq<seq<Edit>>, j: nat, n: nat)
    requires j < n <= |ran| <= |tasks|
    requires ran[j] in QueueAt(q, ran, tasks, 0, n).keys
    ensures exists m :: j <= m < n && Shifts(tasks[m], ran[j])
    decreases n
  {
    var before := QueueAt(q, ran, tasks, 0, n - 1).Remove(ran[n - 1]);
    if ran[j] !in before.keys {
      PendingNeedsShift(before, tasks[n - 1], ran[j]);
    } else {
      RunsAgainOnlyIfShifted(q, ran, tasks, j, n - 1);
    }
  }

  /** The timeout for the sockets neither oversleeps a pending task nor the caller's deadline, and is unlimited
      only if the caller's is and nothing is pending. */
  ghost predicate NoOversleep(timeout: int, pending: Queue, limit: Limit, now: int)
  {
    && (forall t | t in pending.keys :: timeout > 0 ==> now + timeout * NS_PER_MS <= pending.keys[t].when)
    && (limit.Until? && timeout > 0 ==> now + timeout * NS_PER_MS <= limit.deadline)
    && (limit.Zero? ==> timeout == 0)
    && (timeout < 0 <==> limit.Unlimited? && pending.keys == map[])
  }

  lemma EndedDoesNotOversleep(q: Queue, limit: Limit, now: int, tasks: seq<seq<Edit>>, clock: seq<int>, k: nat)
    requires q.Stamped() && q.keys != map[] && k <= |clock| == |tasks| && !GoesOn(q, limit, now, tasks, clock, k)
    ensures var o := Ended(q, limit, now, tasks, clock, k);
            o.timeout.Some? ==> NoOversleep(o.timeout.value, o.queue, limit, o.now)
  {
    var until := q.keys[LeastOf(q)].when - now;
    if until > 0 {
      MinDurationIsEarliest(until, limit, now);
    } else if k < |tasks| && limit.Until? {
      RemainingWithinDeadline(limit.deadline, clock[k]);
    }
  }

  lemma {:induction false} TimeoutDoesNotOversleep(q: Queue, limit: Limit, now: int, tasks: seq<seq<Edit>>,
      clock: seq<int>, k: nat)
    requires q.Stamped() && q.keys != map[] && k <= |clock| == |tasks|
    ensures var o := Scheduled(q, limit, now, tasks, clock, k);
            o.timeout.Some? ==> NoOversleep(o.timeout.value, o.queue, limit, o.now)
    decreases |tasks| - k
  {
    if GoesOn(q, limit, now, tasks, clock, k) {
      TimeoutDoesNotOversleep(Left(q, tasks, k), limit, clock[k], tasks, clock, k + 1);
    } else {
      EndedDoesNotOversleep(q, limit, now, tasks, clock, k);
    }
  }

  /** No longer timeout, in whole milliseconds, would do. */
  ghost predicate Longest(timeout: int, pending: Queue, limit: Limit, now: int)
  {
    forall w: int ::
      && w > 0 && !limit.Zero?
      && (forall t | t in pending.keys :: now + w * NS_PER_MS <= pending.keys[t].when)
      && (limit.Until? ==> now + w * NS_PER_MS <= limit.deadline)
      ==> timeout < 0 || w <= timeout
  }

  lemma EndedIsLongest(q: Queue, limit: Limit, now: int, tasks: seq<seq<Edit>>, clock: seq<int>, k: nat)
    requires q.Stamped() && q.keys != map[] && k <= |clock| == |tasks| && !GoesOn(q, limit, now, tasks, clock, k)
    ensures var o := Ended(q, limit, now, tasks, clock, k);
            o.timeout.Some? ==> Longest(o.timeout.value, o.queue, limit, o.now)
  {
    var o := Ended(q, limit, now, tasks, clock, k);
    var t := LeastOf(q);
    if q.keys[t].when > now {
      MinDurationIsEarliest(q.keys[t].when - now, limit, now);
    }
    if limit.Until? {
      RemainingWithinDeadline(limit.deadline, o.now);
    }
  }

  /** The timeout is as long as the pending tasks and the caller allow, so that the driver does not wake up for
      nothing. */
  lemma {:induction false} TimeoutIsLongest(q: Queue, limit: Limit, now: int, tasks: seq<seq<Edit>>,
      clock: seq<int>, k: nat)
    requires q.Stamped() && q.keys != map[] && k <= |clock| == |tasks|
    ensures var o := Scheduled(q, limit, now, tasks, clock, k);
            o.timeout.Some? ==> Longest(o.timeout.value, o.queue, limit, o.now)
    decreases |tasks| - k
  {
    if GoesOn(q, limit, now, tasks, clock, k) {
      TimeoutIsLongest(Left(q, tasks, k), limit, clock[k], tasks, clock, k + 1);
    } else {
      EndedIsLongest(q, limit, now, tasks, clock, k);
    }
  }

  /** Tasks are run until none is pending, the next one is not due, or the caller's time is up; with a zero timeout,
      until one has been run. */
  ghost predicate Done(o: Outcome, limit: Limit)
  {
    || o.queue.keys == map[]
    || (forall t | t in o.queue.keys :: o.queue.keys[t].when > o.now)
    || (limit.Until? && o.ran != [] && o.now >= limit.deadline)
    || (limit.Zero? && |o.ran| == 1)
  }

  lemma EndedIsDone(q: Queue, limit: Limit, now: int, tasks: seq<seq<Edit>>, clock: seq<int>, k: nat)
    requires q.Stamped() && q.keys != map[] && k <= |clock| == |tasks| && !GoesOn(q, limit, now, tasks, clock, k)
    ensures var o := Ended(q, limit, now, tasks, clock, k);
            o.timeout.Some? ==> Done(o, limit)
  {
    var t := LeastOf(q);
    assert forall u | u in q.keys && u != t :: q.keys[t].Before(q.keys[u]);
  }

  /** No due task is left behind while time remains. */
  lemma {:induction false} StopsOnlyIfDone(q: Queue, limit: Limit, now: int, tasks: seq<seq<Edit>>,
      clock: seq<int>, k: nat)
    requires q.Stamped() && q.keys != map[] && k <= |clock| == |tasks|
    ensures var o := Scheduled(q, limit, now, tasks, clock, k);
            o.timeout.Some? ==> Done(o, limit)
    decreases |tasks| - k
  {
    if GoesOn(q, limit, now, tasks, clock, k) {
      StopsOnlyIfDone(Left(q, tasks, k), limit, clock[k], tasks, clock, k + 1);
    } else {
      EndedIsDone(q, limit, now, tasks, clock, k);
    }
  }

  /** The due tasks have been run, and no others, in the order of their times and, at equal times, of
      their insertion. */
  ghost predicate Drained(q: Queue, now: int, o: Outcome)
  {
    && (forall i | 0 <= i < |o.ran| :: o.ran[i] in q.keys && q.keys[o.ran[i]].when <= now)
    && (forall i, j | 0 <= i < j < |o.ran| :: q.keys[o.ran[i]].Before(q.keys[o.ran[j]]))
    && (o.timeout.Some? ==> forall t | t in q.keys && q.keys[t].when <= now :: t in o.ran)
  }

  lemma DrainEnded(q: Queue, now: int, tasks: seq<seq<Edit>>, clock: seq<int>, k: nat)
    requires q.Stamped() && q.keys != map[] && k <= |clock| == |tasks| && !GoesOn(q, Unlimited, now, tasks, clock, k)
    requires k < |tasks| ==> tasks[k] == []
    ensures Drained(q, now, Ended(q, Unlimited, now, tasks, clock, k))
  {
    var t, o := LeastOf(q), Ended(q, Unlimited, now, tasks, clock, k);
    if o.ran == [] {
      assert forall u | u in q.keys && u != t :: q.keys[t].Before(q.keys[u]);
    } else {
      assert Left(q, tasks, k) == q.Remove(t);
      DrainCons(q, now, t, o.(ran := []), o);
    }
  }

  /** Tasks that leave the list alone are drained as far as they are due. */
  lemma {:induction false} DueTasksDrainInOrder(q: Queue, now: int, tasks: seq<seq<Edit>>, clock: seq<int>, k: nat)
    requires q.Stamped() && q.keys != map[] && k <= |clock| == |tasks|
    requires forall i | 0 <= i < |tasks| :: tasks[i] == [] && clock[i] == now
    ensures Drained(q, now, Scheduled(q, Unlimited, now, tasks, clock, k))
    decreases |tasks| - k
  {
    if GoesOn(q, Unlimited, now, tasks, clock, k) {
      var q', o := q.Remove(LeastOf(q)), Scheduled(q, Unlimited, now, tasks, clock, k);
      assert Left(q, tasks, k) == q';
      DueTasksDrainInOrder(q', now, tasks, clock, k + 1);
      DrainCons(q, now, LeastOf(q), Scheduled(q', Unlimited, now, tasks, clock, k + 1), o);
    } else {
      DrainEnded(q, now, tasks, clock, k);
    }
  }

  lemma DrainCons(q: Queue, now: int, t: ToDo, rest: Outcome, o: Outcome)
    requires q.IsLeast(t) && q.keys[t].when <= now
    requires Drained(q.Remove(t), now, rest)
    requires o.ran == [t] + rest.ran && o.timeout == rest.timeout
    ensures Drained(q, now, o)
  {
  }

  /** Driver::Step up to poll: the timeout that StepSockets is entered with. */
  method Step(todos: ToDos, timeout: int, reading: int, tasks: seq<seq<Edit>>, clock: seq<int>,
      ghost universe: set<ToDo>)
    returns (remaining: Option<int>, ghost now: int)
    requires todos.Valid() && |clock| == |tasks|
    requires forall k | 0 <= k < |tasks| :: forall e | e in tasks[k] :: e.todo in universe
    modifies todos, universe
    ensures todos.Valid()
    ensures remaining.Some? ==>
              && NoOversleep(remaining.value, todos.queue, LimitFor(timeout, reading), now)
              && Longest(remaining.value, todos.queue, LimitFor(timeout, reading), now)
    ensures old(todos.list) == [] ==> remaining == Some(timeout) && todos.queue == old(todos.queue)
    ensures old(todos.list) != [] ==>
              && old(todos.queue).keys != map[]
              && exists ran :: Outcome(ran, remaining, todos.queue, now)
                               == Scheduled(old(todos.queue), LimitFor(timeout, reading), reading, tasks, clock, 0)
  {
    now := reading;
    EmptyTogether(todos.list, todos.queue);
    if todos.list == [] {
      remaining := Some(timeout);
    } else {
      TimeoutIsLongest(todos.queue, LimitFor(timeout, reading), reading, tasks, clock, 0);
      TimeoutDoesNotOversleep(todos.queue, LimitFor(timeout, reading), reading, tasks, clock, 0);
      var deadline := new Deadline(timeout, reading);
      var ran;
      remaining, ran := StepTodos(todos, deadline, tasks, clock, universe);
      now := deadline.now;
    }
  }

  /** With tasks pending, poll itself does not sleep past any of them exactly when the timeout survives the
      conversion to a 32-bit number of milliseconds. */
  lemma PollDoesNotOversleepIff(timeout: int, pending: Queue, limit: Limit, now: int)
    requires NoOversleep(timeout, pending, limit, now) && pending.keys != map[]
    ensures (forall ms, t | t in pending.keys && ms > 0 && MaySleep(ToMsec(timeout), ms) ::
               now + ms * NS_PER_MS <= pending.keys[t].when)
            <==> timeout % TWO32 < TWO31
  {
    HonouredIff(timeout);
    var t :| t in pending.keys;
    if timeout % TWO32 < TWO31 {
      forall ms, t | t in pending.keys && ms > 0 && MaySleep(ToMsec(timeout), ms)
        ensures now + ms * NS_PER_MS <= pending.keys[t].when
      {
        assert ms <= timeout;
      }
    } else {
      var ms := 1 + if pending.keys[t].when > now then pending.keys[t].when - now else 0;
      assert MaySleep(ToMsec(timeout), ms);
    }
  }
}
