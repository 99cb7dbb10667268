/** Mutual exclusion, the pause handshake and freedom from deadlock. */
module ProtocolLocks {
  import opened Wrappers
  import opened WriteInterest
  import opened DriverProtocol

  predicate HasStep(c: Client) { c.LeavePause? || c.InOp? || c.Leaving? }

  predicate HasPause(c: Client) { c.Bumping? || c.WantStep? || c.LeavePause? }

  /** Levels of the recursive step mutex that the control state of a thread accounts for. */
  function Levels(s: State, a: Actor): nat
  {
    (if a.Stepper? && InStep(s.phase) then 1 else 0) + (if HasStep(Cl(s, a)) then 1 else 0)
  }

  predicate Pausing(s: State, a: Actor)
  {
    (a.Stepper? && s.phase.Yielded?) || HasPause(Cl(s, a))
  }

  /** The mutexes are held by exactly the threads whose control state says so, to the right depth. */
  ghost predicate Balanced(s: State)
  {
    && (s.mutex.owner.None? <==> s.mutex.depth == 0)
    && (forall a: Actor :: Accounted(s, a))
  }

  predicate Accounted(s: State, a: Actor)
  {
    && Levels(s, a) == (if s.mutex.owner == Some(a) then s.mutex.depth else 0)
    && (Pausing(s, a) <==> s.mutex.pause == Some(a))
  }

  /** Where the stepper thread may be inside a client call of its own: outside Step like any other thread;
      inside Step only from user code, and never in the slow path of PauseGuard. */
  predicate Nested(s: State)
  {
    var c := Cl(s, Stepper);
    && (!c.Quiet? ==> s.phase.Outside? || s.phase.Tasks? || s.phase.Calling? || s.phase.Dropping? || s.phase.Dropped?)
    && (!s.phase.Outside? ==> c.Quiet? || c.TryStep? || c.InOp? || c.Leaving? || c.Stopping?)
  }

  /** A pauser that has bumped and waits for the step mutex finds a readable pipe,
      or the stepper has already reacted and is on its way to the pause mutex, which the pauser holds. */
  predicate Handshake(s: State, a: Actor)
  {
    Cl(s, a).WantStep? ==> s.pipe > 0 || s.phase.Release? || s.phase.Yield?
  }

  /** The socket the driver is working on is registered. */
  predicate Focused(s: State)
  {
    s.phase.Ready? || s.phase.Clearing? ==> s.phase.sock in s.socks
  }

  ghost predicate LockInv(s: State)
  {
    && Balanced(s)
    && Nested(s)
    && Focused(s)
    && (forall a: Actor :: Handshake(s, a))
    && (s.phase.Draining? ==> s.pipe > 0)
  }

  lemma LockInvInit(s: State)
    requires Init(s)
    ensures LockInv(s)
  {
  }

  lemma StepLevels(s: State, m: Move)
    requires CanDrive(s, m)
    ensures InStep(PhaseAfter(s, m)) == ((InStep(s.phase) || m.EnterStep?) && !m.LeaveStep?)
    ensures m.EnterStep? ==> !InStep(s.phase)
    ensures m.LeaveStep? ==> InStep(s.phase)
    ensures PhaseAfter(s, m).Yielded? == m.TakePause?
    ensures s.phase.Yielded? == m.GivePause?
  {
  }

  lemma ClientLevels(s: State, w: Actor, r: Request)
    requires CanDo(s, w, r)
    ensures HasStep(Next(s, w, r)) == ((HasStep(Cl(s, w)) || r.TryLock? || r.LockStep?) && !r.Unlock?)
    ensures r.TryLock? || r.LockStep? ==> !HasStep(Cl(s, w))
    ensures r.Unlock? ==> HasStep(Cl(s, w))
    ensures HasPause(Next(s, w, r)) == ((HasPause(Cl(s, w)) || r.LockPause?) && !r.UnlockPause?)
    ensures r.LockPause? ==> !HasPause(Cl(s, w))
    ensures r.UnlockPause? ==> HasPause(Cl(s, w))
  {
  }

  lemma ClientsMoved(s: State, a: Action, b: Actor)
    requires Enabled(s, a)
    ensures a.Do? ==> Cl(Apply(s, a), b) == if b == a.who then Next(s, a.who, a.request) else Cl(s, b)
    ensures a.Drive? ==> Cl(Apply(s, a), b) ==
                         if b == Stepper && PhaseAfter(s, a.move).Dropping? then
                           TryStep(Unregister(PhaseAfter(s, a.move).sock))
                         else Cl(s, b)
  {
  }

  lemma DriveAccounted(s: State, m: Move, b: Actor)
    requires LockInv(s) && Enabled(s, Drive(m))
    ensures Accounted(Apply(s, Drive(m)), b)
    ensures Apply(s, Drive(m)).mutex.owner.None? <==> Apply(s, Drive(m)).mutex.depth == 0
  {
    StepLevels(s, m);
    ClientsMoved(s, Drive(m), b);
    assert Accounted(s, Stepper) && Accounted(s, b);
  }

  lemma DoAccounted(s: State, w: Actor, r: Request, b: Actor)
    requires LockInv(s) && Enabled(s, Do(w, r))
    ensures Accounted(Apply(s, Do(w, r)), b)
    ensures Apply(s, Do(w, r)).mutex.owner.None? <==> Apply(s, Do(w, r)).mutex.depth == 0
  {
    ClientLevels(s, w, r);
    ClientsMoved(s, Do(w, r), b);
    assert Accounted(s, w) && Accounted(s, b);
  }

  lemma BalancedStep(s: State, a: Action)
    requires LockInv(s) && Enabled(s, a)
    ensures Balanced(Apply(s, a))
  {
    forall b: Actor
      ensures Accounted(Apply(s, a), b)
      ensures Apply(s, a).mutex.owner.None? <==> Apply(s, a).mutex.depth == 0
    {
      match a
      case Drive(m) => DriveAccounted(s, m, b);
      case Do(w, r) => DoAccounted(s, w, r, b);
    }
    assert Accounted(Apply(s, a), Stepper);
  }

  lemma NestedStep(s: State, a: Action)
    requires LockInv(s) && Enabled(s, a)
    ensures Nested(Apply(s, a))
  {
    ClientsMoved(s, a, Stepper);
    assert Accounted(s, Stepper);
  }

  lemma HandshakeStep(s: State, a: Action, b: Actor)
    requires LockInv(s) && Enabled(s, a)
    ensures Handshake(Apply(s, a), b)
  {
    ClientsMoved(s, a, b);
    assert Handshake(s, b);
    assert Accounted(s, b);
    assert Accounted(s, if a.Do? then a.who else Stepper);
  }

  lemma FocusedStep(s: State, a: Action)
    requires LockInv(s) && Enabled(s, a)
    ensures Focused(Apply(s, a))
  {
    assert Accounted(s, Stepper);
    if a.Do? {
      assert Accounted(s, a.who);
    }
  }

  lemma LockInvStep(s: State, a: Action)
    requires LockInv(s) && Enabled(s, a)
    ensures LockInv(Apply(s, a))
  {
    BalancedStep(s, a);
    NestedStep(s, a);
    FocusedStep(s, a);
    forall b: Actor ensures Handshake(Apply(s, a), b) { HandshakeStep(s, a, b); }
    assert Apply(s, a).phase.Draining? ==> Apply(s, a).pipe > 0;
  }

  /** The invariant holds in every reachable state. */
  lemma {:induction false} LockInvRun(s: State, acts: seq<Action>)
    requires LockInv(s) && Runs(s, acts)
    ensures LockInv(After(s, acts))
    decreases |acts|
  {
    if acts == [] {
    } else {
      LockInvStep(s, acts[0]);
      LockInvRun(Apply(s, acts[0]), acts[1..]);
    }
  }

  // ----- mutual exclusion -----

  function ActorOf(a: Action): Actor
  {
    if a.Do? then a.who else Stepper
  }

  /** The POLLOUT bits of the registered sockets, as pollfds holds them. */
  function Interests(s: State): map<nat, bool>
  {
    map x | x in s.socks :: s.socks[x].out
  }

  /** The actions that change what the step mutex guards. */
  predicate Edits(a: Action)
  {
    match a
    case Drive(m) => m.RunTask? || m.QuerySockets? || m.ClearBit?
    case Do(_, r) => r.DoOp?
  }

  lemma OthersDoNotEdit(s: State, a: Action)
    requires Enabled(s, a) && !Edits(a)
    ensures Interests(Apply(s, a)) == Interests(s) && Apply(s, a).todos == s.todos
  {
  }

  lemma EditorsOwn(s: State, a: Action)
    requires LockInv(s) && Enabled(s, a) && Edits(a)
    ensures s.mutex.owner == Some(ActorOf(a)) && s.mutex.depth > 0 && !s.phase.Polling?
  {
    assert Accounted(s, Stepper) && Accounted(s, ActorOf(a));
  }

  /** Only the owner of the step mutex changes the tables; in particular nothing that poll was entered with
      (interests, and the ToDo list its timeout was computed from) changes while the stepper polls. */
  lemma TablesGuarded(s: State, a: Action)
    requires LockInv(s) && Enabled(s, a)
    ensures Interests(Apply(s, a)) != Interests(s) || Apply(s, a).todos != s.todos
            ==> s.mutex.owner == Some(ActorOf(a)) && s.mutex.depth > 0 && !s.phase.Polling?
  {
    if Edits(a) {
      EditorsOwn(s, a);
    } else {
      OthersDoNotEdit(s, a);
    }
  }

  /** The list of tasks changes with the tasks that run and with calls to edit it, and not otherwise. */
  lemma TodosChangeIff(s: State, a: Action)
    requires Enabled(s, a)
    ensures Apply(s, a).todos != s.todos <==>
            a == Drive(RunTask) || (a.Do? && a.request.DoOp? && Cl(s, a.who).op.EditToDos?)
  {
  }

  /** The stepper never waits for the pause mutex, nor holds it, while it holds the step mutex. */
  lemma YieldsWithoutStepMutex(s: State)
    requires LockInv(s)
    ensures s.phase.Yield? || s.phase.Yielded? ==> s.mutex.owner != Some(Stepper)
  {
    assert Accounted(s, Stepper);
  }

  // ----- bounded bypass -----

  /** How often the stepper takes the step mutex. */
  function Entries(acts: seq<Action>): nat
  {
    if acts == [] then 0 else (if acts[0] == Drive(EnterStep) then 1 else 0) + Entries(acts[1..])
  }

  lemma WaiterKept(s: State, p: Actor, a: Action)
    requires LockInv(s) && Cl(s, p).WantStep? && Enabled(s, a) && (a.Do? ==> a.who != p)
    ensures Cl(Apply(s, a), p) == Cl(s, p)
  {
  }

  /** The stepper is past the pause mutex: it can take the step mutex next. */
  predicate Before(p: Phase)
  {
    p.Outside? || p.Test? || p.Enter?
  }

  lemma {:induction false} EntriesWhileWaiting(s: State, p: Actor, acts: seq<Action>)
    requires LockInv(s) && Cl(s, p).WantStep? && Runs(s, acts)
    requires forall i | 0 <= i < |acts| :: acts[i].Do? ==> acts[i].who != p
    ensures Entries(acts) <= if Before(s.phase) then 1 else 0
    decreases |acts|
  {
    if acts == [] {
    } else {
      WaiterKept(s, p, acts[0]);
      LockInvStep(s, acts[0]);
      assert Accounted(s, p) && Accounted(s, Stepper);
      EntriesWhileWaiting(Apply(s, acts[0]), p, acts[1..]);
    }
  }

  /** The stepper's moves from locking the step mutex to unlocking it, other than the tasks it runs. */
  function StepMove(a: Action): nat
  {
    if a.Drive? && !(a.move.RunTask? || a.move.BeginStep? || a.move.BeginRun? || a.move.TestFlag?) then 1 else 0
  }

  function StepMoves(acts: seq<Action>): nat
  {
    if acts == [] then 0 else StepMove(acts[0]) + StepMoves(acts[1..])
  }

  /** The moves that the stepper has at most before it waits for the pause mutex. */
  function Budget(p: Phase): nat
  {
    if Before(p) then 10 else PhaseRank(p)
  }

  lemma BudgetStep(s: State, p: Actor, a: Action)
    requires LockInv(s) && Cl(s, p).WantStep? && Enabled(s, a)
    ensures StepMove(a) + Budget(Apply(s, a).phase) <= Budget(s.phase)
  {
    assert Accounted(s, p) && Accounted(s, Stepper);
  }

  /** However the threads are scheduled, a pauser waits for no more than ten moves of the stepper, besides the
      tasks that it runs. */
  lemma {:induction false} StepMovesWhileWaiting(s: State, p: Actor, acts: seq<Action>)
    requires LockInv(s) && Cl(s, p).WantStep? && Runs(s, acts)
    requires forall i | 0 <= i < |acts| :: acts[i].Do? ==> acts[i].who != p
    ensures StepMoves(acts) <= Budget(s.phase) <= 10
    decreases |acts|
  {
    if acts == [] {
    } else {
      WaiterKept(s, p, acts[0]);
      LockInvStep(s, acts[0]);
      BudgetStep(s, p, acts[0]);
      StepMovesWhileWaiting(Apply(s, acts[0]), p, acts[1..]);
    }
  }

  /** Between a pauser's bump and its acquisition of the step mutex the stepper takes the step mutex
      at most once, whatever all other threads do meanwhile. */
  lemma BoundedBypass(s: State, p: Actor, acts: seq<Action>)
    requires LockInv(s) && Cl(s, p).Bumping?
    requires Runs(s, [Do(p, BumpPipe)] + acts)
    requires forall i | 0 <= i < |acts| :: acts[i].Do? ==> acts[i].who != p
    ensures Entries(acts) <= 1
  {
    assert ([Do(p, BumpPipe)] + acts)[1..] == acts;
    LockInvStep(s, Do(p, BumpPipe));
    ClientsMoved(s, Do(p, BumpPipe), p);
    EntriesWhileWaiting(Apply(s, Do(p, BumpPipe)), p, acts);
  }

  /** The stepper does not sleep in poll against a waiting pauser. */
  lemma NoSleepAgainstPauser(s: State, p: Actor)
    requires LockInv(s) && !s.crashed && Cl(s, p).WantStep? && s.phase.Polling?
    ensures Enabled(s, Drive(PollPipe)) && !Enabled(s, Drive(PollTimeout))
    ensures forall x, e :: !Enabled(s, Drive(PollSocket(x, e)))
  {
    assert Handshake(s, p);
  }

  // ----- progress -----

  /** Actions that finish something already begun: no new calls, no help from poll's timeout or the network. */
  predicate Continues(a: Action)
  {
    match a
    case Drive(m) => !(m.BeginStep? || m.BeginRun? || m.RunTask? || m.PollTimeout? || m.PollSocket? || m.Throw?)
    case Do(_, r) => !(r.Send? || r.Call? || r.StopSet?)
  }

  /** One way for a thread to go on with its own call. */
  function Own(c: Client): Request
  {
    match c
    case TryStep(_) => TryLock
    case WantPause(_) => LockPause
    case Bumping(_) => BumpPipe
    case WantStep(_) => LockStep
    case LeavePause(_) => UnlockPause
    case InOp(_) => DoOp
    case Leaving => Unlock
    case Stopping => StopBump
    case Quiet => StopBump
  }

  /** One way for the stepper to go on with its own Step. */
  function Onward(p: Phase): Move
  {
    match p
    case Outside => BeginStep
    case Test => TestFlag
    case Enter => EnterStep
    case Tasks => FinishTasks
    case Querying => QuerySockets
    case Polling => PollPipe
    case Draining => Unbump
    case Ready(_, Readable) => OnReadable(Deliver, true, NoError)
    case Ready(_, Writable) => OnWritable(Whole, true, NoError)
    case Ready(_, Hangup) => OnError
    case Calling(_) => HandlerReturns
    case Dropping(_) => DropDone
    case Dropped(_) => HandlerReturns
    case Clearing(_) => ClearBit
    case Release => LeaveStep
    case Yield => TakePause
    case Yielded => GivePause
  }

  function PhaseRank(p: Phase): nat
  {
    match p
    case Tasks => 9
    case Querying => 8
    case Polling => 7
    case Draining => 6
    case Ready(_, _) => 6
    case Calling(_) => 5
    case Dropping(_) => 4
    case Dropped(_) => 3
    case Clearing(_) => 2
    case Release => 1
    case _ => 0
  }

  function ClientRank(c: Client): nat
  {
    match c
    case TryStep(_) => 3
    case InOp(_) => 2
    case Leaving => 1
    case Stopping => 1
    case _ => 0
  }

  /** How far the owner of the step mutex is from giving it up. */
  function Rank(s: State): nat
  {
    match s.mutex.owner
    case None => 0
    case Some(w) => ClientRank(Cl(s, w)) + if w.Stepper? then 4 * PhaseRank(s.phase) else 0
  }

  /** The next step towards a free step mutex. */
  function Unblock(s: State): Action
    requires s.mutex.owner.Some?
  {
    var w := s.mutex.owner.value;
    if Cl(s, w).Quiet? then Drive(Onward(s.phase)) else Do(w, Own(Cl(s, w)))
  }

  lemma UnblockEnabled(s: State, p: Actor)
    requires LockInv(s) && !s.crashed && Cl(s, p).WantStep? && s.mutex.owner.Some?
    ensures Enabled(s, Unblock(s)) && Continues(Unblock(s)) && Unblock(s) != Drive(EnterStep)
    ensures ActorOf(Unblock(s)) == s.mutex.owner.value && (Unblock(s).Do? ==> s.mutex.owner.value != p)
  {
    assert Accounted(s, s.mutex.owner.value) && Accounted(s, p) && Accounted(s, Stepper);
    assert Handshake(s, p);
  }

  lemma UnblockProgresses(s: State, p: Actor)
    requires LockInv(s) && !s.crashed && Cl(s, p).WantStep? && s.mutex.owner.Some?
    ensures Enabled(s, Unblock(s)) && Continues(Unblock(s)) && Unblock(s) != Drive(EnterStep)
    ensures Rank(Apply(s, Unblock(s))) < Rank(s)
    ensures Cl(Apply(s, Unblock(s)), p) == Cl(s, p)
  {
    UnblockEnabled(s, p);
    WaiterKept(s, p, Unblock(s));
    assert Accounted(s, s.mutex.owner.value) && Accounted(s, Stepper) && Accounted(s, p);
    ClientsMoved(s, Unblock(s), s.mutex.owner.value);
  }

  /** From every reachable state a pauser that waits for the step mutex can get it: the threads inside the
      driver need only go on with what they have begun. */
  lemma {:induction false} PauserGetsThrough(s: State, p: Actor) returns (acts: seq<Action>)
    requires LockInv(s) && !s.crashed && Cl(s, p).WantStep?
    ensures Runs(s, acts) && |acts| <= Rank(s) + 1
    ensures forall i | 0 <= i < |acts| :: Continues(acts[i]) && acts[i] != Drive(EnterStep)
    ensures After(s, acts).crashed || (Cl(After(s, acts), p).LeavePause? && After(s, acts).mutex.owner == Some(p))
    decreases Rank(s)
  {
    if s.mutex.owner.None? {
      acts := [Do(p, LockStep)];
      ClientsMoved(s, acts[0], p);
      assert After(s, acts) == Apply(s, acts[0]);
    } else {
      var a := Unblock(s);
      UnblockProgresses(s, p);
      LockInvStep(s, a);
      var s' := Apply(s, a);
      var rest := [];
      if !s'.crashed {
        rest := PauserGetsThrough(s', p);
      }
      acts := [a] + rest;
      assert acts[1..] == rest;
    }
  }

  /** No deadlock: while any call into the driver is unfinished, or the stepper is inside Step and not asleep
      in poll, some thread can go on. */
  lemma NoDeadlock(s: State, w: Actor) returns (a: Action)
    requires LockInv(s) && !s.crashed
    requires !Cl(s, w).Quiet? || (!s.phase.Outside? && !s.phase.Polling?)
    ensures Enabled(s, a) && Continues(a)
  {
    assert Accounted(s, Stepper);
    assert Accounted(s, w);
    var b := if !Cl(s, w).Quiet? then w else Stepper;
    if b == Stepper && Cl(s, b).Quiet? {
      a := Drive(Onward(s.phase));
      if s.phase.Enter? && s.mutex.owner.Some? {
        a := Do(s.mutex.owner.value, Own(Cl(s, s.mutex.owner.value)));
        assert Accounted(s, s.mutex.owner.value);
      } else if s.phase.Yield? && s.mutex.pause.Some? {
        a := PauseHolder(s, s.mutex.pause.value);
      }
    } else if Cl(s, b).WantPause? && s.mutex.pause.Some? {
      a := PauseHolder(s, s.mutex.pause.value);
    } else if Cl(s, b).WantStep? && s.mutex.owner.Some? {
      UnblockProgresses(s, b);
      a := Unblock(s);
    } else if Cl(s, b).TryStep? && s.mutex.owner.Some? && s.mutex.owner != Some(b) {
      a := Do(b, TryFails);
    } else {
      a := Do(b, Own(Cl(s, b)));
      assert Accounted(s, b);
    }
  }

  lemma PauseHolder(s: State, q: Actor) returns (a: Action)
    requires LockInv(s) && !s.crashed && s.mutex.pause == Some(q)
    ensures Enabled(s, a) && Continues(a)
  {
    assert Accounted(s, q);
    if Cl(s, q).WantStep? && s.mutex.owner.Some? {
      UnblockProgresses(s, q);
      a := Unblock(s);
    } else if HasPause(Cl(s, q)) {
      a := Do(q, Own(Cl(s, q)));
    } else {
      a := Drive(GivePause);
    }
  }
}
