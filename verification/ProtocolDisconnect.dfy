/** A disconnect is final. */
module ProtocolDisconnect {
  import opened Wrappers
  import opened DriverProtocol
  import opened ProtocolLocks
  import opened ProtocolExact

  predicate Gone(s: State, x: nat)
  {
    exists i | 0 <= i < |s.calls| :: s.calls[i] == (x, Disconnected)
  }

  ghost predicate Unreachable(s: State, x: nat)
  {
    && x in s.used
    && x !in s.socks
    && (forall a: Actor :: !Registering(s, a, x))
  }

  /** The socket being dropped will never be registered again, and is not registered once its own
      AsyncUnregister call is done. */
  ghost predicate DropInv(s: State)
  {
    s.phase.Dropping? ==>
      var x, c := s.phase.sock, Cl(s, Stepper);
      && !Gone(s, x)
      && x in s.used
      && (forall a: Actor :: !Registering(s, a, x))
      && (c == TryStep(Unregister(x)) || c == InOp(Unregister(x)) || ((c.Leaving? || c.Quiet?) && x !in s.socks))
  }

  /** Nothing follows a socket's disconnect callback. */
  predicate Final(calls: seq<(nat, Callback)>)
  {
    forall i, j | 0 <= i < j < |calls| :: calls[i].1 == Disconnected ==> calls[j].0 != calls[i].0
  }

  ghost predicate DisconnectInv(s: State)
  {
    && LockInv(s)
    && (forall x :: RegisteredOnce(s, x))
    && (forall x :: Gone(s, x) ==> Unreachable(s, x))
    && DropInv(s)
    && Final(s.calls)
  }

  /** No thread starts to register a socket that is already in use. */
  lemma NoNewRegistration(s: State, a: Action, x: nat)
    requires Enabled(s, a) && x in s.used && (forall b: Actor :: !Registering(s, b, x))
    ensures forall b: Actor :: !Registering(Apply(s, a), b, x)
    ensures x in Apply(s, a).used
    ensures x !in s.socks ==> x !in Apply(s, a).socks
  {
    forall b: Actor ensures !Registering(Apply(s, a), b, x) {
      assert !Registering(s, b, x);
      ClientsMoved(s, a, b);
    }
    if a.Do? && a.request.DoOp? {
      assert !Registering(s, a.who, x);
    }
  }

  lemma UnreachableStep(s: State, a: Action, x: nat)
    requires DisconnectInv(s) && Enabled(s, a) && Gone(Apply(s, a), x)
    ensures Unreachable(Apply(s, a), x)
  {
    if Gone(s, x) {
      NoNewRegistration(s, a, x);
    } else {
      assert a == Drive(DropDone);
      NoNewRegistration(s, a, x);
    }
  }

  lemma DropStep(s: State, a: Action)
    requires DisconnectInv(s) && Enabled(s, a)
    ensures DropInv(Apply(s, a))
  {
    var s' := Apply(s, a);
    if s'.phase.Dropping? {
      var x := s'.phase.sock;
      ClientsMoved(s, a, Stepper);
      assert Accounted(s, Stepper);
      assert RegisteredOnce(s, x);
      assert Gone(s, x) ==> Unreachable(s, x);
      NoNewRegistration(s, a, x);
      assert s'.calls == s.calls;
    }
  }

  lemma FinalStep(s: State, a: Action)
    requires DisconnectInv(s) && Enabled(s, a)
    ensures Final(Apply(s, a).calls)
  {
    if Apply(s, a).calls != s.calls {
      var x := s.phase.sock;
      assert Gone(s, x) ==> Unreachable(s, x);
      assert !Gone(s, x);
    }
  }

  lemma DisconnectInvStep(s: State, a: Action)
    requires DisconnectInv(s) && Enabled(s, a)
    ensures DisconnectInv(Apply(s, a))
  {
    LockInvStep(s, a);
    forall x ensures RegisteredOnce(Apply(s, a), x) { RegisteredOnceStep(s, a, x); }
    forall x | Gone(Apply(s, a), x) ensures Unreachable(Apply(s, a), x) { UnreachableStep(s, a, x); }
    DropStep(s, a);
    FinalStep(s, a);
  }

  lemma {:induction false} DisconnectInvRun(s: State, acts: seq<Action>)
    requires DisconnectInv(s) && Runs(s, acts)
    ensures DisconnectInv(After(s, acts))
    decreases |acts|
  {
    if acts == [] {
    } else {
      DisconnectInvStep(s, acts[0]);
      DisconnectInvRun(Apply(s, acts[0]), acts[1..]);
    }
  }

  /** In every run: the disconnect handler of a socket runs at most once, and after it has started no driver step
      invokes any callback of that socket. */
  lemma DisconnectIsFinal(s: State, acts: seq<Action>, i: nat, j: nat)
    requires Init(s) && Runs(s, acts)
    requires i < j < |After(s, acts).calls| && After(s, acts).calls[i].1 == Disconnected
    ensures After(s, acts).calls[j].0 != After(s, acts).calls[i].0
    ensures After(s, acts).calls[i].0 !in After(s, acts).socks
  {
    LockInvInit(s);
    DisconnectInvRun(s, acts);
    var s' := After(s, acts);
    assert Gone(s', s'.calls[i].0) by { assert s'.calls[i] == (s'.calls[i].0, Disconnected); }
  }

  // ----- a failure is a disconnect -----

  /** The socket's receive function, its handler or poll reports an error. */
  predicate Fails(a: Action)
  {
    a.Drive? && ((a.move.OnReadable? && a.move.read.Fail?) || a.move.OnError? || a.move.HandlerFails?)
  }

  /** The stepper's next moves on the way to the disconnect handler. */
  lemma DropStarts(s: State, a: Action)
    requires LockInv(s) && Enabled(s, a) && Fails(a) && s.phase.sock in s.socks
    requires s.socks[s.phase.sock].kind.Tcp? || s.socks[s.phase.sock].kind.Tls?
    ensures var s', x := Apply(s, a), s.phase.sock;
            && !s'.crashed && s'.phase == Dropping(x) && s'.calls == s.calls
            && Cl(s', Stepper) == TryStep(Unregister(x)) && s'.mutex.owner == Some(Stepper)
  {
    assert Accounted(s, Stepper);
  }

  lemma Unregistered(s: State, x: nat)
    requires !s.crashed && s.phase == Dropping(x) && s.mutex.owner == Some(Stepper)
    requires Cl(s, Stepper) == TryStep(Unregister(x))
    ensures var acts := [Do(Stepper, TryLock), Do(Stepper, DoOp)];
            && Runs(s, acts)
            && var s' := After(s, acts);
               && !s'.crashed && s'.phase == s.phase && s'.calls == s.calls && s'.mutex.depth > 0
               && Cl(s', Stepper).Leaving? && x !in s'.socks
  {
    Twice(s, Do(Stepper, TryLock), Do(Stepper, DoOp));
  }

  lemma HandlerCalled(s: State, x: nat)
    requires !s.crashed && s.phase == Dropping(x) && s.mutex.depth > 0
    requires Cl(s, Stepper).Leaving? && x !in s.socks
    ensures var acts := [Do(Stepper, Unlock), Drive(DropDone)];
            && Runs(s, acts)
            && var s' := After(s, acts);
               !s'.crashed && s'.calls == s.calls + [(x, Disconnected)] && x !in s'.socks
  {
    Twice(s, Do(Stepper, Unlock), Drive(DropDone));
  }

  lemma DropRuns(s: State, x: nat) returns (acts: seq<Action>)
    requires !s.crashed && s.phase == Dropping(x) && s.mutex.owner == Some(Stepper)
    requires Cl(s, Stepper) == TryStep(Unregister(x))
    ensures acts == [Do(Stepper, TryLock), Do(Stepper, DoOp), Do(Stepper, Unlock), Drive(DropDone)]
    ensures Runs(s, acts)
    ensures var s' := After(s, acts);
            !s'.crashed && s'.calls == s.calls + [(x, Disconnected)] && x !in s'.socks
  {
    var front, back := [Do(Stepper, TryLock), Do(Stepper, DoOp)], [Do(Stepper, Unlock), Drive(DropDone)];
    Unregistered(s, x);
    HandlerCalled(After(s, front), x);
    Compose(s, front, back);
    acts := front + back;
  }

  /** In every state with the lock invariant, that is, in every reachable one, when a registered stream socket fails,
      four actions of the stepper's own, which wait for nobody, unregister it and call its disconnect handler. */
  lemma FailureDisconnects(s: State, a: Action) returns (acts: seq<Action>)
    requires LockInv(s) && Enabled(s, a) && Fails(a) && s.phase.sock in s.socks
    requires s.socks[s.phase.sock].kind.Tcp? || s.socks[s.phase.sock].kind.Tls?
    ensures |acts| == 4 && forall i | 0 <= i < |acts| :: ActorOf(acts[i]) == Stepper && Continues(acts[i])
    ensures Runs(Apply(s, a), acts)
    ensures var s', x := After(Apply(s, a), acts), s.phase.sock;
            !s'.crashed && s'.calls == s.calls + [(x, Disconnected)] && x !in s'.socks
  {
    DropStarts(s, a);
    acts := DropRuns(Apply(s, a), s.phase.sock);
  }

  /** Nothing but the disconnect of x has been called since. */
  predicate OnTheWay(before: seq<(nat, Callback)>, after: seq<(nat, Callback)>, x: nat)
  {
    before + [(x, Disconnected)] <= after
  }

  lemma {:induction false} DropGoesOn(s: State, acts: seq<Action>, x: nat, before: seq<(nat, Callback)>)
    requires Runs(s, acts)
    requires (s.phase == Dropping(x) && s.calls == before) || OnTheWay(before, s.calls, x)
    ensures var s' := After(s, acts);
            (s'.phase == Dropping(x) && s'.calls == before) || OnTheWay(before, s'.calls, x)
    decreases |acts|
  {
    if acts == [] {
    } else {
      DropGoesOn(Apply(s, acts[0]), acts[1..], x, before);
    }
  }

  /** And whatever happens after the failure, the next callback is the socket's disconnect handler. */
  lemma DisconnectComesNext(s: State, a: Action, acts: seq<Action>)
    requires LockInv(s) && Enabled(s, a) && Fails(a) && s.phase.sock in s.socks
    requires s.socks[s.phase.sock].kind.Tcp? || s.socks[s.phase.sock].kind.Tls?
    requires Runs(Apply(s, a), acts)
    ensures var s' := After(Apply(s, a), acts);
            s'.calls == s.calls || s.calls + [(s.phase.sock, Disconnected)] <= s'.calls
  {
    DropStarts(s, a);
    DropGoesOn(Apply(s, a), acts, s.phase.sock, s.calls);
  }
}
