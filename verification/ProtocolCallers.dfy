/** What callers can do about AsyncWantSend's assertion: keeping to the life time of their sockets suffices for
    datagram sockets. For stream sockets it does not, because the driver itself unregisters a socket that has been
    disconnected, also between a sender's enqueue and its request for the poll. */
module ProtocolCallers {
  import opened Wrappers
  import opened WriteInterest
  import opened DriverProtocol
  import opened ProtocolLocks
  import opened ProtocolSend
  import opened ProtocolExact
  import opened ProtocolOrphans
  import opened ProtocolDisconnect

  // ----- the callers' obligation -----

  predicate Destructor(a: Action)
  {
    a.Do? && a.request.Call? && a.request.op.Unregister?
  }

  /** Nobody sends on a socket whose destructor has begun, and no destructor begins while a send is in flight. */
  ghost predicate Obeys(s: State, a: Action, gone: set<nat>)
  {
    && (a.Do? && a.request.Send? ==> a.request.sock !in gone)
    && (Destructor(a) ==> !HasSender(s, a.request.op.sock))
  }

  function GoneAfter(a: Action, gone: set<nat>): set<nat>
  {
    if Destructor(a) then gone + {a.request.op.sock} else gone
  }

  ghost predicate ObeyedRun(s: State, acts: seq<Action>, gone: set<nat>)
    requires Runs(s, acts)
    decreases |acts|
  {
    acts == [] || (Obeys(s, acts[0], gone) && ObeyedRun(Apply(s, acts[0]), acts[1..], GoneAfter(acts[0], gone)))
  }

  // ----- what it achieves -----

  /** The driver has begun to disconnect the socket. */
  predicate Disconnecting(s: State, x: nat)
  {
    s.phase == Dropping(x) || Gone(s, x)
  }

  /** Who unregisters a socket: its destructor or the driver. */
  ghost predicate Unregistering(s: State, gone: set<nat>, x: nat)
  {
    && (x in gone ==> !HasSender(s, x))
    && (x in s.built ==> x in s.socks || x in gone || Disconnecting(s, x))
    && (forall a: Actor :: OpOf(Cl(s, a)) == Some(Unregister(x)) ==>
          x in gone || (a.Stepper? && s.phase == Dropping(x)))
  }

  ghost predicate CallerInv(s: State, gone: set<nat>)
  {
    && ExactInv(s)
    && (forall x :: Unregistering(s, gone, x))
  }

  lemma DisconnectingKept(s: State, a: Action, x: nat)
    requires Enabled(s, a) && Disconnecting(s, x)
    ensures Disconnecting(Apply(s, a), x)
  {
    var s' := Apply(s, a);
    if Gone(s, x) {
      var i :| 0 <= i < |s.calls| && s.calls[i] == (x, Disconnected);
      assert s'.calls[i] == (x, Disconnected);
    } else if a == Drive(DropDone) {
      assert s'.calls[|s.calls|] == (x, Disconnected);
    }
  }

  lemma NoSenderKept(s: State, a: Action, gone: set<nat>, x: nat)
    requires ExactInv(s) && Unregistering(s, gone, x) && Enabled(s, a) && Obeys(s, a, gone)
    ensures x in GoneAfter(a, gone) ==> !HasSender(Apply(s, a), x)
  {
    if x in GoneAfter(a, gone) && HasSender(Apply(s, a), x) {
      var b: Actor :| Pending(Apply(s, a), b, x);
      PendingBefore(s, a, b, x);
      assert HasSender(s, x);
    }
  }

  lemma UnregisteringStep(s: State, a: Action, gone: set<nat>, x: nat)
    requires ExactInv(s) && Unregistering(s, gone, x) && Enabled(s, a) && Obeys(s, a, gone)
    ensures Unregistering(Apply(s, a), GoneAfter(a, gone), x)
  {
    var s' := Apply(s, a);
    NoSenderKept(s, a, gone, x);
    if Disconnecting(s, x) {
      DisconnectingKept(s, a, x);
    }
    forall b: Actor | OpOf(Cl(s', b)) == Some(Unregister(x))
      ensures x in GoneAfter(a, gone) || (b.Stepper? && s'.phase == Dropping(x))
    {
      ClientsMoved(s, a, b);
    }
  }

  /** The driver has disconnected the socket by itself. */
  predicate DroppedByDriver(s: State, x: nat)
  {
    Disconnecting(s, x) && x !in s.socks
  }

  /** A crash of an obedient program is AsyncWantSend's assertion for such a socket. */
  lemma CrashNeedsDisconnect(s: State, a: Action, gone: set<nat>)
    requires CallerInv(s, gone) && Enabled(s, a) && Crashes(s, a)
    ensures exists x :: DroppedByDriver(Apply(s, a), x)
  {
    CrashesIff(s, a);
    var x := Cl(s, a.who).op.sock;
    assert Pending(s, a.who, x) && RegisteredOnce(s, x) && Unregistering(s, gone, x);
    DisconnectingKept(s, a, x);
    assert DroppedByDriver(Apply(s, a), x);
  }

  lemma {:induction false} CallerInvRun(s: State, acts: seq<Action>, gone: set<nat>)
    requires CallerInv(s, gone) && !s.crashed && Runs(s, acts) && ObeyedRun(s, acts, gone)
    ensures After(s, acts).crashed ==> exists x :: DroppedByDriver(After(s, acts), x)
    decreases |acts|
  {
    if acts == [] {
    } else {
      var s', gone' := Apply(s, acts[0]), GoneAfter(acts[0], gone);
      ExactInvStep(s, acts[0]);
      forall x ensures Unregistering(s', gone', x) { UnregisteringStep(s, acts[0], gone, x); }
      if Crashes(s, acts[0]) {
        CrashNeedsDisconnect(s, acts[0], gone);
        assert acts[1..] == [] && After(s', acts[1..]) == s';
      } else {
        CallerInvRun(s', acts[1..], gone');
      }
    }
  }

  // ----- by kind of socket -----

  /** A socket that is, or is going to be, for datagrams or an acceptor: the driver does not disconnect it. */
  ghost predicate NoStream(s: State, x: nat)
  {
    && !Disconnecting(s, x)
    && (x in s.socks ==> !Stream(s.socks[x].kind))
    && (forall a: Actor :: Registering(s, a, x) ==> !Stream(OpOf(Cl(s, a)).value.kind))
  }

  predicate Constructs(a: Action, x: nat)
  {
    a.Do? && a.request.Call? && a.request.op.Register? && a.request.op.sock == x
  }

  /** The run constructs socket x as a stream socket. */
  predicate ConstructsStream(acts: seq<Action>, x: nat)
  {
    exists a | a in acts :: Constructs(a, x) && Stream(a.request.op.kind)
  }

  lemma NoStreamStep(s: State, a: Action, x: nat)
    requires LockInv(s) && NoStream(s, x) && Enabled(s, a)
    requires Constructs(a, x) ==> !Stream(a.request.op.kind)
    ensures NoStream(Apply(s, a), x)
  {
    var s' := Apply(s, a);
    forall b: Actor | Registering(s', b, x) ensures !Stream(OpOf(Cl(s', b)).value.kind) {
      ClientsMoved(s, a, b);
      assert Registering(s, b, x) ==> !Stream(OpOf(Cl(s, b)).value.kind);
    }
    if a.Do? && a.request.DoOp? {
      assert Registering(s, a.who, x) ==> !Stream(OpOf(Cl(s, a.who)).value.kind);
    }
  }

  lemma {:induction false} NoStreamRun(s: State, acts: seq<Action>, x: nat)
    requires LockInv(s) && NoStream(s, x) && Runs(s, acts) && !ConstructsStream(acts, x)
    ensures NoStream(After(s, acts), x)
    decreases |acts|
  {
    if acts == [] {
    } else {
      LockInvStep(s, acts[0]);
      assert acts[0] in acts;
      NoStreamStep(s, acts[0], x);
      NoStreamRun(Apply(s, acts[0]), acts[1..], x);
    }
  }

  lemma {:induction false} NeverDropped(s: State, acts: seq<Action>, x: nat)
    requires LockInv(s) && x in s.used && NoStream(s, x) && Runs(s, acts)
    ensures NoStream(After(s, acts), x)
    decreases |acts|
  {
    if acts == [] {
    } else {
      LockInvStep(s, acts[0]);
      NoStreamStep(s, acts[0], x);
      NeverDropped(Apply(s, acts[0]), acts[1..], x);
    }
  }

  /** In every reachable state, when a datagram socket or an acceptor fails, it stays registered as it is, and
      whatever happens afterwards, it is not disconnected. */
  lemma FailureOfOthersIsDiscarded(s: State, a: Action, acts: seq<Action>)
    requires DisconnectInv(s) && Enabled(s, a) && Fails(a) && s.phase.sock in s.socks
    requires s.socks[s.phase.sock].kind.Udp? || s.socks[s.phase.sock].kind.Acceptor?
    requires Runs(Apply(s, a), acts)
    ensures Apply(s, a).socks == s.socks && Apply(s, a).calls == s.calls
    ensures (s.phase.sock, Disconnected) !in After(Apply(s, a), acts).calls
  {
    var x := s.phase.sock;
    assert RegisteredOnce(s, x);
    assert Gone(s, x) ==> Unreachable(s, x);
    LockInvStep(s, a);
    NoStreamStep(s, a, x);
    NeverDropped(Apply(s, a), acts, x);
  }

  /** A program that keeps to the life time of its sockets crashes only for a stream socket that the driver has
      disconnected. */
  lemma OnlyDisconnectsCrash(s: State, acts: seq<Action>)
    requires Init(s) && Runs(s, acts) && ObeyedRun(s, acts, {}) && After(s, acts).crashed
    ensures exists x :: ConstructsStream(acts, x) && DroppedByDriver(After(s, acts), x)
  {
    ExactInvInit(s);
    CallerInvRun(s, acts, {});
    var x :| DroppedByDriver(After(s, acts), x);
    if !ConstructsStream(acts, x) {
      NoStreamRun(s, acts, x);
    }
  }

  // ----- a stream socket that is disconnected -----

  lemma {:induction false} NoDestructorObeys(s: State, acts: seq<Action>)
    requires Runs(s, acts) && forall a | a in acts :: !Destructor(a)
    ensures ObeyedRun(s, acts, {})
    decreases |acts|
  {
    if acts == [] {
    } else {
      assert acts[0] in acts;
      NoDestructorObeys(Apply(s, acts[0]), acts[1..]);
    }
  }

  /** The actions of a program that only constructs one socket, and destroys nothing. */
  predicate Peaceful(acts: seq<Action>, kind: Kind)
  {
    forall a | a in acts ::
      !Destructor(a) && (a.Do? && a.request.Call? ==> Constructs(a, 0) && a.request.op.kind == kind)
  }

  /** Runs of such a program, one after the other. */
  lemma Onward(s: State, front: seq<Action>, back: seq<Action>, kind: Kind)
    requires Runs(s, front) && Runs(After(s, front), back) && Peaceful(front, kind) && Peaceful(back, kind)
    ensures Runs(s, front + back) && After(s, front + back) == After(After(s, front), back)
    ensures Peaceful(front + back, kind)
  {
    Compose(s, front, back);
  }

  /** There is one socket, and no thread is inside a call into the driver. */
  predicate Single(s: State, k: Sock, phase: Phase)
  {
    && !s.crashed && s.pipe == 0 && s.phase == phase
    && s.mutex == (if InStep(phase) then Mutexes(Some(Stepper), 1, None) else Mutexes(None, 0, None))
    && (forall a | a in s.client :: s.client[a].Quiet?)
    && s.socks == map[0 := k] && s.built == {0}
  }

  lemma BeginConstruct(s: State, kind: Kind) returns (acts: seq<Action>)
    requires Init(s)
    ensures Runs(s, acts) && Peaceful(acts, kind)
    ensures var s' := After(s, acts);
            && !s'.crashed && s'.pipe == 0 && s'.phase.Outside? && s'.mutex == Mutexes(Some(Other(0)), 1, None)
            && s'.client == map[Other(0) := InOp(Register(0, kind, TlsState(true, NoError, false)))]
            && s'.socks == map[] && s'.built == {}
  {
    var op := Register(0, kind, TlsState(true, NoError, false));
    acts := [Do(Other(0), Call(op)), Do(Other(0), TryLock)];
    Twice(s, acts[0], acts[1]);
  }

  lemma EndConstruct(s: State, kind: Kind) returns (acts: seq<Action>)
    requires !s.crashed && s.pipe == 0 && s.phase.Outside? && s.mutex == Mutexes(Some(Other(0)), 1, None)
    requires s.client == map[Other(0) := InOp(Register(0, kind, TlsState(true, NoError, false)))]
    requires s.socks == map[] && s.built == {}
    ensures Runs(s, acts) && Peaceful(acts, kind)
    ensures Single(After(s, acts), Sock(kind, 0, false, TlsState(true, NoError, false)), Outside)
  {
    acts := [Do(Other(0), DoOp), Do(Other(0), Unlock)];
    Twice(s, acts[0], acts[1]);
  }

  lemma ReachTasks(s: State, k: Sock) returns (acts: seq<Action>)
    requires Single(s, k, Outside)
    ensures Runs(s, acts) && Peaceful(acts, k.kind) && Single(After(s, acts), k, Tasks)
  {
    acts := [Drive(BeginStep), Drive(EnterStep)];
    Twice(s, acts[0], acts[1]);
  }

  lemma FinishTasks(s: State, k: Sock) returns (acts: seq<Action>)
    requires Single(s, k, Tasks)
    ensures Runs(s, acts) && Peaceful(acts, k.kind) && Single(After(s, acts), k, Querying)
  {
    acts := [Drive(DriverProtocol.FinishTasks)];
    Once(s, acts[0]);
  }

  lemma ReachPoll(s: State, k: Sock) returns (acts: seq<Action>)
    requires Single(s, k, Querying) && k.tls == TlsState(true, NoError, false)
    ensures Runs(s, acts) && Peaceful(acts, k.kind) && Single(After(s, acts), k, Polling)
  {
    acts := [Drive(QuerySockets)];
    assert Queried(k) == k;
    Once(s, acts[0]);
  }

  /** poll reports that the peer has hung up. */
  lemma HangUp(s: State, k: Sock) returns (acts: seq<Action>)
    requires Single(s, k, Polling)
    ensures Runs(s, acts) && Peaceful(acts, k.kind) && Single(After(s, acts), k, Ready(0, Hangup))
  {
    acts := [Drive(PollSocket(0, Hangup))];
    Once(s, acts[0]);
  }

  /** A thread sends. */
  lemma SendMeanwhile(s: State, k: Sock) returns (acts: seq<Action>)
    requires Single(s, k, Ready(0, Hangup)) && Stream(k.kind) && k.queue == 0
    ensures Runs(s, acts) && Peaceful(acts, k.kind)
    ensures var s' := After(s, acts);
            && !s'.crashed && s'.phase == Ready(0, Hangup) && s'.mutex == s.mutex && Pending(s', Other(0), 0)
            && Cl(s', Stepper).Quiet? && 0 in s'.socks && Stream(s'.socks[0].kind)
  {
    acts := [Do(Other(0), Send(0, true))];
    Once(s, acts[0]);
  }

  lemma BeginDisconnect(s: State, kind: Kind) returns (acts: seq<Action>)
    requires !s.crashed && s.phase == Ready(0, Hangup) && s.mutex == Mutexes(Some(Stepper), 1, None)
    requires Pending(s, Other(0), 0) && 0 in s.socks && Stream(s.socks[0].kind)
    ensures Runs(s, acts) && Peaceful(acts, kind)
    ensures var s' := After(s, acts);
            && !s'.crashed && s'.mutex == s.mutex && Pending(s', Other(0), 0)
            && Cl(s', Stepper) == TryStep(Unregister(0))
  {
    acts := [Drive(OnError)];
    Once(s, acts[0]);
  }

  /** Before that thread requests the poll, the driver unregisters the socket. */
  lemma Disconnect(s: State, kind: Kind) returns (acts: seq<Action>)
    requires !s.crashed && s.mutex == Mutexes(Some(Stepper), 1, None)
    requires Pending(s, Other(0), 0) && Cl(s, Stepper) == TryStep(Unregister(0))
    ensures Runs(s, acts) && Peaceful(acts, kind)
    ensures !After(s, acts).crashed && Orphan(After(s, acts), Other(0), 0)
  {
    acts := [Do(Stepper, TryLock), Do(Stepper, DoOp)];
    Twice(s, acts[0], acts[1]);
  }

  /** A program with one socket, up to the end of its construction. */
  lemma Constructed(s: State, kind: Kind) returns (acts: seq<Action>)
    requires Init(s)
    ensures Runs(s, acts) && Peaceful(acts, kind)
    ensures Single(After(s, acts), Sock(kind, 0, false, TlsState(true, NoError, false)), Outside)
  {
    acts := BeginConstruct(s, kind);
    var next := EndConstruct(After(s, acts), kind);
    Onward(s, acts, next, kind);
    acts := acts + next;
  }

  /** That program with the driver in poll. */
  lemma Polled(s: State, kind: Kind) returns (acts: seq<Action>)
    requires Init(s)
    ensures Runs(s, acts) && Peaceful(acts, kind)
    ensures Single(After(s, acts), Sock(kind, 0, false, TlsState(true, NoError, false)), Polling)
  {
    var k := Sock(kind, 0, false, TlsState(true, NoError, false));
    acts := Constructed(s, kind);
    var next := ReachTasks(After(s, acts), k);
    Onward(s, acts, next, kind);
    acts := acts + next;
    next := FinishTasks(After(s, acts), k);
    Onward(s, acts, next, kind);
    acts := acts + next;
    next := ReachPoll(After(s, acts), k);
    Onward(s, acts, next, kind);
    acts := acts + next;
  }

  lemma DisconnectRace(s: State, kind: Kind) returns (acts: seq<Action>)
    requires Init(s) && Stream(kind)
    ensures Runs(s, acts) && Peaceful(acts, kind)
    ensures !After(s, acts).crashed && Orphan(After(s, acts), Other(0), 0)
  {
    var k := Sock(kind, 0, false, TlsState(true, NoError, false));
    acts := Polled(s, kind);
    var next := HangUp(After(s, acts), k);
    Onward(s, acts, next, kind);
    acts := acts + next;
    next := SendMeanwhile(After(s, acts), k);
    Onward(s, acts, next, kind);
    acts := acts + next;
    next := BeginDisconnect(After(s, acts), kind);
    Onward(s, acts, next, kind);
    acts := acts + next;
    next := Disconnect(After(s, acts), kind);
    Onward(s, acts, next, kind);
    acts := acts + next;
  }

  lemma CrashLater(s: State, acts: seq<Action>, w: Actor, kind: Kind) returns (acts': seq<Action>)
    requires Init(s) && Runs(s, acts) && Peaceful(acts, kind)
    requires !After(s, acts).crashed && Orphan(After(s, acts), w, 0)
    ensures Runs(s, acts') && Peaceful(acts', kind) && ObeyedRun(s, acts', {}) && After(s, acts').crashed
  {
    ExactInvInit(s);
    ExactInvRun(s, acts);
    var rest := OrphanCrashes(After(s, acts), w, 0);
    assert forall a | a in rest :: Continues(a);
    Onward(s, acts, rest, kind);
    acts' := acts + rest;
    NoDestructorObeys(s, acts');
  }

  /** A program that destroys nothing and sends once on a live socket can crash, if the peer hangs up meanwhile. */
  lemma DisconnectRaceCrashes(s: State, kind: Kind) returns (acts: seq<Action>)
    requires Init(s) && Stream(kind)
    ensures Runs(s, acts) && Peaceful(acts, kind) && ObeyedRun(s, acts, {}) && After(s, acts).crashed
  {
    acts := DisconnectRace(s, kind);
    acts := CrashLater(s, acts, Other(0), kind);
  }

  lemma DropBegins(s: State, k: Sock) returns (acts: seq<Action>)
    requires Single(s, k, Ready(0, Hangup)) && Stream(k.kind)
    ensures Runs(s, acts) && Peaceful(acts, k.kind)
    ensures var s' := After(s, acts);
            && !s'.crashed && s'.phase == Dropping(0) && s'.mutex == Mutexes(Some(Stepper), 2, None)
            && Cl(s', Stepper) == InOp(Unregister(0)) && s'.built == {0}
  {
    acts := [Drive(OnError), Do(Stepper, TryLock)];
    Twice(s, acts[0], acts[1]);
  }

  lemma DropEnds(s: State, kind: Kind) returns (acts: seq<Action>)
    requires !s.crashed && s.phase == Dropping(0) && s.mutex == Mutexes(Some(Stepper), 2, None)
    requires Cl(s, Stepper) == InOp(Unregister(0)) && s.built == {0}
    ensures Runs(s, acts) && Peaceful(acts, kind)
    ensures var s' := After(s, acts);
            && !s'.crashed && s'.phase == Dropping(0) && Cl(s', Stepper).Quiet? && s'.built == {0} && 0 !in s'.socks
  {
    acts := [Do(Stepper, DoOp), Do(Stepper, Unlock)];
    Twice(s, acts[0], acts[1]);
  }

  lemma HandlerSends(s: State, kind: Kind) returns (acts: seq<Action>)
    requires !s.crashed && s.phase == Dropping(0) && Cl(s, Stepper).Quiet? && s.built == {0} && 0 !in s.socks
    ensures Runs(s, acts) && Peaceful(acts, kind)
    ensures !After(s, acts).crashed && Orphan(After(s, acts), Stepper, 0)
  {
    acts := [Drive(DropDone), Do(Stepper, Send(0, true))];
    Twice(s, acts[0], acts[1]);
  }

  /** No race is needed: a disconnect handler that sends on its own socket, which still exists, does the same. */
  lemma SendInDisconnectHandlerCrashes(s: State, kind: Kind) returns (acts: seq<Action>)
    requires Init(s) && Stream(kind)
    ensures Runs(s, acts) && Peaceful(acts, kind) && ObeyedRun(s, acts, {}) && After(s, acts).crashed
  {
    var k := Sock(kind, 0, false, TlsState(true, NoError, false));
    acts := Polled(s, kind);
    var next := HangUp(After(s, acts), k);
    Onward(s, acts, next, kind);
    acts := acts + next;
    next := DropBegins(After(s, acts), k);
    Onward(s, acts, next, kind);
    acts := acts + next;
    next := DropEnds(After(s, acts), kind);
    Onward(s, acts, next, kind);
    acts := acts + next;
    next := HandlerSends(After(s, acts), kind);
    Onward(s, acts, next, kind);
    acts := acts + next;
    acts := CrashLater(s, acts, Stepper, kind);
  }

  predicate OnlyKind(acts: seq<Action>, kind: Kind)
  {
    forall a | a in acts && a.Do? && a.request.Call? && a.request.op.Register? :: a.request.op.kind == kind
  }

  ghost predicate CrashingRun(s: State, acts: seq<Action>, kind: Kind)
  {
    && Init(s) && Runs(s, acts) && ObeyedRun(s, acts, {})
    && OnlyKind(acts, kind)
    && After(s, acts).crashed
  }

  /** Keeping to the life time of its sockets, all of one kind, a program can crash iff they are stream sockets. */
  lemma CrashIffStream(kind: Kind)
    ensures (exists s, acts :: CrashingRun(s, acts, kind)) <==> Stream(kind)
  {
    if Stream(kind) {
      var s := State(Mutexes(None, 0, None), 0, false, Outside, false, false, map[], map[], {}, {}, 0, false, []);
      var acts := DisconnectRaceCrashes(s, kind);
      assert CrashingRun(s, acts, kind);
    } else {
      forall s, acts | CrashingRun(s, acts, kind) ensures false {
        OnlyDisconnectsCrash(s, acts);
      }
    }
  }

  // ----- without the obligation -----

  lemma SendThenDestroy(s: State, k: Sock) returns (acts: seq<Action>)
    requires Single(s, k, Outside) && !k.kind.Acceptor? && k.queue == 0
    ensures Runs(s, acts)
    ensures var s' := After(s, acts);
            && !s'.crashed && s'.mutex == s.mutex && Pending(s', Other(0), 0)
            && Cl(s', Other(1)) == TryStep(Unregister(0))
  {
    acts := [Do(Other(0), Send(0, true)), Do(Other(1), Call(Unregister(0)))];
    Twice(s, acts[0], acts[1]);
  }

  lemma Destroy(s: State) returns (acts: seq<Action>)
    requires !s.crashed && s.mutex == Mutexes(None, 0, None)
    requires Pending(s, Other(0), 0) && Cl(s, Other(1)) == TryStep(Unregister(0))
    ensures Runs(s, acts) && !After(s, acts).crashed && Orphan(After(s, acts), Other(0), 0)
  {
    acts := [Do(Other(1), TryLock), Do(Other(1), DoOp)];
    Twice(s, acts[0], acts[1]);
  }

  /** The obligation is needed for datagram sockets, too: a send that saw the empty queue, overtaken by the socket's
      destructor in another thread, can run into AsyncWantSend's assertion. */
  lemma RacingSendCrashes(s: State, kind: Kind) returns (acts: seq<Action>)
    requires Init(s) && !kind.Acceptor?
    ensures Runs(s, acts) && After(s, acts).crashed
  {
    acts := Constructed(s, kind);
    var next := SendThenDestroy(After(s, acts), Sock(kind, 0, false, TlsState(true, NoError, false)));
    Compose(s, acts, next);
    acts := acts + next;
    next := Destroy(After(s, acts));
    Compose(s, acts, next);
    acts := acts + next;
    ExactInvInit(s);
    ExactInvRun(s, acts);
    next := OrphanCrashes(After(s, acts), Other(0), 0);
    Compose(s, acts, next);
    acts := acts + next;
  }
}
