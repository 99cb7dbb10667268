/** No send wakeup is lost, with TLS or without. */
module ProtocolSend {
  import opened Wrappers
  import opened WriteInterest
  import opened DriverProtocol
  import opened ProtocolLocks

  /** The operation of an unfinished PauseGuard call. */
  function OpOf(c: Client): Option<Op>
  {
    match c
    case TryStep(op) => Some(op)
    case WantPause(op) => Some(op)
    case Bumping(op) => Some(op)
    case WantStep(op) => Some(op)
    case LeavePause(op) => Some(op)
    case InOp(op) => Some(op)
    case _ => None
  }

  /** A sender that saw an empty queue and has not set POLLOUT yet. */
  predicate Pending(s: State, a: Actor, x: nat)
  {
    OpOf(Cl(s, a)) == Some(WantSend(x))
  }

  ghost predicate HasSender(s: State, x: nat)
  {
    exists a: Actor :: Pending(s, a, x)
  }

  /** Every non-empty queue is in someone's care. */
  ghost predicate Cared(s: State, x: nat)
  {
    x in s.socks && s.socks[x].queue > 0 ==>
      s.socks[x].out || s.socks[x].tls.sendSuppressed || HasSender(s, x)
  }

  /** Between DriverOnWritable's answer and the clearing of the bit a refilled queue has a pending sender. */
  ghost predicate ClearingSafe(s: State)
  {
    s.phase.Clearing? && s.phase.sock in s.socks && s.socks[s.phase.sock].queue > 0 ==> HasSender(s, s.phase.sock)
  }

  /** When poll is entered, sockets with a finished handshake have nothing suppressed, and others than TLS never. */
  ghost predicate PollReady(s: State, x: nat)
  {
    x in s.socks ==>
      && (!s.socks[x].kind.Tls? ==> !s.socks[x].tls.sendSuppressed)
      && (s.phase.Polling? && s.socks[x].tls.initFinished ==> !s.socks[x].tls.sendSuppressed)
  }

  ghost predicate SendInv(s: State)
  {
    && LockInv(s)
    && (forall x :: Cared(s, x))
    && ClearingSafe(s)
    && (forall x :: PollReady(s, x))
  }

  lemma PendingKept(s: State, a: Action, b: Actor, x: nat)
    requires Enabled(s, a) && Pending(s, b, x)
    requires !(a.Do? && a.who == b && a.request.DoOp?)
    requires a.Drive? && b == Stepper ==> !PhaseAfter(s, a.move).Dropping?
    ensures Pending(Apply(s, a), b, x)
  {
  }

  /** DriverDisconnect starts only when the stepper has no call of its own under way. */
  lemma DroppingIsQuiet(s: State, m: Move)
    requires LockInv(s) && CanDrive(s, m) && PhaseAfter(s, m).Dropping?
    ensures Cl(s, Stepper).Quiet?
  {
  }

  lemma SenderKept(s: State, a: Action, x: nat)
    requires LockInv(s) && Enabled(s, a) && HasSender(s, x)
    ensures HasSender(Apply(s, a), x) || (a.Do? && a.request.DoOp? && Pending(s, a.who, x))
  {
    var b: Actor :| Pending(s, b, x);
    if !(a.Do? && a.who == b && a.request.DoOp?) {
      if a.Drive? && b == Stepper && PhaseAfter(s, a.move).Dropping? {
        DroppingIsQuiet(s, a.move);
      }
      PendingKept(s, a, b, x);
    }
  }

  /** An enqueue on an empty queue makes its thread a pending sender. */
  lemma EnqueueIsPending(s: State, w: Actor, x: nat, orphanEmpty: bool)
    requires Enabled(s, Do(w, Send(x, orphanEmpty))) && x in s.socks && s.socks[x].queue == 0
    ensures HasSender(Apply(s, Do(w, Send(x, orphanEmpty))), x)
  {
    ClientsMoved(s, Do(w, Send(x, orphanEmpty)), w);
    assert Pending(Apply(s, Do(w, Send(x, orphanEmpty))), w, x);
  }

  /** What is registered after an action. */
  lemma RegisteredIff(s: State, a: Action, x: nat)
    requires Enabled(s, a)
    ensures x in Apply(s, a).socks <==>
            (a.Do? && a.request.DoOp? && Cl(s, a.who).op.Register? && Cl(s, a.who).op.sock == x)
            || (x in s.socks && !(a.Do? && a.request.DoOp? && Cl(s, a.who).op == Unregister(x)))
  {
  }

  /** How one action changes a socket that stays registered. */
  lemma SockMoved(s: State, a: Action, x: nat)
    requires Enabled(s, a) && x in s.socks && x in Apply(s, a).socks
    requires !(a.Do? && a.request.DoOp? && Cl(s, a.who).op.Register? && Cl(s, a.who).op.sock == x)
    ensures var k, k' := s.socks[x], Apply(s, a).socks[x];
            && k'.kind == k.kind
            && k'.queue == k.queue + (if a.Do? && a.request.Send? && a.request.sock == x then 1 else 0)
                           - (if Takes(s, a, x) then 1 else 0)
            && (k'.out == if a == Drive(QuerySockets) then Queried(k).out
                          else if a == Drive(ClearBit) && s.phase.sock == x then false
                          else if a.Do? && a.request.DoOp? && Cl(s, a.who).op == WantSend(x) then true
                          else k.out)
            && (k'.tls == if a == Drive(QuerySockets) then Queried(k).tls
                          else if Answers(s, a, x) && k.kind.Tls? then
                            TlsState(a.move.finished, a.move.error, k.tls.sendSuppressed)
                          else k.tls)
  {
  }

  /** The socket has sent the whole front buffer of its queue, or failed to. */
  predicate Takes(s: State, a: Action, x: nat)
    requires Enabled(s, a)
  {
    a.Drive? && a.move.OnWritable? && a.move.write.Whole? && s.phase.sock == x && s.socks[x].queue > 0
  }

  /** OpenSSL has been called for the socket. */
  predicate Answers(s: State, a: Action, x: nat)
    requires Enabled(s, a)
  {
    a.Drive? && (a.move.OnReadable? || a.move.OnWritable?) && s.phase.sock == x
  }

  lemma CaredStep(s: State, a: Action, x: nat)
    requires SendInv(s) && Enabled(s, a)
    ensures Cared(Apply(s, a), x)
  {
    var s' := Apply(s, a);
    if x in s'.socks && s'.socks[x].queue > 0 {
      if x in s.socks && !(a.Do? && a.request.DoOp? && Cl(s, a.who).op.Register? && Cl(s, a.who).op.sock == x) {
        SockMoved(s, a, x);
        assert Cared(s, x);
        if s.socks[x].queue == 0 {
          EnqueueIsPending(s, a.who, x, a.request.orphanEmpty);
        } else if HasSender(s, x) {
          SenderKept(s, a, x);
        }
      }
    }
  }

  lemma ClearingStep(s: State, a: Action)
    requires SendInv(s) && Enabled(s, a)
    ensures ClearingSafe(Apply(s, a))
  {
    var s' := Apply(s, a);
    if s'.phase.Clearing? && s'.phase.sock in s'.socks && s'.socks[s'.phase.sock].queue > 0 && a.Do? {
      var x := s'.phase.sock;
      assert Accounted(s, Stepper) && Accounted(s, a.who);
      if s.socks[x].queue == 0 {
        EnqueueIsPending(s, a.who, x, a.request.orphanEmpty);
      } else {
        SenderKept(s, a, x);
      }
    }
  }

  lemma PollReadyStep(s: State, a: Action, x: nat)
    requires SendInv(s) && Enabled(s, a)
    ensures PollReady(Apply(s, a), x)
  {
    assert PollReady(s, x);
    assert Accounted(s, Stepper) && Accounted(s, ActorOf(a));
  }

  lemma SendInvStep(s: State, a: Action)
    requires SendInv(s) && Enabled(s, a)
    ensures SendInv(Apply(s, a))
  {
    LockInvStep(s, a);
    ClearingStep(s, a);
    forall x ensures Cared(Apply(s, a), x) { CaredStep(s, a, x); }
    forall x ensures PollReady(Apply(s, a), x) { PollReadyStep(s, a, x); }
  }

  lemma {:induction false} SendInvRun(s: State, acts: seq<Action>)
    requires SendInv(s) && Runs(s, acts)
    ensures SendInv(After(s, acts))
    decreases |acts|
  {
    if acts == [] {
    } else {
      SendInvStep(s, acts[0]);
      SendInvRun(Apply(s, acts[0]), acts[1..]);
    }
  }

  /** No lost wakeup: after any run, a socket with a non-empty queue is polled for writing, or its TLS handshake
      holds the request back, or a sender is on its way to request the poll. When poll is entered with the
      handshake finished and no sender on its way, POLLOUT is set. */
  lemma NoLostWakeup(s: State, acts: seq<Action>, x: nat)
    requires Init(s) && Runs(s, acts)
    requires x in After(s, acts).socks && After(s, acts).socks[x].queue > 0
    ensures var s' := After(s, acts);
            var k := s'.socks[x];
            && (k.out || (k.kind.Tls? && k.tls.sendSuppressed) || HasSender(s', x))
            && (s'.phase.Polling? && (!k.kind.Tls? || k.tls.initFinished) && !HasSender(s', x) ==> k.out)
  {
    LockInvInit(s);
    SendInvRun(s, acts);
    assert Cared(After(s, acts), x) && PollReady(After(s, acts), x);
  }

  // ----- the handshake -----

  /** While the stepper is in poll, an unfinished handshake is polled for what it waits for. */
  predicate ServesHandshake(s: State, x: nat)
  {
    s.phase.Polling? && x in s.socks && s.socks[x].kind.Tls? && !s.socks[x].tls.initFinished ==>
      && (s.socks[x].tls.lastError == WantWrite ==> s.socks[x].out)
      && (s.socks[x].tls.lastError == WantRead ==> !s.socks[x].out)
  }

  lemma ServesHandshakeStep(s: State, a: Action, x: nat)
    requires LockInv(s) && ServesHandshake(s, x) && Enabled(s, a)
    ensures ServesHandshake(Apply(s, a), x)
  {
    var s' := Apply(s, a);
    if s'.phase.Polling? && x in s'.socks {
      RegisteredIff(s, a, x);
      if Edits(a) {
        EditorsOwn(s, a);
      }
      if x in s.socks {
        SockMoved(s, a, x);
        HandshakeInterest(s.socks[x].tls, s.socks[x].out);
      }
    }
  }

  lemma {:induction false} ServesHandshakeRun(s: State, acts: seq<Action>, x: nat)
    requires LockInv(s) && ServesHandshake(s, x) && Runs(s, acts)
    ensures ServesHandshake(After(s, acts), x)
    decreases |acts|
  {
    if acts == [] {
    } else {
      LockInvStep(s, acts[0]);
      ServesHandshakeStep(s, acts[0], x);
      ServesHandshakeRun(Apply(s, acts[0]), acts[1..], x);
    }
  }

  /** In every poll of every run, a TLS handshake that waits to write is polled for writing, and one that waits to
      read is not. */
  lemma PollServesHandshake(s: State, acts: seq<Action>, x: nat)
    requires Init(s) && Runs(s, acts)
    requires var s' := After(s, acts);
             s'.phase.Polling? && x in s'.socks && s'.socks[x].kind.Tls? && !s'.socks[x].tls.initFinished
    ensures var k := After(s, acts).socks[x];
            (k.tls.lastError == WantWrite ==> k.out) && (k.tls.lastError == WantRead ==> !k.out)
  {
    LockInvInit(s);
    ServesHandshakeRun(s, acts, x);
  }
}
