/** Without TLS the POLLOUT bit is exact, on every interleaving. Of the program's assertions about it, only
    AsyncWantSend's can fail, and only for a socket that is no longer registered. */
module ProtocolExact {
  import opened Wrappers
  import opened WriteInterest
  import opened DriverProtocol
  import opened ProtocolLocks
  import opened ProtocolSend

  predicate Registering(s: State, a: Actor, x: nat)
  {
    var op := OpOf(Cl(s, a));
    op.Some? && op.value.Register? && op.value.sock == x
  }

  /** A socket registers once, from its constructor, and is used only afterwards. */
  ghost predicate RegisteredOnce(s: State, x: nat)
  {
    && (x in s.socks ==> x in s.built)
    && (x in s.built ==> x in s.used)
    && (forall a: Actor :: Registering(s, a, x) ==> x in s.used && x !in s.built)
    && (forall a: Actor :: Pending(s, a, x) ==> x in s.built)
    && (forall a: Actor, b: Actor :: Registering(s, a, x) && Registering(s, b, x) ==> a == b)
  }

  ghost predicate SendersRegistered(s: State)
  {
    forall a: Actor, x: nat :: Pending(s, a, x) ==> x in s.socks
  }

  /** No send begins on a socket that is not registered, and no socket is unregistered, by whomever, while a
      send is in flight on it. */
  ghost predicate Disciplined(s: State, a: Action)
    requires Enabled(s, a)
  {
    a.Do? ==>
      && (a.request.Send? ==> a.request.sock in s.socks || !a.request.orphanEmpty)
      && (a.request.DoOp? && Cl(s, a.who).op.Unregister? && Cl(s, a.who).op.sock in s.socks
          ==> !HasSender(s, Cl(s, a.who).op.sock))
  }

  ghost predicate DisciplinedRun(s: State, acts: seq<Action>)
    requires Runs(s, acts)
    decreases |acts|
  {
    acts == [] || (Disciplined(s, acts[0]) && DisciplinedRun(Apply(s, acts[0]), acts[1..]))
  }

  lemma PendingBefore(s: State, a: Action, b: Actor, x: nat)
    requires Enabled(s, a) && Pending(Apply(s, a), b, x)
    ensures Pending(s, b, x) || (a.Do? && a.who == b && a.request.Send? && a.request.sock == x
                                 && (x in s.socks ==> s.socks[x].queue == 0)
                                 && (x !in s.socks ==> a.request.orphanEmpty))
    ensures !(a.Do? && a.who == b && a.request.DoOp?)
  {
  }

  lemma DisciplineKeepsSenders(s: State, a: Action)
    requires LockInv(s) && SendersRegistered(s) && Enabled(s, a) && Disciplined(s, a)
    ensures SendersRegistered(Apply(s, a))
  {
    forall b: Actor, x: nat | Pending(Apply(s, a), b, x) ensures x in Apply(s, a).socks {
      PendingBefore(s, a, b, x);
    }
  }

  lemma IndisciplineLosesSenders(s: State, a: Action)
    requires LockInv(s) && SendersRegistered(s) && Enabled(s, a) && !Disciplined(s, a)
    ensures !SendersRegistered(Apply(s, a))
  {
    ClientsMoved(s, a, a.who);
    if a.request.Send? {
      assert Pending(Apply(s, a), a.who, a.request.sock);
    } else {
      var x := Cl(s, a.who).op.sock;
      SenderKept(s, a, x);
      var b: Actor :| Pending(Apply(s, a), b, x);
      assert x !in Apply(s, a).socks;
    }
  }

  /** Every pending sender finds its pollfd entry exactly as long as the discipline is kept. */
  lemma SendersRegisteredIffDisciplined(s: State, a: Action)
    requires LockInv(s) && SendersRegistered(s) && Enabled(s, a)
    ensures SendersRegistered(Apply(s, a)) <==> Disciplined(s, a)
  {
    if Disciplined(s, a) {
      DisciplineKeepsSenders(s, a);
    } else {
      IndisciplineLosesSenders(s, a);
    }
  }

  /** POLLOUT is set iff the queue is non-empty and no sender is on its way to set it, except between
      DriverOnWritable's answer and the clearing of the bit; there is at most one such sender. */
  ghost predicate Exact(s: State, x: nat)
  {
    x in s.socks && !s.socks[x].kind.Tls? ==>
      && (s.phase == Clearing(x) || (s.socks[x].out <==> s.socks[x].queue > 0 && !HasSender(s, x)))
      && (HasSender(s, x) ==> s.socks[x].queue > 0)
      && (s.phase == Ready(x, Writable) ==> s.socks[x].out)
      && (forall a: Actor, b: Actor :: Pending(s, a, x) && Pending(s, b, x) ==> a == b)
  }

  ghost predicate ExactInv(s: State)
  {
    && SendInv(s)
    && (forall x :: RegisteredOnce(s, x))
    && (forall x :: Exact(s, x))
  }

  lemma SendersBuiltStep(s: State, a: Action, x: nat)
    requires Enabled(s, a) && forall b: Actor :: Pending(s, b, x) ==> x in s.built
    ensures forall b: Actor :: Pending(Apply(s, a), b, x) ==> x in Apply(s, a).built
  {
    forall b: Actor | Pending(Apply(s, a), b, x) ensures x in s.built {
      PendingBefore(s, a, b, x);
    }
  }

  lemma RegisteredOnceStep(s: State, a: Action, x: nat)
    requires LockInv(s) && RegisteredOnce(s, x) && Enabled(s, a)
    ensures RegisteredOnce(Apply(s, a), x)
  {
    var s' := Apply(s, a);
    forall b: Actor | Registering(s', b, x)
      ensures Registering(s, b, x) || (a.Do? && a.who == b && a.request.Call? && x !in s.used)
      ensures !(a.Do? && a.who == b && a.request.DoOp?)
    {
      ClientsMoved(s, a, b);
    }
    SendersBuiltStep(s, a, x);
    if a.Do? && a.request.DoOp? {
      assert Registering(s, a.who, x) <==> Cl(s, a.who).op.Register? && Cl(s, a.who).op.sock == x;
    }
  }

  lemma UniqueStep(s: State, a: Action, x: nat)
    requires ExactInv(s) && Enabled(s, a)
    requires x in Apply(s, a).socks && !Apply(s, a).socks[x].kind.Tls?
    ensures forall b: Actor, c: Actor :: Pending(Apply(s, a), b, x) && Pending(Apply(s, a), c, x) ==> b == c
    ensures HasSender(Apply(s, a), x) ==> Apply(s, a).socks[x].queue > 0
  {
    var s' := Apply(s, a);
    assert Exact(s, x) && RegisteredOnce(s, x);
    forall b: Actor | Pending(s', b, x)
      ensures Pending(s, b, x) || (a.Do? && a.who == b && a.request.Send? && s.socks[x].queue == 0 && !HasSender(s, x))
      ensures s'.socks[x].queue > 0
    {
      PendingBefore(s, a, b, x);
      if Pending(s, b, x) {
        assert HasSender(s, x);
        if !(a.Do? && a.request.DoOp? && Registering(s, a.who, x)) {
          SockMoved(s, a, x);
        }
      }
    }
  }

  /** What an action does to the existence of pending senders. */
  lemma SenderMoved(s: State, a: Action, x: nat)
    requires ExactInv(s) && Enabled(s, a) && x in s.socks && !s.socks[x].kind.Tls?
    ensures a.Do? && a.request.DoOp? && Pending(s, a.who, x) ==> !HasSender(Apply(s, a), x)
    ensures a.Do? && a.request.Send? && a.request.sock == x && s.socks[x].queue == 0 ==> HasSender(Apply(s, a), x)
    ensures !(a.Do? && a.request.DoOp? && Pending(s, a.who, x))
            && !(a.Do? && a.request.Send? && a.request.sock == x && s.socks[x].queue == 0)
            ==> (HasSender(Apply(s, a), x) <==> HasSender(s, x))
  {
    var s' := Apply(s, a);
    assert Exact(s, x);
    if a.Do? && a.request.Send? && a.request.sock == x && s.socks[x].queue == 0 {
      EnqueueIsPending(s, a.who, x, a.request.orphanEmpty);
    } else {
      forall b: Actor | Pending(s', b, x)
        ensures Pending(s, b, x) && !(a.Do? && a.who == b && a.request.DoOp?)
      {
        PendingBefore(s, a, b, x);
      }
      if HasSender(s, x) {
        SenderKept(s, a, x);
      }
    }
  }

  lemma BitStep(s: State, a: Action, x: nat)
    requires ExactInv(s) && Enabled(s, a)
    requires x in s.socks && x in Apply(s, a).socks && !s.socks[x].kind.Tls?
    ensures var s' := Apply(s, a);
            && (s'.phase == Clearing(x) || (s'.socks[x].out <==> s'.socks[x].queue > 0 && !HasSender(s', x)))
            && (s'.phase == Ready(x, Writable) ==> s'.socks[x].out)
  {
    assert Exact(s, x) && RegisteredOnce(s, x);
    assert Accounted(s, Stepper) && Accounted(s, ActorOf(a));
    if a.Do? && a.request.DoOp? {
      assert !Registering(s, a.who, x);
      assert Pending(s, a.who, x) ==> HasSender(s, x);
    }
    SockMoved(s, a, x);
    SenderMoved(s, a, x);
  }

  lemma ExactStep(s: State, a: Action, x: nat)
    requires ExactInv(s) && Enabled(s, a)
    ensures Exact(Apply(s, a), x)
  {
    var s' := Apply(s, a);
    if x in s'.socks && !s'.socks[x].kind.Tls? {
      UniqueStep(s, a, x);
      if x in s.socks {
        if a.Do? && a.request.DoOp? {
          assert RegisteredOnce(s, x);
          assert !Registering(s, a.who, x);
        }
        SockMoved(s, a, x);
        BitStep(s, a, x);
      } else {
        assert Accounted(s, Stepper) && Accounted(s, a.who);
        assert RegisteredOnce(s, x);
        assert Registering(s, a.who, x);
      }
    }
  }

  lemma ExactInvStep(s: State, a: Action)
    requires ExactInv(s) && Enabled(s, a)
    ensures ExactInv(Apply(s, a))
  {
    SendInvStep(s, a);
    forall x ensures RegisteredOnce(Apply(s, a), x) { RegisteredOnceStep(s, a, x); }
    forall x ensures Exact(Apply(s, a), x) { ExactStep(s, a, x); }
  }

  /** "uncalled sendto" is never thrown and SocketImpl::DriverPending never called; AsyncWantSend's assertion fails
      iff the socket is not registered. */
  lemma CrashesIff(s: State, a: Action)
    requires ExactInv(s) && Enabled(s, a)
    ensures Crashes(s, a) <==>
            a.Do? && a.request.DoOp? && Cl(s, a.who).op.WantSend? && Cl(s, a.who).op.sock !in s.socks
  {
    if a.Drive? && a.move.OnWritable? {
      assert Exact(s, s.phase.sock);
    }
  }

  lemma NoCrashStep(s: State, a: Action)
    requires ExactInv(s) && SendersRegistered(s) && Enabled(s, a)
    ensures !Crashes(s, a)
  {
    CrashesIff(s, a);
    if a.Do? && a.request.DoOp? && Cl(s, a.who).op.WantSend? {
      assert Pending(s, a.who, Cl(s, a.who).op.sock);
    }
  }

  lemma ExactInvInit(s: State)
    requires Init(s)
    ensures ExactInv(s) && SendersRegistered(s)
  {
    LockInvInit(s);
  }

  lemma {:induction false} ExactInvRun(s: State, acts: seq<Action>)
    requires ExactInv(s) && Runs(s, acts)
    ensures ExactInv(After(s, acts))
    decreases |acts|
  {
    if acts == [] {
    } else {
      ExactInvStep(s, acts[0]);
      ExactInvRun(Apply(s, acts[0]), acts[1..]);
    }
  }

  lemma {:induction false} DisciplinedRunDoesNotCrash(s: State, acts: seq<Action>)
    requires ExactInv(s) && SendersRegistered(s) && !s.crashed && Runs(s, acts) && DisciplinedRun(s, acts)
    ensures SendersRegistered(After(s, acts)) && !After(s, acts).crashed
    decreases |acts|
  {
    if acts == [] {
    } else {
      ExactInvStep(s, acts[0]);
      DisciplineKeepsSenders(s, acts[0]);
      NoCrashStep(s, acts[0]);
      DisciplinedRunDoesNotCrash(Apply(s, acts[0]), acts[1..]);
    }
  }

  /** In every run the POLLOUT bit of every registered socket without TLS is exact; in every disciplined run
      AsyncWantSend finds its pollfd too. */
  lemma ExactInterest(s: State, acts: seq<Action>, x: nat)
    requires Init(s) && Runs(s, acts)
    ensures Exact(After(s, acts), x)
    ensures DisciplinedRun(s, acts) ==> !After(s, acts).crashed
  {
    ExactInvInit(s);
    ExactInvRun(s, acts);
    if DisciplinedRun(s, acts) {
      DisciplinedRunDoesNotCrash(s, acts);
    }
  }
}
