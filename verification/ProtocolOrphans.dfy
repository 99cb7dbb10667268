/** What becomes of a sender whose socket is unregistered before it has requested the poll: it never returns, and the
    threads inside the driver need only go on for AsyncWantSend's assertion to fail. */
module ProtocolOrphans {
  import opened Wrappers
  import opened DriverProtocol
  import opened ProtocolLocks
  import opened ProtocolSend
  import opened ProtocolExact
  import opened ProtocolStop

  predicate Orphan(s: State, w: Actor, x: nat)
  {
    Pending(s, w, x) && x !in s.socks
  }

  /** How far a call is from its operation. */
  function Distance(c: Client): nat
  {
    match c
    case TryStep(_) => 5
    case WantPause(_) => 4
    case Bumping(_) => 3
    case WantStep(_) => 2
    case LeavePause(_) => 1
    case _ => 0
  }

  lemma OrphanStep(s: State, a: Action, w: Actor, x: nat)
    requires ExactInv(s) && Enabled(s, a) && Orphan(s, w, x)
    ensures Apply(s, a).crashed || (Orphan(Apply(s, a), w, x) && Distance(Cl(Apply(s, a), w)) <= Distance(Cl(s, w)))
  {
    ClientsMoved(s, a, w);
    assert RegisteredOnce(s, x);
    if a.Drive? && PhaseAfter(s, a.move).Dropping? {
      DroppingIsQuiet(s, a.move);
    }
    if a.Do? && a.request.DoOp? {
      assert !Registering(s, a.who, x);
    }
  }

  /** Whatever happens, an orphaned sender's call does not return: it stays as it is, or the program crashes. */
  lemma {:induction false} OrphanNeverReturns(s: State, acts: seq<Action>, w: Actor, x: nat)
    requires ExactInv(s) && Runs(s, acts) && Orphan(s, w, x)
    ensures var s' := After(s, acts);
            s'.crashed || (ExactInv(s') && Orphan(s', w, x) && Distance(Cl(s', w)) <= Distance(Cl(s, w)))
    decreases |acts|
  {
    if acts == [] {
    } else {
      OrphanStep(s, acts[0], w, x);
      ExactInvStep(s, acts[0]);
      var s1 := Apply(s, acts[0]);
      if s1.crashed {
        assert acts[1..] == [];
      } else {
        OrphanNeverReturns(s1, acts[1..], w, x);
      }
    }
  }

  predicate Continuing(acts: seq<Action>)
  {
    forall i | 0 <= i < |acts| :: Continues(acts[i])
  }

  /** From every reachable state the pause mutex can be given up. */
  lemma {:induction false} FreePause(s: State, q: Actor) returns (acts: seq<Action>)
    requires LockInv(s) && !s.crashed && s.mutex.pause == Some(q)
    ensures Runs(s, acts) && Continuing(acts)
    ensures After(s, acts).crashed || After(s, acts).mutex.pause.None?
    decreases Distance(Cl(s, q))
  {
    assert Accounted(s, q);
    if HasPause(Cl(s, q)) {
      if Cl(s, q).LeavePause? {
        acts := [Do(q, UnlockPause)];
        Once(s, acts[0]);
      } else if Cl(s, q).WantStep? {
        acts := PauserGetsThrough(s, q);
        if !After(s, acts).crashed {
          Extend(s, acts, Do(q, UnlockPause));
          acts := acts + [Do(q, UnlockPause)];
        }
      } else {
        ClientsMoved(s, Do(q, BumpPipe), q);
        var s1 := Apply(s, Do(q, BumpPipe));
        Once(s, Do(q, BumpPipe));
        LockInvStep(s, Do(q, BumpPipe));
        acts := FreePause(s1, q);
        Compose(s, [Do(q, BumpPipe)], acts);
        acts := [Do(q, BumpPipe)] + acts;
      }
    } else {
      acts := [Drive(GivePause)];
      Once(s, acts[0]);
    }
  }

  lemma OrphanTakesPause(s: State, w: Actor, x: nat) returns (acts: seq<Action>)
    requires ExactInv(s) && !s.crashed && Orphan(s, w, x) && Cl(s, w).WantPause? && s.mutex.pause.Some?
    ensures Runs(s, acts) && Continuing(acts)
    ensures After(s, acts).crashed || Distance(Cl(After(s, acts), w)) < Distance(Cl(s, w))
  {
    acts := FreePause(s, s.mutex.pause.value);
    OrphanNeverReturns(s, acts, w, x);
    var s1 := After(s, acts);
    if !s1.crashed && Cl(s1, w).WantPause? {
      ClientsMoved(s1, Do(w, LockPause), w);
      Extend(s, acts, Do(w, LockPause));
      acts := acts + [Do(w, LockPause)];
    }
  }

  function Onwards(s: State, w: Actor): Request
  {
    if Cl(s, w).TryStep? && s.mutex.owner.Some? && s.mutex.owner != Some(w) then TryFails else Own(Cl(s, w))
  }

  /** Brings an orphaned sender nearer to its operation, or crashes. */
  lemma OrphanAdvances(s: State, w: Actor, x: nat) returns (acts: seq<Action>)
    requires ExactInv(s) && !s.crashed && Orphan(s, w, x)
    ensures Runs(s, acts) && Continuing(acts)
    ensures After(s, acts).crashed ||
            (ExactInv(After(s, acts)) && Orphan(After(s, acts), w, x)
             && Distance(Cl(After(s, acts), w)) < Distance(Cl(s, w)))
  {
    assert Accounted(s, w);
    if Cl(s, w).WantStep? {
      acts := PauserGetsThrough(s, w);
    } else if Cl(s, w).WantPause? && s.mutex.pause.Some? {
      acts := OrphanTakesPause(s, w, x);
    } else {
      acts := [Do(w, Onwards(s, w))];
      ClientsMoved(s, acts[0], w);
      Once(s, acts[0]);
    }
    OrphanNeverReturns(s, acts, w, x);
  }

  /** An orphaned sender can crash the program: the threads inside the driver need only go on with what they have
      begun. */
  lemma {:induction false} OrphanCrashes(s: State, w: Actor, x: nat) returns (acts: seq<Action>)
    requires ExactInv(s) && !s.crashed && Orphan(s, w, x)
    ensures Runs(s, acts) && Continuing(acts) && After(s, acts).crashed
    decreases Distance(Cl(s, w))
  {
    acts := OrphanAdvances(s, w, x);
    if !After(s, acts).crashed {
      var rest := OrphanCrashes(After(s, acts), w, x);
      Compose(s, acts, rest);
      acts := acts + rest;
    }
  }

  /** The discipline is exactly what keeps AsyncWantSend's assertion: a disciplined step does not crash and leaves no
      orphan, and after any other the program can crash without another call into the driver. */
  lemma UndisciplinedStepCrashes(s: State, a: Action) returns (acts: seq<Action>)
    requires ExactInv(s) && SendersRegistered(s) && Enabled(s, a) && !Disciplined(s, a)
    ensures Runs(s, [a] + acts) && Continuing(acts) && After(s, [a] + acts).crashed
  {
    NoCrashStep(s, a);
    IndisciplineLosesSenders(s, a);
    ExactInvStep(s, a);
    var w: Actor, x: nat :| Pending(Apply(s, a), w, x) && x !in Apply(s, a).socks;
    acts := OrphanCrashes(Apply(s, a), w, x);
    Once(s, a);
    Compose(s, [a], acts);
  }

  // ----- progress without crashes -----

  /** As long as the discipline is kept, the way of a waiting pauser to the step mutex does not end in a crash. */
  lemma DisciplinedPauserGetsThrough(s: State, p: Actor) returns (acts: seq<Action>)
    requires ExactInv(s) && SendersRegistered(s) && !s.crashed && Cl(s, p).WantStep?
    ensures Runs(s, acts) && |acts| <= Rank(s) + 1 && Continuing(acts) && Drive(EnterStep) !in acts
    ensures DisciplinedRun(s, acts) ==> Cl(After(s, acts), p).LeavePause? && After(s, acts).mutex.owner == Some(p)
  {
    acts := PauserGetsThrough(s, p);
    if DisciplinedRun(s, acts) {
      DisciplinedRunDoesNotCrash(s, acts);
    }
  }

  /** Nor does the way of Run to its return. */
  lemma DisciplinedRunReturns(s: State) returns (acts: seq<Action>)
    requires ExactInv(s) && SendersRegistered(s) && StopInv(s) && s.running && s.shouldStop && !s.crashed
    ensures Runs(s, acts) && |acts| <= ReturnRank(s) && Continuing(acts)
    ensures DisciplinedRun(s, acts) ==> After(s, acts).phase.Outside? && !After(s, acts).crashed
  {
    acts := RunReturns(s);
    if DisciplinedRun(s, acts) {
      DisciplinedRunDoesNotCrash(s, acts);
    }
  }
}
