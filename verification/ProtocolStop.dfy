/** Stop is never missed by Run. */
module ProtocolStop {
  import opened Wrappers
  import opened DriverProtocol
  import opened ProtocolLocks

  /** A thread that has set the stop flag and is about to bump. */
  ghost predicate HasStopper(s: State)
  {
    exists a: Actor :: Cl(s, a).Stopping?
  }

  /** In the current Step of Run, up to and including poll. */
  predicate UpToPoll(p: Phase)
  {
    p.Enter? || p.Tasks? || p.Querying? || p.Polling?
  }

  /** Once the flag is set, the pipe is readable in the current Step, or a stopper is about to make it so. */
  ghost predicate StopInv(s: State)
  {
    && LockInv(s)
    && (s.running ==> !s.phase.Outside?)
    && (s.running && s.shouldStop && UpToPoll(s.phase) ==> s.pipe > 0 || HasStopper(s))
  }

  lemma StopInvStep(s: State, a: Action)
    requires StopInv(s) && Enabled(s, a)
    ensures StopInv(Apply(s, a))
  {
    LockInvStep(s, a);
    if HasStopper(s) {
      var b: Actor :| Cl(s, b).Stopping?;
      ClientsMoved(s, a, b);
    }
    if a.Do? && a.request.StopSet? {
      ClientsMoved(s, a, a.who);
    }
  }

  lemma {:induction false} StopInvRun(s: State, acts: seq<Action>)
    requires StopInv(s) && Runs(s, acts)
    ensures StopInv(After(s, acts))
    decreases |acts|
  {
    if acts == [] {
    } else {
      StopInvStep(s, acts[0]);
      StopInvRun(Apply(s, acts[0]), acts[1..]);
    }
  }

  /** Datagrams sent into the pipe, by pausers and by Stop, less those taken out. */
  function NetBumps(acts: seq<Action>): int
  {
    if acts == [] then 0
    else (match acts[0]
          case Do(_, BumpPipe) => 1
          case Do(_, StopBump) => 1
          case Drive(Unbump) => -1
          case _ => 0) + NetBumps(acts[1..])
  }

  /** The pipe holds the bumps not yet taken out: none is lost, and none is taken twice. */
  lemma {:induction false} PipeHoldsBumps(s: State, acts: seq<Action>)
    requires Runs(s, acts)
    ensures After(s, acts).pipe == s.pipe + NetBumps(acts)
    decreases |acts|
  {
    if acts == [] {
    } else {
      PipeHoldsBumps(Apply(s, acts[0]), acts[1..]);
    }
  }

  /** Stop has set the flag, and Run has not reset it since. */
  ghost predicate StopStands(acts: seq<Action>)
  {
    exists i :: 0 <= i < |acts| && acts[i].Do? && acts[i].request.StopSet? && Drive(BeginRun) !in acts[i..]
  }

  /** The flag is set iff Stop has been called since Run began; a call that comes before is lost. */
  lemma {:induction false} FlagIffStopStands(s: State, acts: seq<Action>)
    requires Runs(s, acts)
    ensures After(s, acts).shouldStop <==> StopStands(acts) || (s.shouldStop && Drive(BeginRun) !in acts)
    decreases |acts|
  {
    if acts == [] {
    } else {
      FlagIffStopStands(Apply(s, acts[0]), acts[1..]);
      assert acts[0..] == acts;
      assert forall i | 0 < i < |acts| :: acts[i..] == acts[1..][i - 1..];
      if StopStands(acts[1..]) {
        var i :| 0 <= i < |acts[1..]| && acts[1..][i].Do? && acts[1..][i].request.StopSet?
                 && Drive(BeginRun) !in acts[1..][i..];
        assert acts[i + 1] == acts[1..][i];
      }
    }
  }

  /** Once Stop has set the flag and bumped, after Run's own reset, Run does not sleep in poll. */
  lemma NoSleepAfterStop(s: State, acts: seq<Action>)
    requires Init(s) && Runs(s, acts) && StopStands(acts)
    ensures var s' := After(s, acts);
            s'.running && s'.phase.Polling? && !HasStopper(s') && !s'.crashed
            ==> Enabled(s', Drive(PollPipe)) && !Enabled(s', Drive(PollTimeout))
                && forall x, e :: !Enabled(s', Drive(PollSocket(x, e)))
  {
    LockInvInit(s);
    StopInvRun(s, acts);
    FlagIffStopStands(s, acts);
  }

  /** Once Stop has set the flag, after Run's own reset, Run enters no further Step: at most the one it has already
      decided on. */
  lemma NoFurtherStep(s: State, front: seq<Action>, back: seq<Action>)
    requires Runs(s, front) && Runs(After(s, front), back)
    requires StopStands(front) && After(s, front).running
    requires Drive(BeginRun) !in back && Drive(BeginStep) !in back
    ensures Entries(back) <= if After(s, front).phase.Enter? then 1 else 0
  {
    FlagIffStopStands(s, front);
    EntriesWithFlag(After(s, front), back);
  }

  lemma {:induction false} EntriesWithFlag(s: State, acts: seq<Action>)
    requires s.running && s.shouldStop && Runs(s, acts)
    requires Drive(BeginRun) !in acts && Drive(BeginStep) !in acts
    ensures Entries(acts) <= if s.phase.Enter? then 1 else 0
    decreases |acts|
  {
    if acts == [] {
    } else {
      var s' := Apply(s, acts[0]);
      if s'.running {
        EntriesWithFlag(s', acts[1..]);
      } else {
        NoEntryOutside(s', acts[1..]);
      }
    }
  }

  predicate Throws(a: Action)
  {
    a.Drive? && (a.move.Throw? || (a.move.OnWritable? && a.move.write.Throws?))
  }

  /** Run does not return but for Stop or an exception. */
  lemma {:induction false} RunReturnsOnlyIf(s: State, acts: seq<Action>)
    requires s.running && !s.phase.Outside? && Runs(s, acts)
    requires Drive(BeginRun) !in acts && Drive(BeginStep) !in acts
    ensures After(s, acts).running <==> !After(s, acts).phase.Outside?
    ensures !After(s, acts).running ==>
              s.shouldStop || s.failing || exists a | a in acts :: Throws(a) || (a.Do? && a.request.StopSet?)
    decreases |acts|
  {
    if acts == [] {
    } else {
      var s' := Apply(s, acts[0]);
      assert acts[0] in acts && forall a | a in acts[1..] :: a in acts;
      if s'.running {
        RunReturnsOnlyIf(s', acts[1..]);
      } else {
        NotRunning(s', acts[1..]);
      }
    }
  }

  /** From the beginning of Run. */
  lemma RunEndsOnlyBy(s: State, acts: seq<Action>)
    requires Enabled(s, Drive(BeginRun)) && Runs(Apply(s, Drive(BeginRun)), acts)
    requires Drive(BeginRun) !in acts && Drive(BeginStep) !in acts
    ensures var s' := After(Apply(s, Drive(BeginRun)), acts);
            && (s'.running <==> !s'.phase.Outside?)
            && (!s'.running ==> exists a | a in acts :: Throws(a) || (a.Do? && a.request.StopSet?))
  {
    RunReturnsOnlyIf(Apply(s, Drive(BeginRun)), acts);
  }

  /** An exception ends Run: the flag is not even read again. */
  lemma ExceptionEndsRun(s: State, a: Action, acts: seq<Action>)
    requires Enabled(s, a) && Throws(a) && Runs(Apply(s, a), acts)
    requires Drive(BeginRun) !in acts && Drive(BeginStep) !in acts
    ensures Drive(TestFlag) !in acts && Drive(EnterStep) !in acts
  {
    LeavesRun(Apply(s, a), acts);
  }

  lemma {:induction false} LeavesRun(s: State, acts: seq<Action>)
    requires s.failing && (s.phase.Release? || s.phase.Yield? || s.phase.Yielded? || s.phase.Outside?)
    requires Runs(s, acts) && Drive(BeginRun) !in acts && Drive(BeginStep) !in acts
    ensures Drive(TestFlag) !in acts && Drive(EnterStep) !in acts
    decreases |acts|
  {
    if acts == [] {
    } else {
      LeavesRun(Apply(s, acts[0]), acts[1..]);
    }
  }

  lemma {:induction false} NotRunning(s: State, acts: seq<Action>)
    requires !s.running && s.phase.Outside? && Runs(s, acts)
    requires Drive(BeginRun) !in acts && Drive(BeginStep) !in acts
    ensures !After(s, acts).running && After(s, acts).phase.Outside?
    decreases |acts|
  {
    if acts == [] {
    } else {
      NotRunning(Apply(s, acts[0]), acts[1..]);
    }
  }

  lemma {:induction false} NoEntryOutside(s: State, acts: seq<Action>)
    requires s.phase.Outside? && Runs(s, acts)
    requires Drive(BeginRun) !in acts && Drive(BeginStep) !in acts
    ensures Entries(acts) == 0
    decreases |acts|
  {
    if acts == [] {
    } else {
      NoEntryOutside(Apply(s, acts[0]), acts[1..]);
    }
  }

  // ----- a Stop that is lost -----

  predicate SocketPhase(p: Phase)
  {
    p.Ready? || p.Calling? || p.Dropping? || p.Dropped? || p.Clearing?
  }

  /** Run is on its own: no sockets, no calls by other threads, no stop flag. */
  predicate Undisturbed(s: State)
  {
    && !s.crashed && s.running && !s.failing && !s.shouldStop && s.socks == map[] && !s.phase.Outside?
    && (forall a | a in s.client :: s.client[a].Quiet?)
    && s.mutex == (if InStep(s.phase) then Mutexes(Some(Stepper), 1, None)
                   else Mutexes(None, 0, if s.phase.Yielded? then Some(Stepper) else None))
    && (s.phase.Draining? ==> s.pipe > 0)
    && !SocketPhase(s.phase)
  }

  lemma UndisturbedStep(s: State)
    requires Undisturbed(s) && (s.phase.Polling? ==> s.pipe > 0)
    ensures Enabled(s, Drive(Onward(s.phase))) && Undisturbed(Apply(s, Drive(Onward(s.phase))))
  {
  }

  /** How far poll is, with the pipe empty. */
  function SleepRank(s: State): nat
  {
    if s.phase.Draining? && s.pipe > 0 then 9 * s.pipe - 1
    else 9 * s.pipe + match s.phase
                      case Release => 7
                      case Yield => 6
                      case Yielded => 5
                      case Test => 4
                      case Enter => 3
                      case Tasks => 2
                      case Querying => 1
                      case _ => 0
  }

  /** Left alone, Run goes to sleep. */
  lemma {:induction false} FallsAsleep(s: State) returns (acts: seq<Action>)
    requires Undisturbed(s)
    ensures Runs(s, acts) && Undisturbed(After(s, acts)) && After(s, acts).phase.Polling? && After(s, acts).pipe == 0
    ensures forall a | a in acts :: a.Drive?
    decreases SleepRank(s)
  {
    if s.phase.Polling? && s.pipe == 0 {
      acts := [];
    } else {
      var a := Drive(Onward(s.phase));
      UndisturbedStep(s);
      Once(s, a);
      acts := FallsAsleep(Apply(s, a));
      Compose(s, [a], acts);
      acts := [a] + acts;
    }
  }

  lemma CallBeforeReset(s: State) returns (acts: seq<Action>)
    requires Init(s)
    ensures acts == [Do(Other(0), StopSet), Drive(BeginRun), Do(Other(0), StopBump)]
    ensures Runs(s, acts) && Undisturbed(After(s, acts))
  {
    acts := [Do(Other(0), StopSet), Drive(BeginRun)];
    Twice(s, acts[0], acts[1]);
    Extend(s, acts, Do(Other(0), StopBump));
    acts := acts + [Do(Other(0), StopBump)];
  }

  /** A Stop that sets the flag just before Run resets it is lost: the call has returned, its datagram has been
      taken out of the pipe, and Run sleeps in poll, with no timeout. */
  lemma EarlyStopIsLost(s: State) returns (acts: seq<Action>)
    requires Init(s)
    ensures Runs(s, acts) && acts != [] && acts[0] == Do(Other(0), StopSet) && Do(Other(0), StopBump) in acts
    ensures var s' := After(s, acts);
            s'.running && s'.phase.Polling? && s'.pipe == 0 && !s'.shouldStop && !HasStopper(s')
  {
    acts := CallBeforeReset(s);
    var rest := FallsAsleep(After(s, acts));
    Compose(s, acts, rest);
    acts := acts + rest;
  }

  // ----- Run returns -----

  function StepRank(p: Phase): nat
  {
    match p
    case Outside => 0
    case Test => 1
    case Yielded => 2
    case Yield => 3
    case Enter => 14
    case _ => 3 + PhaseRank(p)
  }

  function HolderRank(c: Client): nat
  {
    match c
    case Bumping(_) => 5
    case WantStep(_) => 4
    case LeavePause(_) => 3
    case _ => 0
  }

  /** What the other threads, and the pipe, still have to do before the stepper's next move. */
  function HelpRank(s: State): (r: nat)
    ensures r <= 9
  {
    (if s.mutex.owner.Some? then ClientRank(Cl(s, s.mutex.owner.value)) else 0)
    + (if s.mutex.pause.Some? then HolderRank(Cl(s, s.mutex.pause.value)) else 0)
    + (if s.pipe == 0 then 1 else 0)
  }

  /** How far Run is from returning. */
  function ReturnRank(s: State): nat
  {
    12 * StepRank(s.phase) + HelpRank(s)
  }

  /** The next action towards the return of Run. */
  ghost function TowardsReturn(s: State): Action
    requires StopInv(s) && s.running && s.shouldStop
  {
    if s.phase.Enter? && s.mutex.owner.Some? then
      Do(s.mutex.owner.value, Own(Cl(s, s.mutex.owner.value)))
    else if s.phase.Yield? && s.mutex.pause.Some? then
      var q := s.mutex.pause.value;
      if Cl(s, q).WantStep? && s.mutex.owner.Some? then
        Do(s.mutex.owner.value, Own(Cl(s, s.mutex.owner.value)))
      else Do(q, Own(Cl(s, q)))
    else if !Cl(s, Stepper).Quiet? then
      Do(Stepper, Own(Cl(s, Stepper)))
    else if s.phase.Polling? && s.pipe == 0 then
      var w: Actor :| Cl(s, w).Stopping?; Do(w, StopBump)
    else Drive(Onward(s.phase))
  }

  lemma TowardsReturnEnabled(s: State)
    requires StopInv(s) && s.running && s.shouldStop && !s.crashed
    ensures Enabled(s, TowardsReturn(s)) && Continues(TowardsReturn(s))
  {
    assert Accounted(s, Stepper);
    if s.mutex.owner.Some? { assert Accounted(s, s.mutex.owner.value); }
    if s.mutex.pause.Some? { assert Accounted(s, s.mutex.pause.value); }
  }

  lemma DriveProgresses(s: State)
    requires StopInv(s) && s.running && s.shouldStop && Enabled(s, Drive(Onward(s.phase)))
    requires Cl(s, Stepper).Quiet?
    ensures ReturnRank(Apply(s, Drive(Onward(s.phase)))) < ReturnRank(s)
  {
    assert StepRank(PhaseAfter(s, Onward(s.phase))) < StepRank(s.phase);
  }

  lemma DoProgresses(s: State, w: Actor)
    requires StopInv(s) && s.running && s.shouldStop && Enabled(s, Do(w, Own(Cl(s, w))))
    requires s.mutex.owner == Some(w) || s.mutex.pause == Some(w) || (s.pipe == 0 && Cl(s, w).Stopping?)
    ensures ReturnRank(Apply(s, Do(w, Own(Cl(s, w))))) < ReturnRank(s)
  {
    var a := Do(w, Own(Cl(s, w)));
    assert Accounted(s, w);
    ClientsMoved(s, a, w);
    if s.mutex.owner.Some? {
      assert Accounted(s, s.mutex.owner.value);
      ClientsMoved(s, a, s.mutex.owner.value);
    }
    if s.mutex.pause.Some? {
      assert Accounted(s, s.mutex.pause.value);
      ClientsMoved(s, a, s.mutex.pause.value);
    }
  }

  /** Whose action that is. */
  lemma TowardsReturnBy(s: State)
    requires StopInv(s) && s.running && s.shouldStop
    ensures var a := TowardsReturn(s);
            match a
            case Drive(m) => m == Onward(s.phase) && Cl(s, Stepper).Quiet?
            case Do(w, r) =>
              && r == Own(Cl(s, w))
              && (s.mutex.owner == Some(w) || s.mutex.pause == Some(w) || (s.pipe == 0 && Cl(s, w).Stopping?))
  {
    assert Accounted(s, Stepper);
  }

  lemma FlagStays(s: State, a: Action)
    requires s.running && s.shouldStop && !s.phase.Outside? && Enabled(s, a)
    ensures Apply(s, a).shouldStop && (Apply(s, a).running || Apply(s, a).phase.Outside?)
  {
  }

  lemma TowardsReturnProgresses(s: State)
    requires StopInv(s) && s.running && s.shouldStop && !s.crashed
    requires Enabled(s, TowardsReturn(s))
    ensures ReturnRank(Apply(s, TowardsReturn(s))) < ReturnRank(s)
    ensures Apply(s, TowardsReturn(s)).shouldStop
    ensures Apply(s, TowardsReturn(s)).running || Apply(s, TowardsReturn(s)).phase.Outside?
  {
    var a := TowardsReturn(s);
    FlagStays(s, a);
    TowardsReturnBy(s);
    if a.Drive? {
      DriveProgresses(s);
    } else {
      DoProgresses(s, a.who);
    }
  }

  /** Once the flag is set, Run can return: the threads inside the driver need only go on with what they
      have begun, without any timeout or network event. */
  lemma {:induction false} RunReturns(s: State) returns (acts: seq<Action>)
    requires StopInv(s) && s.running && s.shouldStop && !s.crashed
    ensures Runs(s, acts) && |acts| <= ReturnRank(s)
    ensures forall i | 0 <= i < |acts| :: Continues(acts[i])
    ensures After(s, acts).crashed || After(s, acts).phase.Outside?
    decreases ReturnRank(s)
  {
    var a := TowardsReturn(s);
    TowardsReturnEnabled(s);
    TowardsReturnProgresses(s);
    StopInvStep(s, a);
    var s' := Apply(s, a);
    var rest := [];
    if !s'.crashed && s'.running {
      rest := RunReturns(s');
    }
    acts := [a] + rest;
    assert acts[1..] == rest;
  }
}
