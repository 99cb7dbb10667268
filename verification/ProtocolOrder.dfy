/** The program order of each thread, told by its actions alone: what can follow what, and when. */
module ProtocolOrder {
  import opened Wrappers
  import opened DriverProtocol
  import opened ProtocolLocks
  import opened ProtocolSend
  import opened ProtocolExact

  predicate ClientsOnly(acts: seq<Action>)
  {
    forall i | 0 <= i < |acts| :: acts[i].Do?
  }

  /** Other threads, and the stepper's own calls, do not move the stepper. */
  lemma {:induction false} StepperKept(s: State, acts: seq<Action>)
    requires LockInv(s) && Runs(s, acts) && ClientsOnly(acts)
    ensures LockInv(After(s, acts))
    ensures After(s, acts).phase == s.phase
    decreases |acts|
  {
    if acts == [] {
    } else {
      LockInvStep(s, acts[0]);
      StepperKept(Apply(s, acts[0]), acts[1..]);
    }
  }

  predicate Begins(m: Move)
  {
    m.BeginStep? || m.BeginRun?
  }

  /** The stepper is not inside a call of its own into the driver. */
  predicate Free(s: State)
  {
    Cl(s, Stepper).Quiet?
  }

  /** After m, taken in s, the stepper can take next in s'. */
  predicate Follows(s: State, m: Move, s': State, next: Move)
    requires CanDrive(s, m)
  {
    match m
    case BeginStep => next.EnterStep? && s'.mutex.owner.None?
    case BeginRun => next.TestFlag?
    case TestFlag => if s.shouldStop then Begins(next) && Free(s') else next.EnterStep? && s'.mutex.owner.None?
    case EnterStep => Free(s') && (next.RunTask? || next.FinishTasks? || next.Throw?)
    case RunTask => Free(s') && (next.RunTask? || next.FinishTasks? || next.Throw?)
    case FinishTasks => next.QuerySockets?
    case QuerySockets => PollFollows(s', next)
    case PollPipe => next.Unbump? || next.Throw?
    case PollSocket(x, event) => x in s'.socks && (next.Throw? || TaskFollows(s'.socks[x].kind, event, next))
    case PollTimeout => next.LeaveStep?
    case Unbump => next.LeaveStep?
    case OnReadable(Deliver, _, _) =>
      Free(s') && (next.HandlerReturns? || next.Throw? || (next.HandlerFails? && s.phase.sock in s'.socks))
    case OnReadable(Nothing, _, _) => next.LeaveStep?
    case OnReadable(Fail, _, _) => ErrorFollows(s, s', next)
    case OnError => ErrorFollows(s, s', next)
    case HandlerFails => ErrorFollows(s, s', next)
    case OnWritable(result, _, _) =>
      if !result.Throws? && (s.socks[s.phase.sock].queue == 0 || (result.Whole? && s.socks[s.phase.sock].queue == 1))
      then next.ClearBit? else next.LeaveStep?
    case DropDone => Free(s') && (next.HandlerReturns? || next.Throw?)
    case HandlerReturns => next.LeaveStep?
    case Throw => next.LeaveStep?
    case ClearBit => next.LeaveStep?
    case LeaveStep => next.TakePause? && s'.mutex.pause.None?
    case TakePause => next.GivePause?
    case GivePause => if s.running && !s.failing then next.TestFlag? else Begins(next) && Free(s')
  }

  predicate PollFollows(s': State, next: Move)
  {
    match next
    case PollPipe => s'.pipe > 0
    case PollSocket(x, event) => s'.pipe == 0 && x in s'.socks && (event.Writable? ==> s'.socks[x].out)
    case PollTimeout => s'.pipe == 0
    case Throw => true
    case _ => false
  }

  predicate TaskFollows(kind: Kind, event: Event, next: Move)
  {
    match event
    case Readable => next.OnReadable? && (next.read.Nothing? ==> kind.Tls?)
    case Writable => next.OnWritable? && (next.write.Partial? ==> Stream(kind))
    case Hangup => next.OnError?
  }

  /** A stream socket is disconnected, others carry on. */
  predicate ErrorFollows(s: State, s': State, next: Move)
    requires s.phase.Ready? || s.phase.Calling?
    requires s.phase.sock in s.socks
  {
    if Stream(s.socks[s.phase.sock].kind) then next.DropDone? && Free(s') else next.LeaveStep?
  }

  /** What is known when the stepper comes to its next move. */
  ghost predicate Comes(s: State, m: Move, s': State)
  {
    && LockInv(s) && CanDrive(s, m) && LockInv(s')
    && s'.phase == PhaseAfter(s, m)
  }

  lemma OrderOuter(s: State, m: Move, s': State, next: Move)
    requires Comes(s, m, s')
    requires m.BeginStep? || m.BeginRun? || m.TestFlag? || m.LeaveStep? || m.TakePause? || m.GivePause?
    ensures CanDrive(s', next) <==> Follows(s, m, s', next)
  {
    assert Accounted(s, Stepper) && Accounted(s', Stepper);
  }

  lemma OrderInner(s: State, m: Move, s': State, next: Move)
    requires Comes(s, m, s')
    requires m.EnterStep? || m.RunTask? || m.FinishTasks? || m.QuerySockets? || m.PollPipe? || m.PollTimeout?
             || m.Unbump?
    ensures CanDrive(s', next) <==> Follows(s, m, s', next)
  {
    assert Accounted(s, Stepper) && Accounted(s', Stepper);
  }

  lemma OrderPoll(s: State, m: Move, s': State, next: Move)
    requires Comes(s, m, s')
    requires m.PollSocket?
    ensures CanDrive(s', next) <==> Follows(s, m, s', next)
  {
    assert Accounted(s, Stepper) && Accounted(s', Stepper);
  }

  lemma OrderRead(s: State, m: Move, s': State, next: Move)
    requires Comes(s, m, s')
    requires m.OnReadable? || m.OnError? || m.HandlerFails?
    ensures CanDrive(s', next) <==> Follows(s, m, s', next)
  {
    assert Accounted(s, Stepper) && Accounted(s', Stepper);
  }

  lemma OrderLast(s: State, m: Move, s': State, next: Move)
    requires Comes(s, m, s')
    requires m.OnWritable? || m.DropDone? || m.HandlerReturns? || m.Throw? || m.ClearBit?
    ensures CanDrive(s', next) <==> Follows(s, m, s', next)
  {
    assert Accounted(s, Stepper) && Accounted(s', Stepper);
  }

  /** In every run, whatever other threads do between two moves of the stepper. */
  lemma ProgramOrder(s: State, m: Move, acts: seq<Action>, next: Move)
    requires LockInv(s) && Enabled(s, Drive(m))
    requires Runs(Apply(s, Drive(m)), acts) && ClientsOnly(acts)
    ensures var s' := After(Apply(s, Drive(m)), acts);
            Enabled(s', Drive(next)) <==> !s'.crashed && Follows(s, m, s', next)
  {
    LockInvStep(s, Drive(m));
    StepperKept(Apply(s, Drive(m)), acts);
    var s' := After(Apply(s, Drive(m)), acts);
    if m.PollSocket? {
      OrderPoll(s, m, s', next);
    } else if m.OnReadable? || m.OnError? || m.HandlerFails? {
      OrderRead(s, m, s', next);
    } else if m.OnWritable? || m.DropDone? || m.HandlerReturns? || m.Throw? || m.ClearBit? {
      OrderLast(s, m, s', next);
    } else if m.EnterStep? || m.RunTask? || m.FinishTasks? || m.QuerySockets? || m.PollPipe? || m.PollTimeout?
              || m.Unbump? {
      OrderInner(s, m, s', next);
    } else {
      OrderOuter(s, m, s', next);
    }
  }

  // ----- calls into the driver -----

  /** Neither this thread's calls nor, if it is the stepper, its moves. */
  predicate Without(acts: seq<Action>, w: Actor)
  {
    forall i | 0 <= i < |acts| :: ActorOf(acts[i]) != w
  }

  lemma {:induction false} CallerKept(s: State, acts: seq<Action>, w: Actor)
    requires LockInv(s) && Runs(s, acts) && Without(acts, w)
    ensures LockInv(After(s, acts)) && Cl(After(s, acts), w) == Cl(s, w)
    ensures w.Stepper? ==> After(s, acts).phase == s.phase
    decreases |acts|
  {
    if acts == [] {
    } else {
      ClientsMoved(s, acts[0], w);
      LockInvStep(s, acts[0]);
      CallerKept(Apply(s, acts[0]), acts[1..], w);
    }
  }

  /** User code can begin this call. */
  predicate NewCall(s': State, w: Actor, r: Request)
  {
    && (w.Stepper? ==> s'.phase.Outside? || s'.phase.Tasks? || s'.phase.Calling? || s'.phase.Dropped?)
    && match r
       case Send(x, _) => x in s'.built && (x in s'.socks ==> !s'.socks[x].kind.Acceptor?)
       case Call(op) => !op.WantSend? && (op.Register? ==> op.sock !in s'.used)
       case StopSet => true
       case _ => false
  }

  /** try_lock succeeds or fails. */
  predicate TryFollows(s': State, w: Actor, next: Request)
  {
    || (next.TryLock? && (s'.mutex.owner.None? || s'.mutex.owner == Some(w)))
    || (next.TryFails? && s'.mutex.owner != Some(w))
  }

  /** After r, taken by thread w in s, the thread can take next in s'. */
  predicate CallFollows(s: State, w: Actor, r: Request, s': State, next: Request)
  {
    match r
    case Send(x, orphanEmpty) =>
      if (if x in s.socks then s.socks[x].queue == 0 else orphanEmpty) then TryFollows(s', w, next)
      else NewCall(s', w, next)
    case Call(_) => TryFollows(s', w, next)
    case TryLock => next.DoOp?
    case TryFails => next.LockPause? && s'.mutex.pause.None?
    case LockPause => next.BumpPipe?
    case BumpPipe => next.LockStep? && s'.mutex.owner.None?
    case LockStep => next.UnlockPause?
    case UnlockPause => next.DoOp?
    case DoOp => next.Unlock?
    case Unlock => NewCall(s', w, next)
    case StopSet => next.StopBump?
    case StopBump => NewCall(s', w, next)
  }

  lemma RequestOrderStep(s: State, w: Actor, r: Request, s': State, next: Request)
    requires LockInv(s') && CanDo(s, w, r) && Cl(s', w) == Next(s, w, r)
    ensures CanDo(s', w, next) <==> CallFollows(s, w, r, s', next)
  {
    assert Accounted(s', w);
  }

  /** The order of a thread's requests in every run, whatever others do in between; the operation stays the one
      that was called for. */
  lemma RequestOrder(s: State, w: Actor, r: Request, acts: seq<Action>, next: Request)
    requires LockInv(s) && Enabled(s, Do(w, r))
    requires Runs(Apply(s, Do(w, r)), acts) && Without(acts, w)
    ensures var s' := After(Apply(s, Do(w, r)), acts);
            && (Enabled(s', Do(w, next)) <==> !s'.crashed && CallFollows(s, w, r, s', next))
            && (r.Call? ==> OpOf(Cl(s', w)) == Some(r.op))
            && (r.Send? && OpOf(Cl(s', w)).Some? ==> OpOf(Cl(s', w)) == Some(WantSend(r.sock)))
            && (OpOf(Cl(s, w)).Some? && !r.DoOp? ==> OpOf(Cl(s', w)) == OpOf(Cl(s, w)))
  {
    LockInvStep(s, Do(w, r));
    ClientsMoved(s, Do(w, r), w);
    CallerKept(Apply(s, Do(w, r)), acts, w);
    RequestOrderStep(s, w, r, After(Apply(s, Do(w, r)), acts), next);
  }

  // ----- queues and callbacks -----

  lemma {:induction false} GoneForGood(s: State, acts: seq<Action>, x: nat)
    requires ExactInv(s) && Runs(s, acts) && x in s.built && x !in s.socks
    ensures x !in After(s, acts).socks
    decreases |acts|
  {
    if acts == [] {
    } else {
      ExactInvStep(s, acts[0]);
      RegisteredIff(s, acts[0], x);
      assert RegisteredOnce(s, x);
      if acts[0].Do? {
        assert !Registering(s, acts[0].who, x);
      }
      GoneForGood(Apply(s, acts[0]), acts[1..], x);
    }
  }

  /** Sends on socket x, less the buffers that the driver has taken off its queue. */
  ghost function NetSends(s: State, acts: seq<Action>, x: nat): int
    requires Runs(s, acts)
    decreases |acts|
  {
    if acts == [] then 0
    else
      (if acts[0].Do? && acts[0].request.Send? && acts[0].request.sock == x then 1 else 0)
      - (if acts[0].Drive? && acts[0].move.OnWritable? && acts[0].move.write.Whole? && s.phase.sock == x
            && x in s.socks && s.socks[x].queue > 0 then 1 else 0)
      + NetSends(Apply(s, acts[0]), acts[1..], x)
  }

  /** No Send call is lost or counted twice, as long as the socket is registered. */
  lemma {:induction false} QueueCountsSends(s: State, acts: seq<Action>, x: nat)
    requires ExactInv(s) && Runs(s, acts) && x in s.socks && x in After(s, acts).socks
    ensures After(s, acts).socks[x].queue == s.socks[x].queue + NetSends(s, acts, x)
    decreases |acts|
  {
    if acts == [] {
    } else {
      var a, s' := acts[0], Apply(s, acts[0]);
      ExactInvStep(s, a);
      assert RegisteredOnce(s, x) && RegisteredOnce(s', x);
      if x !in s'.socks {
        RegisteredIff(s, a, x);
        GoneForGood(s', acts[1..], x);
      }
      if a.Do? {
        assert !Registering(s, a.who, x);
      }
      SockMoved(s, a, x);
      QueueCountsSends(s', acts[1..], x);
    }
  }

  function CallbackOf(s: State, a: Action): seq<(nat, Callback)>
    requires Enabled(s, a)
  {
    if !a.Drive? then []
    else if a.move.OnReadable? && a.move.read.Deliver? then [(s.phase.sock, Received)]
    else if a.move.OnWritable? then [(s.phase.sock, Wrote)]
    else if a.move.DropDone? then [(s.phase.sock, Disconnected)]
    else []
  }

  lemma CallbackRecorded(s: State, a: Action)
    requires Enabled(s, a)
    ensures Apply(s, a).calls == s.calls + CallbackOf(s, a)
  {
  }

  /** The callbacks that a run of the driver makes. */
  ghost function Callbacks(s: State, acts: seq<Action>): seq<(nat, Callback)>
    requires Runs(s, acts)
    decreases |acts|
  {
    if acts == [] then [] else CallbackOf(s, acts[0]) + Callbacks(Apply(s, acts[0]), acts[1..])
  }

  lemma Associative<T>(a: seq<T>, b: seq<T>, c: seq<T>)
    ensures a + b + c == a + (b + c)
  {
  }

  lemma {:induction false} HistoryIsCallbacks(s: State, acts: seq<Action>)
    requires Runs(s, acts)
    ensures After(s, acts).calls == s.calls + Callbacks(s, acts)
    decreases |acts|
  {
    if acts == [] {
    } else {
      CallbackRecorded(s, acts[0]);
      HistoryIsCallbacks(Apply(s, acts[0]), acts[1..]);
      Associative(s.calls, CallbackOf(s, acts[0]), Callbacks(Apply(s, acts[0]), acts[1..]));
    }
  }
}
