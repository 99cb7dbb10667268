/** The lock-and-wakeup protocol between the thread in Driver::Step/Run and any number of
    client threads, as a labelled transition system.

    Each action is one atomic access to shared state: a mutex operation, a datagram in or out of the
    signalling pipe, the stop flag, one critical section of a send queue, or an access to the tables
    guarded by the step mutex. User code (tasks, handlers, client threads) is arbitrary: it may take any
    client action at any time. Operating system and OpenSSL answers are parameters of the actions. */
module DriverProtocol {
  import opened Wrappers
  import opened WriteInterest

  /** The one thread that may be inside Step or Run, and all others. */
  datatype Actor = Stepper | Other(id: nat)

  datatype Kind = Udp | Tcp | Tls | Acceptor

  predicate Stream(kind: Kind)
  {
    kind.Tcp? || kind.Tls?
  }

  /** A registered socket: its send queue length, the POLLOUT bit of its pollfd, its TLS state. */
  datatype Sock = Sock(kind: Kind, queue: nat, out: bool, tls: TlsState)

  /** What a client does while it holds the step mutex through a PauseGuard. */
  datatype Op =
    | WantSend(sock: nat)
    | Register(sock: nat, kind: Kind, tls: TlsState)
    | Unregister(sock: nat)
    | EditToDos

  /** Progress of one thread's call into the driver. */
  datatype Client =
    | Quiet              // not inside a driver call
    | TryStep(op: Op)    // PauseGuard: about to try_lock the step mutex
    | WantPause(op: Op)  // blocked on the pause mutex
    | Bumping(op: Op)    // holds the pause mutex, about to bump
    | WantStep(op: Op)   // holds the pause mutex, has bumped, blocked on the step mutex
    | LeavePause(op: Op) // holds both, about to release the pause mutex
    | InOp(op: Op)       // holds the step mutex, operation not done
    | Leaving            // holds the step mutex, operation done
    | Stopping           // Stop: flag set, bump to come

  datatype Event = Readable | Writable | Hangup

  /** Where the stepper is. */
  datatype Phase =
    | Outside             // not inside Step or Run
    | Test                // Run: about to read the stop flag
    | Enter               // StepGuard: blocked on the step mutex
    | Tasks               // StepTodos: user tasks may be running
    | Querying            // about to query the sockets
    | Polling             // inside poll
    | Draining            // pipe readable, about to unbump
    | Ready(sock: nat, event: Event) // DoOneSocketTask chose this socket
    | Calling(sock: nat)  // receive/connect handler of the socket is running
    | Dropping(sock: nat) // DriverDisconnect: unregistering the socket
    | Dropped(sock: nat)  // disconnect handler of the socket is running
    | Clearing(sock: nat) // send queue emptied, POLLOUT still set
    | Release             // ~StepGuard: about to unlock the step mutex
    | Yield               // ~StepGuard: blocked on the pause mutex
    | Yielded             // ~StepGuard: holds the pause mutex

  datatype Callback = Received | Wrote | Disconnected

  /** The recursive step mutex and the pause mutex. */
  datatype Mutexes = Mutexes(owner: Option<Actor>, depth: nat, pause: Option<Actor>)

  datatype State = State(
    mutex: Mutexes,
    pipe: nat,                    // datagrams in the signalling pipe
    shouldStop: bool,
    phase: Phase,
    running: bool,                // inside Run
    failing: bool,                // an exception is leaving Step
    client: map<Actor, Client>,   // absent: Quiet
    socks: map<nat, Sock>,        // the registered sockets
    used: set<nat>,               // sockets whose constructor has started
    built: set<nat>,              // sockets that have been registered; user code can reach no others
    todos: nat,                   // version of the ToDo list
    crashed: bool,                // an assertion failed or "uncalled sendto" was thrown
    calls: seq<(nat, Callback)>)  // history: callbacks invoked

  datatype WriteResult = Partial | Whole | Throws
  datatype ReadResult = Deliver | Nothing | Fail

  /** Actions of the thread inside Step or Run. */
  datatype Move =
    | BeginStep | BeginRun | TestFlag | EnterStep | RunTask | FinishTasks | QuerySockets
    | PollPipe | PollSocket(sock: nat, event: Event) | PollTimeout
    | Unbump
    | OnReadable(read: ReadResult, finished: bool, error: SslError)
    | OnWritable(write: WriteResult, finished: bool, error: SslError)
    | OnError
    | HandlerReturns | HandlerFails | DropDone | Throw | ClearBit
    | LeaveStep | TakePause | GivePause

  /** Actions of any thread calling into the driver. */
  datatype Request =
    | Send(sock: nat, orphanEmpty: bool)
    | Call(op: Op)
    | TryLock | TryFails
    | LockPause | BumpPipe | LockStep | UnlockPause
    | DoOp | Unlock
    | StopSet | StopBump

  datatype Action = Drive(move: Move) | Do(who: Actor, request: Request)

  function Cl(s: State, a: Actor): Client
  {
    if a in s.client then s.client[a] else Quiet
  }

  /** The stepper holds one level of the step mutex. */
  predicate InStep(p: Phase)
  {
    !(p.Outside? || p.Test? || p.Enter? || p.Yield? || p.Yielded?)
  }

  /** User code is running in this thread and free to call into the driver. */
  predicate UserCode(s: State, a: Actor)
  {
    && Cl(s, a).Quiet?
    && (a.Stepper? ==> s.phase.Outside? || s.phase.Tasks? || s.phase.Calling? || s.phase.Dropped?)
  }

  predicate CanDrive(s: State, m: Move)
  {
    match m
    case BeginStep => s.phase.Outside? && Cl(s, Stepper).Quiet?
    case BeginRun => s.phase.Outside? && Cl(s, Stepper).Quiet?
    case TestFlag => s.phase.Test?
    case EnterStep => s.phase.Enter? && s.mutex.owner.None?
    case RunTask => s.phase.Tasks? && Cl(s, Stepper).Quiet?
    case FinishTasks => s.phase.Tasks? && Cl(s, Stepper).Quiet?
    case QuerySockets => s.phase.Querying?
    case PollPipe => s.phase.Polling? && s.pipe > 0
    case PollSocket(x, e) => s.phase.Polling? && s.pipe == 0 && x in s.socks && (e.Writable? ==> s.socks[x].out)
    case PollTimeout => s.phase.Polling? && s.pipe == 0
    case Unbump => s.phase.Draining? && s.pipe > 0
    case OnReadable(r, _, _) =>
      && s.phase.Ready? && s.phase.event.Readable? && s.phase.sock in s.socks
      && (r.Nothing? ==> s.socks[s.phase.sock].kind.Tls?)
    case OnWritable(r, _, _) =>
      && s.phase.Ready? && s.phase.event.Writable? && s.phase.sock in s.socks
      && (r.Partial? ==> s.socks[s.phase.sock].kind.Tcp? || s.socks[s.phase.sock].kind.Tls?)
    case OnError => s.phase.Ready? && s.phase.event.Hangup? && s.phase.sock in s.socks
    case HandlerReturns => (s.phase.Calling? || s.phase.Dropped?) && Cl(s, Stepper).Quiet?
    case HandlerFails => s.phase.Calling? && s.phase.sock in s.socks && Cl(s, Stepper).Quiet?
    case DropDone => s.phase.Dropping? && Cl(s, Stepper).Quiet?
    case Throw =>
      && (s.phase.Tasks? || s.phase.Polling? || s.phase.Draining? || s.phase.Ready? || s.phase.Calling?
          || s.phase.Dropped?)
      && Cl(s, Stepper).Quiet?
    case ClearBit => s.phase.Clearing? && s.phase.sock in s.socks
    case LeaveStep => s.phase.Release? && s.mutex.depth > 0
    case TakePause => s.phase.Yield? && s.mutex.pause.None?
    case GivePause => s.phase.Yielded?
  }

  predicate CanDo(s: State, w: Actor, r: Request)
  {
    var c := Cl(s, w);
    match r
    case Send(x, _) => UserCode(s, w) && x in s.built && (x in s.socks ==> !s.socks[x].kind.Acceptor?)
    case Call(op) => UserCode(s, w) && !op.WantSend? && (op.Register? ==> op.sock !in s.used)
    case TryLock => c.TryStep? && (s.mutex.owner.None? || s.mutex.owner == Some(w))
    case TryFails => c.TryStep? && s.mutex.owner != Some(w)
    case LockPause => c.WantPause? && s.mutex.pause.None?
    case BumpPipe => c.Bumping?
    case LockStep => c.WantStep? && s.mutex.owner.None?
    case UnlockPause => c.LeavePause?
    case DoOp => c.InOp?
    case Unlock => c.Leaving? && s.mutex.depth > 0
    case StopSet => UserCode(s, w)
    case StopBump => c.Stopping?
  }

  predicate Enabled(s: State, a: Action)
  {
    && !s.crashed
    && match a
       case Drive(m) => CanDrive(s, m)
       case Do(w, r) => CanDo(s, w, r)
  }

  /** The socket's TLS state after OpenSSL calls; those never touch the suppression flag. */
  function AfterTls(k: Sock, finished: bool, error: SslError): Sock
  {
    if k.kind.Tls? then k.(tls := TlsState(finished, error, k.tls.sendSuppressed)) else k
  }

  function Queried(k: Sock): Sock
  {
    if k.kind.Tls? then
      var (out, tls) := Query(k.tls, k.out);
      k.(out := out, tls := tls)
    else k
  }

  /** onError: TCP sockets start DriverDisconnect, UDP sockets and acceptors discard the error. */
  function ErrorPhase(s: State, x: nat): Phase
    requires x in s.socks
  {
    if s.socks[x].kind.Tcp? || s.socks[x].kind.Tls? then Dropping(x) else Release
  }

  /** DriverOnWritable: DriverPending on an empty queue, else send from the front of the queue;
      the answer is true when the queue is empty afterwards. */
  function WrittenPhase(k: Sock, x: nat, r: WriteResult): Phase
  {
    if r.Throws? then Release
    else if k.queue == 0 then Clearing(x)
    else if r.Partial? then Release
    else if k.queue == 1 then Clearing(x)
    else Release
  }

  function PhaseAfter(s: State, m: Move): Phase
    requires CanDrive(s, m)
  {
    match m
    case BeginStep => Enter
    case BeginRun => Test
    case TestFlag => if s.shouldStop then Outside else Enter
    case EnterStep => Tasks
    case RunTask => Tasks
    case FinishTasks => Querying
    case QuerySockets => Polling
    case PollPipe => Draining
    case PollSocket(x, e) => Ready(x, e)
    case PollTimeout => Release
    case Unbump => Release
    case OnReadable(Deliver, _, _) => Calling(s.phase.sock)
    case OnReadable(Nothing, _, _) => Release
    case OnReadable(Fail, _, _) => ErrorPhase(s, s.phase.sock)
    case OnWritable(r, _, _) => WrittenPhase(s.socks[s.phase.sock], s.phase.sock, r)
    case OnError => ErrorPhase(s, s.phase.sock)
    case HandlerReturns => Release
    case HandlerFails => ErrorPhase(s, s.phase.sock)
    case DropDone => Dropped(s.phase.sock)
    case Throw => Release
    case ClearBit => Release
    case LeaveStep => Yield
    case TakePause => Yielded
    case GivePause => if s.running && !s.failing then Test else Outside
  }

  /** Where a client continues after an action of its own. */
  function Next(s: State, w: Actor, r: Request): Client
    requires CanDo(s, w, r)
  {
    var c := Cl(s, w);
    match r
    case Send(x, orphanEmpty) =>
      if (if x in s.socks then s.socks[x].queue == 0 else orphanEmpty) then TryStep(WantSend(x)) else Quiet
    case Call(op) => TryStep(op)
    case TryLock => InOp(c.op)
    case TryFails => WantPause(c.op)
    case LockPause => Bumping(c.op)
    case BumpPipe => WantStep(c.op)
    case LockStep => LeavePause(c.op)
    case UnlockPause => InOp(c.op)
    case DoOp => Leaving
    case Unlock => Quiet
    case StopSet => Stopping
    case StopBump => Quiet
  }

  /** DriverDisconnect begins with a client call of the stepper's own: AsyncUnregister. */
  function ClientsAfter(s: State, a: Action): map<Actor, Client>
    requires Enabled(s, a)
  {
    match a
    case Drive(m) =>
      var p := PhaseAfter(s, m);
      if p.Dropping? then s.client[Stepper := TryStep(Unregister(p.sock))] else s.client
    case Do(w, r) => s.client[w := Next(s, w, r)]
  }

  function Unlocked(x: Mutexes): Mutexes
    requires x.depth > 0
  {
    Mutexes(if x.depth == 1 then None else x.owner, x.depth - 1, x.pause)
  }

  function MutexAfter(s: State, a: Action): Mutexes
    requires Enabled(s, a)
  {
    match a
    case Drive(EnterStep) => s.mutex.(owner := Some(Stepper), depth := 1)
    case Drive(LeaveStep) => Unlocked(s.mutex)
    case Drive(TakePause) => s.mutex.(pause := Some(Stepper))
    case Drive(GivePause) => s.mutex.(pause := None)
    case Do(w, TryLock) => s.mutex.(owner := Some(w), depth := s.mutex.depth + 1)
    case Do(w, LockStep) => s.mutex.(owner := Some(w), depth := 1)
    case Do(w, LockPause) => s.mutex.(pause := Some(w))
    case Do(_, UnlockPause) => s.mutex.(pause := None)
    case Do(_, Unlock) => Unlocked(s.mutex)
    case _ => s.mutex
  }

  function PipeAfter(s: State, a: Action): nat
    requires Enabled(s, a)
  {
    match a
    case Drive(Unbump) => s.pipe - 1
    case Do(_, BumpPipe) => s.pipe + 1
    case Do(_, StopBump) => s.pipe + 1
    case _ => s.pipe
  }

  /** AsyncWantSend, AsyncRegister and AsyncUnregister on the table of registered sockets. */
  function Operated(socks: map<nat, Sock>, op: Op): map<nat, Sock>
  {
    match op
    case WantSend(x) => if x in socks then socks[x := socks[x].(out := true)] else socks
    case Register(x, kind, tls) => socks[x := Sock(kind, 0, false, tls.(sendSuppressed := false))]
    case Unregister(x) => socks - {x}
    case EditToDos => socks
  }

  function SocksAfter(s: State, a: Action): map<nat, Sock>
    requires Enabled(s, a)
  {
    match a
    case Drive(QuerySockets) => map x | x in s.socks :: Queried(s.socks[x])
    case Drive(OnReadable(_, finished, error)) =>
      var x := s.phase.sock;
      s.socks[x := AfterTls(s.socks[x], finished, error)]
    case Drive(OnWritable(r, finished, error)) =>
      var x := s.phase.sock;
      var k := AfterTls(s.socks[x], finished, error);
      s.socks[x := if r.Whole? && k.queue > 0 then k.(queue := k.queue - 1) else k]
    case Drive(ClearBit) => s.socks[s.phase.sock := s.socks[s.phase.sock].(out := false)]
    case Do(_, Send(x, _)) =>
      if x in s.socks then s.socks[x := s.socks[x].(queue := s.socks[x].queue + 1)] else s.socks
    case Do(w, DoOp) => Operated(s.socks, Cl(s, w).op)
    case _ => s.socks
  }

  /** Actions after which the program has left its contract: AsyncWantSend's and DriverPending's assertions
      and the "uncalled sendto" exception. */
  predicate Crashes(s: State, a: Action)
    requires Enabled(s, a)
  {
    match a
    case Drive(OnWritable(_, _, _)) =>
      s.socks[s.phase.sock].queue == 0 && !s.socks[s.phase.sock].kind.Tls?
    case Do(w, DoOp) => Cl(s, w).op.WantSend? && Cl(s, w).op.sock !in s.socks
    case _ => false
  }

  function TodosAfter(s: State, a: Action): nat
    requires Enabled(s, a)
  {
    match a
    case Drive(RunTask) => s.todos + 1
    case Do(w, DoOp) => if Cl(s, w).op.EditToDos? then s.todos + 1 else s.todos
    case _ => s.todos
  }

  function CallsAfter(s: State, a: Action): seq<(nat, Callback)>
    requires Enabled(s, a)
  {
    match a
    case Drive(OnReadable(Deliver, _, _)) => s.calls + [(s.phase.sock, Received)]
    case Drive(OnWritable(_, _, _)) => s.calls + [(s.phase.sock, Wrote)]
    case Drive(DropDone) => s.calls + [(s.phase.sock, Disconnected)]
    case _ => s.calls
  }

  function Apply(s: State, a: Action): State
    requires Enabled(s, a)
  {
    State(
      MutexAfter(s, a),
      PipeAfter(s, a),
      if a == Drive(BeginRun) then false else s.shouldStop || (a.Do? && a.request.StopSet?),
      if a.Drive? then PhaseAfter(s, a.move) else s.phase,
      if a == Drive(BeginRun) then true
      else s.running && !(a == Drive(BeginStep) || (a.Drive? && a.move.TestFlag? && s.shouldStop)
                          || (a == Drive(GivePause) && s.failing)),
      if a == Drive(BeginStep) || a == Drive(BeginRun) then false
      else s.failing || a == Drive(Throw) || (a.Drive? && a.move.OnWritable? && a.move.write.Throws?),
      ClientsAfter(s, a),
      SocksAfter(s, a),
      if a.Do? && a.request.Call? && a.request.op.Register? then s.used + {a.request.op.sock} else s.used,
      if a.Do? && a.request.DoOp? && Cl(s, a.who).op.Register? then s.built + {Cl(s, a.who).op.sock} else s.built,
      TodosAfter(s, a),
      Crashes(s, a),
      CallsAfter(s, a))
  }

  /** A freshly constructed driver; nothing is assumed about the uninitialised stop flag. */
  predicate Init(s: State)
  {
    && s.mutex == Mutexes(None, 0, None) && s.pipe == 0
    && s.phase.Outside? && !s.running && !s.failing
    && s.client == map[] && s.socks == map[] && s.used == {} && s.built == {} && s.todos == 0
    && !s.crashed && s.calls == []
  }

  /** The actions can be taken one after the other, starting in s. */
  ghost predicate Runs(s: State, acts: seq<Action>)
    decreases |acts|
  {
    acts == [] || (Enabled(s, acts[0]) && Runs(Apply(s, acts[0]), acts[1..]))
  }

  ghost function After(s: State, acts: seq<Action>): State
    requires Runs(s, acts)
    decreases |acts|
  {
    if acts == [] then s else After(Apply(s, acts[0]), acts[1..])
  }

  lemma Once(s: State, a: Action)
    requires Enabled(s, a)
    ensures Runs(s, [a]) && After(s, [a]) == Apply(s, a)
  {
    var one, s' := [a], Apply(s, a);
    assert one[0] == a && one[1..] == [];
    assert Runs(s', one[1..]);
    assert After(s, one) == After(s', one[1..]);
  }

  lemma {:induction false} Compose(s: State, front: seq<Action>, back: seq<Action>)
    requires Runs(s, front) && Runs(After(s, front), back)
    ensures Runs(s, front + back) && After(s, front + back) == After(After(s, front), back)
    decreases |front|
  {
    if front == [] {
      assert front + back == back;
    } else {
      assert (front + back)[1..] == front[1..] + back;
      Compose(Apply(s, front[0]), front[1..], back);
    }
  }

  /** One more action, after a run. */
  lemma Extend(s: State, acts: seq<Action>, a: Action)
    requires Runs(s, acts) && Enabled(After(s, acts), a)
    ensures Runs(s, acts + [a]) && After(s, acts + [a]) == Apply(After(s, acts), a)
  {
    Once(After(s, acts), a);
    Compose(s, acts, [a]);
  }

  lemma Twice(s: State, a: Action, b: Action)
    requires Enabled(s, a) && Enabled(Apply(s, a), b)
    ensures Runs(s, [a, b]) && After(s, [a, b]) == Apply(Apply(s, a), b)
  {
    Once(s, a);
    Extend(s, [a], b);
    assert [a] + [b] == [a, b];
  }
}
