# Verified model of sockpuppet

sockpuppet is a C++ socket library. Its `Driver` runs asynchronous sockets and scheduled tasks (`ToDo`) in one thread,
while any number of other threads send, register sockets, schedule tasks or stop the driver. This project models that
machinery in Dafny, together with the blocking and TLS send paths beneath it, the buffer pool and the address text
parser, and proves what they promise, for all inputs and all runs. `dafny verify dfyconfig.toml` checks all of it.

## Structure

| modules | what they model | form |
|---|---|---|
| `DriverProtocol` | the locks, the signalling pipe, the stop flag, the send queues and the POLLOUT bits | labelled transition system: one action is one atomic access to shared state |
| `ProtocolLocks`, `ProtocolSend`, `ProtocolExact`, `ProtocolStop`, `ProtocolDisconnect`, `ProtocolOrphans`, `ProtocolCallers`, `ProtocolOrder` | invariants over every run, and the theorems that follow | lemmas |
| `DriverTables`, `ProtocolTables` | the two parallel tables of sockets and pollfds, and that they implement the protocol's view of them | class, refinement |
| `WriteInterest`, `TlsSocket`, `SendLoops` | the TLS socket's edits of POLLOUT, its time budget, and the blocking send loops, over any behaviour of the operating system and of OpenSSL | classes, loops |
| `AsyncSend`, `AsyncSockets` | the queue of buffers and promises of an asynchronous TCP socket, and its use of plain and TLS sockets | class, stream specification |
| `Deadlines`, `ToDoList`, `Scheduler` | deadlines, the sorted task list, `StepTodos` | classes, refinement of a stable priority queue |
| `BufferPool` | buffers lent and recycled | class, specification by values |
| `Regex`, `UriDissect`, `AddressText` | the three regular expressions, taken as written and run by a backtracking matcher; splitting and printing of addresses | functions; the string splice as a method |

A thread that calls into the driver is an `Actor`: the `Stepper`, the one thread that may be inside `Step` or `Run`, or
`Other(id)`. User code (tasks, handlers, other threads) may take any enabled action at any time, so a statement about
every `Runs(s, acts)` is a statement about every interleaving.

## Assumptions

- At most one thread is inside `Step` or `Run`, and `Step` is not called from a task or a handler. A second stepper
  could take another thread's bump out of the pipe and go back to sleep.
- Datagrams in the signalling pipe are not lost.
- The file descriptors of sockets that exist, and of the pipe, are distinct (`OwnFd` in `ProtocolTables`).
- `try_lock` on the recursive step mutex succeeds for the thread that holds it; for any other it may fail even if the
  mutex is free.
- A handler that has destroyed its own socket does not throw `std::runtime_error` afterwards.
- The critical section of a send queue is one action. `DriverOnWritable` keeps the queue's mutex while it sends.
- `poll` does not sleep longer than its argument says, and reports a timeout only after that time.
- OpenSSL calls the BIO write callback with at least one byte.
- The bump of a pauser does not throw. Exceptions may leave `Step` from tasks, handlers, `poll`, the receipt of a bump
  and the sockets' own functions.
- A socket is sent on only after its constructor has registered it.

## Where the code does not do what one would expect

- `ToMsec` (`src/wait.cpp:28-34`) converts to a 32-bit number of milliseconds. A timeout wraps around, and `poll` can
  sleep past it, exactly if bit 31 of its lower half is set: `HonouredIff`, `UnlimitedIff`, `PollDoesNotOversleepIff`.
  Thirty days is such a timeout (`ThirtyDaysSleepForever`). The bounds on waiting are stated for timeouts below 2^31 ms.
- The comment in `src/address_impl.cpp` for `scheme://host/path` holds for every path after a scheme. Without a scheme,
  a host that is one word and a colon turns into a scheme if the path begins with a slash: `PathErasedIff`.
- A printed IPv4-form address whose host is itself in square brackets is not recovered: `RoundTripV4Iff`. A host that
  `getnameinfo` prints for an IPv4 address never is.
- A promise can hold an exception although all bytes of its buffer were accepted, but only if the buffer is empty:
  `ValueIffAccepted` is exact for any failures of the socket, `NonEmptyBuffersAreTruthful` applies it to what plain and
  TLS sockets do, and `EmptyBufferMayFail` is the exception.
- `AsyncWantSend` asserts that the socket is registered (`src/driver_impl.cpp:221-228`; without assertions it would
  write through an end iterator). The driver itself unregisters a stream socket when it disconnects
  (`src/socket_async_impl.cpp:235-242`), with the socket still alive. A sender that has found the queue empty and comes
  after that fails the assertion: `DisconnectRaceCrashes` for a send in another thread, `SendInDisconnectHandlerCrashes`
  for one in the disconnect handler. Keeping to the life time of its sockets is not enough: `CrashIffStream` says that
  a program that does can crash iff its sockets are stream sockets, and `OnlyDisconnectsCrash` that a disconnected
  stream socket is always the cause. If it does not, datagram sockets can crash too (`RacingSendCrashes`). `Disciplined` is the
  condition on single actions, the driver's own included, that keeps the assertion: `DisciplinedRunDoesNotCrash`, and
  after any other action `UndisciplinedStepCrashes`.
- A `Stop` that sets the flag before `Run`'s own reset has no effect (`src/driver_impl.cpp:168-180`): `EarlyStopIsLost`
  ends with `Run` asleep in `poll` after `Stop` has returned. `FlagIffStopStands` is the exact condition, and the
  results about `Stop` are stated with it.

## Model

| member | source | states |
|---|---|---|
| ProtocolLocks.LockInvInit | src/driver_impl.cpp:78-90 | A new driver satisfies the lock invariant: both mutexes are held by exactly the threads whose control state says so, the step mutex to the right recursion depth; a pauser that has bumped finds a readable pipe or a stepper on its way out. |
| ProtocolLocks.LockInvStep | src/driver_impl.cpp:43-75 | Every action of every thread keeps the lock invariant. |
| ProtocolLocks.LockInvRun | src/driver_impl.cpp:43-75 | The lock invariant holds after every run. |
| ProtocolLocks.TablesGuarded | src/driver_impl.cpp:182-228 | A change to the task list or the POLLOUT bits is made by the owner of the step mutex, and never while the stepper is in poll; so poll's timeout and interests stay valid for the whole poll. |
| ProtocolLocks.TodosChangeIff | src/driver_impl.cpp:182-198 | The task list changes with a running task and with a call to edit it, and not otherwise. |
| ProtocolLocks.YieldsWithoutStepMutex | src/driver_impl.cpp:51-59 | The stepper neither waits for nor holds the pause mutex while it holds the step mutex. |
| ProtocolLocks.EntriesWhileWaiting | src/driver_impl.cpp:43-73 | In any run during which a pauser waits for the step mutex the stepper takes that mutex at most once, and not at all unless it was already past the pause mutex. |
| ProtocolLocks.BoundedBypass | src/driver_impl.cpp:62-73 | Between a pauser's bump and its acquisition of the step mutex the stepper acquires it at most once, with any number of other pausers. |
| ProtocolLocks.NoSleepAgainstPauser | src/driver_impl.cpp:147-166 | With a pauser waiting, poll returns at once for the pipe: neither timeout nor socket event can come first. |
| ProtocolLocks.UnblockProgresses | src/driver_impl.cpp:51-75 | While a pauser waits, the owner of the step mutex has an enabled action that brings it nearer to giving it up. |
| ProtocolLocks.StepMovesWhileWaiting | src/driver_impl.cpp:43-73 | However the threads are scheduled, the stepper makes at most ten moves between locking and unlocking the step mutex, besides the tasks it runs, while a pauser waits. |
| ProtocolLocks.PauserGetsThrough | src/driver_impl.cpp:62-73 | From every reachable state with a waiting pauser there is a bounded continuation, without new calls, timeouts, network events or another entry of the stepper, in which the pauser gets the step mutex, or another thread's AsyncWantSend fails its assertion first. |
| ProtocolLocks.NoDeadlock | src/driver_impl.cpp:43-75 | In every reachable state with an unfinished call into the driver, or with the stepper inside Step and not in poll, some thread can go on. |
| WriteInterest.RequestSurvivesHandshake | src/socket_tls_impl.cpp:285-301 | Over any number of DriverQuery calls with OpenSSL in any state, a write request is in POLLOUT or remembered, and is back in POLLOUT at the first query after the handshake. |
| WriteInterest.OnlyHandshakeRequests | src/socket_tls_impl.cpp:285-301 | Without a request, DriverQuery sets POLLOUT only for a handshake that wants to write. |
| WriteInterest.HandshakeInterest | src/socket_tls_impl.cpp:285-301 | During the handshake POLLOUT is set if it waits to write, and cleared and remembered if it waits to read; otherwise it stays; after the handshake it is set iff requested, before or now. |
| ProtocolSend.SockMoved | src/driver_impl.cpp:221-286 | How every action changes a registered socket: its queue by a send or a buffer taken, POLLOUT by a query, a request or the end of the queue, the TLS state by OpenSSL; the kind never. |
| ProtocolSend.RegisteredIff | src/driver_impl.cpp:200-219 | After an action a socket is registered iff the action has registered it, or it was and the action has not unregistered it. |
| ProtocolSend.PollServesHandshake | src/driver_impl.cpp:147-155 | In every poll of every run, an unfinished TLS handshake that waits to write is polled for writing, and one that waits to read is not. |
| ProtocolSend.SendInvRun | src/socket_async_impl.cpp:86-111 | In every reachable state each non-empty queue is in someone's care: POLLOUT, the TLS memory or a pending sender. |
| ProtocolSend.NoLostWakeup | src/socket_async_impl.cpp:86-111 | After any run a registered socket with a non-empty queue has POLLOUT, a suppressed request (TLS only) or a sender that saw the empty queue and has yet to set the bit; when poll is entered with the handshake finished and no such sender, it has POLLOUT. |
| ProtocolExact.SendersRegisteredIffDisciplined | src/driver_impl.cpp:221-228 | An action of callers or driver keeps every pending sender's pollfd in place iff it neither unregisters a socket with a send in flight nor starts a send that sees an empty queue on an unregistered one. |
| ProtocolExact.CrashesIff | src/driver_impl.cpp:221-228 | In every reachable state "uncalled sendto" is not thrown next and SocketImpl::DriverPending not called next; AsyncWantSend's assertion fails next iff the socket is no longer registered. |
| ProtocolExact.DisciplinedRunDoesNotCrash | src/driver_impl.cpp:221-228 | A run of such actions only does not fail AsyncWantSend's assertion either. |
| ProtocolExact.NoCrashStep | src/driver_impl.cpp:221-228 | With every pending sender registered, AsyncWantSend's assertion, DriverPending's assertion and the "uncalled sendto" exception are out of reach of the next action. |
| ProtocolExact.ExactInvRun | src/driver_impl.cpp:261-286 | The exactness invariant survives every run. |
| ProtocolExact.ExactInterest | src/socket_async_impl.cpp:182-228 | After every run, without TLS: POLLOUT of a registered socket is set iff the queue is non-empty and no sender is pending (but for the moment before the bit is cleared), and each socket has at most one pending sender; a disciplined run has not crashed. |
| ProtocolOrder.ProgramOrder | src/driver_impl.cpp:100-180 | Exactly what move can follow a move of the stepper, whatever other threads do in between, told by the moves, the sockets, the pipe and the mutexes alone: Run, Step, tasks, query, poll, one socket task, disconnect, and the exchange of the mutexes. |
| ProtocolOrder.RequestOrder | src/driver_impl.cpp:62-75 | Likewise for a thread's calls: enqueue and its answer, try_lock, pause mutex, bump, step mutex, operation, unlock; the operation stays the one that was called for. |
| ProtocolOrder.QueueCountsSends | src/socket_async_impl.cpp:103-111 | As long as a socket is registered, its queue has grown in any run by the Send calls less the buffers taken off. |
| ProtocolOrder.HistoryIsCallbacks | src/socket_async_impl.cpp:123-180 | The recorded callbacks are those that the driver has made, in order. |
| ProtocolOrphans.OrphanNeverReturns | src/socket_async_impl.cpp:86-100 | A sender whose socket has been unregistered before its AsyncWantSend never gets past it: in every run it stays there, or the program crashes. |
| ProtocolOrphans.FreePause | src/driver_impl.cpp:43-73 | From every reachable state the pause mutex can be given up by the threads inside the driver going on. |
| ProtocolOrphans.OrphanCrashes | src/driver_impl.cpp:221-228 | From every reachable state with such a sender there is a continuation without new calls in which the assertion fails. |
| ProtocolOrphans.UndisciplinedStepCrashes | src/driver_impl.cpp:208-228 | After any action that breaks the discipline there is one, too. |
| ProtocolOrphans.DisciplinedPauserGetsThrough | src/driver_impl.cpp:62-73 | As PauserGetsThrough, without the crash as long as the discipline is kept. |
| ProtocolOrphans.DisciplinedRunReturns | src/driver_impl.cpp:168-180 | As RunReturns, likewise. |
| ProtocolCallers.OnlyDisconnectsCrash | src/socket_async_impl.cpp:69-100 | If nobody sends on a socket whose destructor has begun and no destructor begins during a send, any crash is due to a stream socket that the driver has disconnected. |
| ProtocolCallers.NoStreamRun | src/socket_async_impl.cpp:11-67 | The driver never disconnects a datagram socket or an acceptor. |
| ProtocolCallers.DisconnectRaceCrashes | src/socket_async_impl.cpp:235-244 | For both kinds of stream socket, a run from a new driver that destroys nothing, sends once, and ends in AsyncWantSend's assertion, because the peer hangs up meanwhile. |
| ProtocolCallers.SendInDisconnectHandlerCrashes | src/socket_async_impl.cpp:235-244 | The same without a race, for a disconnect handler that sends on its own socket. |
| ProtocolCallers.CrashIffStream | src/socket_async_impl.cpp:86-111 | A program that keeps to the life time of its sockets, all of one kind, can crash iff they are stream sockets. |
| ProtocolCallers.RacingSendCrashes | src/socket_async_impl.cpp:69-100 | The obligation is needed: a send overtaken by the destructor in another thread can end in AsyncWantSend's assertion, for datagram sockets too. |
| ProtocolStop.StopInvRun | src/driver_impl.cpp:168-180 | In every reachable state inside Run with the flag set, a stepper at or before poll has a readable pipe, or a Stop call is about to bump. |
| ProtocolStop.PipeHoldsBumps | src/driver_impl.cpp:230-244 | Datagrams in the pipe are exactly the bumps of pausers and of Stop less the unbumps. |
| ProtocolStop.FlagIffStopStands | src/driver_impl.cpp:168-180 | After any run the flag is set iff Stop has set it since the last time Run began, or it was set before and Run has not begun. |
| ProtocolStop.EarlyStopIsLost | src/driver_impl.cpp:168-180 | A run from a new driver in which Stop is called and returns, but sets the flag before Run resets it, and Run sleeps in poll without a timeout. |
| ProtocolStop.FallsAsleep | src/driver_impl.cpp:168-174 | With the flag not set and nobody disturbing it, Run takes all datagrams out of the pipe and sleeps in poll. |
| ProtocolStop.NoSleepAfterStop | src/driver_impl.cpp:147-180 | After any run in which Stop has set the flag since Run began, and bumped, Run does not sleep in poll. |
| ProtocolStop.NoFurtherStep | src/driver_impl.cpp:168-174 | After any run in which Stop has set the flag since Run began, Run enters at most the Step it has already decided on. |
| ProtocolStop.RunReturnsOnlyIf | src/driver_impl.cpp:168-174 | Run does not return unless the flag is set or an exception is thrown. |
| ProtocolStop.RunEndsOnlyBy | src/driver_impl.cpp:168-174 | From the beginning of Run: it ends only by a Stop that sets the flag later, or by an exception. |
| ProtocolStop.ExceptionEndsRun | src/driver_impl.cpp:168-174 | After an exception in Step the flag is not read again and no further Step is entered: the exception leaves Run. |
| ProtocolStop.RunReturns | src/driver_impl.cpp:168-180 | Once the flag is set there is a bounded continuation, without new calls, timeouts or network events, in which Run returns, or another thread's AsyncWantSend fails its assertion first. |
| ProtocolDisconnect.DisconnectInvRun | src/socket_async_impl.cpp:235-244 | Every run keeps: a socket whose disconnect handler has started is unregistered for good, and none of its callbacks follows. |
| ProtocolDisconnect.DisconnectIsFinal | src/socket_async_impl.cpp:140-152 | In every run a socket's disconnect handler is called at most once and no callback of that socket follows it. |
| ProtocolDisconnect.FailureDisconnects | src/socket_async_impl.cpp:140-152 | In every reachable state, when receiving fails on a registered stream socket, or its handler, or poll reports an error, four actions of the stepper, which wait for nobody, unregister it and call its disconnect handler. |
| ProtocolDisconnect.DisconnectComesNext | src/socket_async_impl.cpp:235-244 | Whatever happens after such a failure, the next callback of the driver is that disconnect handler. |
| ProtocolCallers.FailureOfOthersIsDiscarded | src/socket_async_impl.cpp:11-67 | The same failures leave a datagram socket or an acceptor as it is, and it is not disconnected later either. |
| DriverTables.Driver.constructor | src/driver_impl.cpp:78-82 | A new driver's tables are aligned, with the pipe's entry in front. |
| DriverTables.Driver.AsyncRegister | src/driver_impl.cpp:200-206 | Keeps the tables aligned, appends the socket and adds its entry without POLLOUT. |
| DriverTables.Driver.AsyncUnregister | src/driver_impl.cpp:208-219 | Keeps the tables aligned; removes this socket and its entry and no other; a repeated call changes nothing. |
| DriverTables.Driver.AsyncWantSend | src/driver_impl.cpp:221-228 | Sets POLLOUT of this entry and no other; the entry is found iff the socket is registered. |
| DriverTables.Driver.QuerySockets | src/driver_impl.cpp:246-259 | Every TLS socket edits its own entry by the DriverQuery rule; all else stays. |
| DriverTables.Driver.ChooseTask | src/driver_impl.cpp:261-288 | Finds the first socket with an event, reading before writing before errors; nothing is found iff no entry reports an event. |
| DriverTables.Driver.StopWritePoll | src/driver_impl.cpp:274-277 | Clears POLLOUT of the handled socket's entry and no other. |
| DriverTables.SameEntry | src/driver_impl.cpp:208-219 | In aligned tables the two searches for a file descriptor hit the same socket, one entry apart. |
| DriverTables.InterestWithout | src/driver_impl.cpp:216-218 | Erasing one entry removes exactly its file descriptor's interest. |
| DriverTables.InterestUpdate | src/driver_impl.cpp:221-228 | Editing one entry changes exactly its file descriptor's interest. |
| ProtocolTables.FdsOfSockets | src/driver_impl.cpp:15-27 | No entry has a file descriptor that is neither the pipe's nor a registered socket's. |
| ProtocolTables.OthersStand | src/driver_impl.cpp:200-228 | An edit of one socket's entry leaves what the tables say about every other socket. |
| ProtocolTables.WantSend | src/driver_impl.cpp:221-228 | The table operation refines the protocol's; the entry is found iff the protocol does not crash. |
| ProtocolTables.Register | src/driver_impl.cpp:200-206 | The table operation refines the protocol's. |
| ProtocolTables.Unregister | src/driver_impl.cpp:208-219 | The table operation refines the protocol's, also when it comes twice. |
| ProtocolTables.Query | src/driver_impl.cpp:246-259 | The query of all sockets before poll refines the protocol's. |
| ProtocolTables.Clear | src/driver_impl.cpp:274-277 | Clearing the bit after the queue emptied refines the protocol's. |
| AsyncSend.FlatUpdate | src/socket_async_impl.cpp:190-200 | Accepting more of the front buffer extends the stream by exactly those bytes. |
| AsyncSend.StepConserves | src/socket_async_impl.cpp:182-207 | Each enqueue, partial send and failure keeps the stream conserved; resolved promises stay as they are, no buffer's content or place changes, the stream only grows. |
| AsyncSend.StreamConservation | src/socket_async_impl.cpp:86-111 | After any run the bytes accepted by the socket are, in the order of the Send calls, all of each fulfilled buffer, a prefix of each failed one and a prefix of the front one; promises are resolved once and in order. |
| AsyncSend.ValueIffAccepted | src/socket_async_impl.cpp:182-207 | After any run, all resolved promises hold a value exactly if all their bytes were accepted, iff no attempt failed with nothing left to accept. |
| AsyncSend.NonEmptyBuffersAreTruthful | src/socket_async_impl.cpp:182-207 | If only attempts on empty buffers fail with nothing left to accept, every resolved promise of a non-empty buffer holds a value iff all its bytes were accepted. |
| AsyncSend.SendQueue.SendFront | src/socket_async_impl.cpp:190-206 | After a partial send the rest of the buffer stays in front and its promise waits; otherwise the promise has its value or exception and the buffer has left the queue. |
| AsyncSockets.DriverSendPlain | src/socket_async_impl.cpp:182-207 | What becomes of buffer, promise and queue is decided by what send has answered: fewer bytes than the rest, the rest, an error, or nothing at all; the bytes added to the stream are those on the wire. |
| AsyncSockets.DriverSendTls | src/socket_async_impl.cpp:182-207 | Likewise for what OpenSSL has accepted and for its errors, without waiting, for any behaviour of OpenSSL. |
| AsyncSend.EmptyBufferMayFail | src/socket_async_impl.cpp:191-205 | For an empty buffer that is not so. |
| AsyncSend.SendQueue.Enqueue | src/socket_async_impl.cpp:103-111 | Refines the stream: the new buffer comes last, with a new promise, and the answer tells whether the queue was empty. |
| AsyncSend.SendQueue.Keep | src/socket_async_impl.cpp:195-200 | Refines the stream: after a partial send the rest of the front buffer stays in front. |
| AsyncSend.SendQueue.Resolve | src/socket_async_impl.cpp:190-206 | Refines the stream: the front promise, and only it, gets a value or an exception, and the buffer leaves the queue. |
| AsyncSend.SendQueue.DriverSend | src/socket_async_impl.cpp:182-207 | Refines the stream for any outcome of the send call, and answers true iff the queue is empty afterwards. |
| SendLoops.ReceiveNow | src/socket_impl.cpp:306-318 | As many bytes as the system has delivered, at least one, or a failure. |
| SendLoops.SendNow | src/socket_impl.cpp:328-340 | The count returned is what send has answered and was written; a negative answer is a system error, and zero a logic error unless there was nothing to send. |
| SendLoops.SendAll | src/socket_impl.cpp:342-355 | For any partial writes: terminates having written exactly the data, or fails having written a prefix; waits for writability without a limit. |
| SendLoops.SendTry | src/socket_impl.cpp:357-365 | Polls once for writability, with no timeout; writes nothing if that timed out, else what one send accepts. |
| SendLoops.SendSome | src/socket_impl.cpp:367-382 | Writes exactly the first n bytes it reports; fewer than all only if a poll for writability that was given all the time remaining timed out, or the deadline passed; all waits together end by the deadline, and less than a millisecond before it. |
| SendLoops.Send | src/socket_impl.cpp:157-167 | Everything without a timeout, one poll and no waiting with a zero timeout; otherwise at most the timeout's waiting in all, and less than everything only after the timeout, but for its last millisecond. |
| SendLoops.WaitFits | src/wait.h:118-126 | A wait begun at any tick before the deadline for the time remaining ends by the deadline. |
| TlsSocket.Settled | src/socket_tls_impl.cpp:22-35 | After a wait within a limited timeout, what UnderDeadline leaves is neither negative nor more than the timeout less the time passed, nor a millisecond less than that. |
| TlsSocket.SocketTls.DriverQuery | src/socket_tls_impl.cpp:285-301 | The method follows the rule proved in WriteInterest: POLLOUT for a handshake that waits to write, none and a memory of it for one that waits to read, the request back afterwards. |
| TlsSocket.SocketTls.WaitUnderDeadline | src/socket_tls_impl.cpp:22-35 | Polls once, with all the remaining time, and takes the time out of it; the remaining time keeps its meaning: unlimited, none or limited. |
| TlsSocket.SocketTls.BioRead | src/socket_tls_impl.cpp:367-382 | The read callback keeps the budget; zero bytes only when the wait timed out; no poll if the driver has found the socket readable, which is good for one callback. |
| TlsSocket.SocketTls.BioWrite | src/socket_tls_impl.cpp:415-435 | The write callback keeps the budget, and a partial write under a limited timeout forfeits the rest of it; no poll if the driver has found the socket writable, which is good for one callback. |
| TlsSocket.SocketTls.HandleError | src/socket_tls_impl.cpp:452-478 | Waits for readable or writable, whichever OpenSSL wants, within the budget; fatal errors and a closed connection fail without waiting. |
| TlsSocket.SocketTls.HandleLastError | src/socket_tls_impl.cpp:443-450 | The cached error is cleared iff it could be waited out, by one poll for what it asks for. |
| TlsSocket.SocketTls.HandleResult | src/socket_tls_impl.cpp:437-441 | A new error stays cached unless it could be waited out. |
| TlsSocket.SocketTls.Read | src/socket_tls_impl.cpp:349-365 | Reports what OpenSSL has delivered; nothing only if a poll for what OpenSSL wants timed out or after the greatest number of steps; fails iff OpenSSL or a call it made failed; keeps the budget over all steps. |
| TlsSocket.SocketTls.Write | src/socket_tls_impl.cpp:384-413 | Reports what OpenSSL has accepted, a prefix of the data; less than all only in the same cases; an exception leaves some of the data unsent, unless there is none. |
| TlsSocket.SocketTls.ReceiveWithin | src/socket_tls_impl.cpp:226-238 | The total time spent waiting in one Receive is at most its timeout; if it receives nothing, that time has passed, but for a millisecond for each poll. |
| TlsSocket.SocketTls.SendWithin | src/socket_tls_impl.cpp:257-263 | The same for Send, if it sends less than everything; it reports what OpenSSL has accepted. |
| TlsSocket.SocketTls.ReceiveReadable | src/socket_tls_impl.cpp:240-255 | When called by the driver it never waits, calls OpenSSL at once unless it waits to write, does not touch the suppression memory, and is not left waiting to read after the handshake. |
| TlsSocket.SocketTls.SendWritable | src/socket_tls_impl.cpp:265-275 | When called by the driver it never waits, calls OpenSSL at once unless it waits to read, and reports what OpenSSL has accepted. |
| TlsSocket.SocketTls.DriverPending | src/socket_tls_impl.cpp:303-321 | Handshake progress never waits, and user data is an error; once the handshake is finished nothing happens. |
| Deadlines.RemainingWithinDeadline | src/wait.h:118-126 | A limited timeout never turns negative, ends no later than the deadline and less than a millisecond before it. |
| Deadlines.TimeoutMeans | src/wait.h:103-126 | What a timeout in milliseconds taken at one time leaves at any other, in plain numbers, for all three kinds of deadline. |
| Deadlines.MinDurationIsEarliest | src/driver_impl.cpp:30-39 | The result is the longest wait in whole milliseconds that passes neither the task nor the caller's deadline. |
| Deadlines.HonouredIff | src/wait.cpp:28-34 | poll does not sleep past a non-negative timeout iff its 32-bit truncation has the top bit clear, as below 2^31 ms. |
| Deadlines.UnlimitedIff | src/wait.cpp:28-34 | A negative timeout is unlimited for poll iff that bit is set, as for noTimeout. |
| Deadlines.ThirtyDaysSleepForever | src/wait.cpp:28-34 | A concrete timeout that poll does not honour. |
| ToDoList.ListIsUnique | src/todo_impl.cpp:32-58 | The priority queue determines the list: sorted by time, equal times by insertion, each task once. |
| ToDoList.ListWithoutFront | src/driver_impl.cpp:131-135 | The front is the pending task with the least (time, insertion order), and popping it leaves the list of the rest. |
| ToDoList.ListWith | src/todo_impl.cpp:32-36 | Inserting before the first later task is insertion into the stable priority queue. |
| ToDoList.ListWithout | src/todo_impl.cpp:38-44 | Erasing a task is removal from the priority queue. |
| ToDoList.LeastExists | src/driver_impl.cpp:124-126 | A non-empty queue has a least task. |
| ToDoList.ToDos.FindLater | src/todo_impl.cpp:10-18 | The first task later than the given time. |
| ToDoList.ToDos.FindSame | src/todo_impl.cpp:20-28 | The given task, by identity, iff it is listed. |
| ToDoList.ToDos.Insert | src/todo_impl.cpp:32-36 | Keeps the list valid over the tasks' mutable times; refines insertion. |
| ToDoList.ToDos.Remove | src/todo_impl.cpp:38-44 | Keeps the list valid; refines removal, of an unlisted task too. |
| ToDoList.ToDos.Move | src/todo_impl.cpp:46-52 | Keeps the list valid although it writes the shared time; refines removal followed by insertion as the youngest. |
| ToDoList.WriteInPlaceBreaksOrder | src/todo_impl.cpp:46-52 | Writing the time of a task without first removing it would break the order. |
| Scheduler.StepTodos | src/driver_impl.cpp:120-145 | Refines the specification `Scheduled` for any tasks that edit the list and any clock: same tasks run, same timeout, same list. |
| Scheduler.StablePriorityOrder | src/driver_impl.cpp:120-145 | Each task run is at that moment the pending one with the least (time, insertion order), is due at the last tick, is off the list before it runs, and unless it is the first, time remained. |
| Scheduler.RunsAgainOnlyIfShifted | src/driver_impl.cpp:131-136 | A task that has run is pending again only if a task run since, possibly itself, shifted it. |
| Scheduler.LastEditTakesEffect | src/todo_impl.cpp:76-88 | Of the edits that a task makes the last one of each ToDo counts: cancelled, it is not pending; shifted, it is pending for the new time as the youngest. |
| Scheduler.ShiftedComesLast | src/todo_impl.cpp:46-52 | A shifted task comes after the others pending for its time. |
| Scheduler.OthersKeepTheirPlace | src/todo_impl.cpp:32-58 | Tasks that are not edited keep their time and place. |
| Scheduler.StopsOnlyIfDone | src/driver_impl.cpp:120-145 | StepTodos goes on until nothing is pending, the next task is not due at the last tick, or the caller's deadline has been reached; with a zero timeout, until one task has run. |
| Scheduler.ZeroRunsAtMostOne | src/driver_impl.cpp:120-145 | A zero timeout runs at most one task. |
| Scheduler.DueTasksDrainInOrder | src/driver_impl.cpp:120-145 | If tasks leave the list alone and the clock stands still, exactly the due tasks run, in the order of time and insertion. |
| Scheduler.TimeoutDoesNotOversleep | src/driver_impl.cpp:100-145 | The timeout returned passes neither the earliest pending task nor the caller's deadline, counted from the last tick, and is unlimited iff the caller's is and nothing is pending. |
| Scheduler.TimeoutIsLongest | src/driver_impl.cpp:100-145 | No longer timeout in whole milliseconds would do. |
| Scheduler.Step | src/driver_impl.cpp:100-118 | The timeout that Step gives to the sockets has both properties, for all three kinds of deadline. |
| Scheduler.PollDoesNotOversleepIff | src/wait.cpp:28-34 | poll itself does not sleep past any pending task iff the timeout survives its conversion to 32 bits. |
| BufferPool.OutOfBuffersIff | src/socket_buffered.cpp:43-58 | With the wrapped-around count, the test of Get is true iff there is a limit and that many buffers are out. |
| BufferPool.GotKeepsSound | src/socket_buffered.cpp:43-69 | Get lends a buffer that is not out, fails iff the limit is reached, and allocates only without a limit and with the peak number out. |
| BufferPool.RecycledKeepsSound | src/socket_buffered.cpp:78-90 | Recycle moves exactly this buffer back, and refuses one that is not out. |
| BufferPool.LastRecycledFirst | src/socket_buffered.cpp:58-90 | The buffer recycled last is lent next. |
| BufferPool.PoolConservation | src/socket_buffered.cpp:33-90 | After any run no buffer is lost, shared or lent twice; with a limit there are always that many; without, as many as were ever out at a time. |
| BufferPool.BufferPool.constructor | src/socket_buffered.cpp:33-41 | A new pool has as many distinct, empty, reserved buffers as its limit. |
| BufferPool.BufferPool.Get | src/socket_buffered.cpp:43-69 | Refines the specification; the buffer lent is empty, and no buffer that is out is touched. |
| BufferPool.BufferPool.Recycle | src/socket_buffered.cpp:78-90 | Refines the specification; fails iff the buffer is not out. |
| UriDissect.MatchServ | src/address_impl.cpp:40-41 | The first regular expression: with the longest leading word, "://" and a non-empty slash-free authority it gives scheme and authority; else the part before the first slash; else, and only then, no match. |
| UriDissect.MatchBracketed | src/address_impl.cpp:51-53 | `[host]:digits` matches the second expression with exactly these groups, whatever brackets the host contains. |
| UriDissect.MatchNotBracketed | src/address_impl.cpp:51-53 | Nothing else does. |
| UriDissect.MatchPlain | src/address_impl.cpp:52-54 | `host:digits` without another colon matches the third expression with exactly these groups. |
| UriDissect.MatchNotPlain | src/address_impl.cpp:52-54 | Nothing else does. |
| Regex.StarTakesLongest | src/address_impl.cpp:40-41 | A repetition takes the longest run from which the rest matches at once. |
| Regex.StarEndsAt | src/address_impl.cpp:51-54 | Backtracking gives up characters until the only place from which the rest matches. |
| AddressText.PortOverridesScheme | src/address_impl.cpp:42-59 | A numeric port in the authority always overrides the service given by the scheme, and is checked for its range. |
| AddressText.PortRange | src/address_impl.cpp:19-26 | A port in the authority is accepted iff its number, however many digits it has, is at most 65535; beyond 2^63 - 1 it is refused as no number. |
| AddressText.DissectPortRange | src/address_impl.cpp:34-65 | The same for whole addresses, with or without scheme and path. |
| AddressText.NoMatchIff | src/address_impl.cpp:40-64 | An address is refused as a whole iff it has no authority, neither after a scheme nor at its beginning. |
| AddressText.DissectWithScheme | src/address_impl.cpp:40-48 | For scheme://authority, with any path, the authority is dissected with the scheme as its service. |
| AddressText.DissectWithoutScheme | src/address_impl.cpp:40-48 | Without a scheme, the part before the first slash is dissected, without a service. |
| AddressText.PathErasedIff | src/address_impl.cpp:34-65 | Appending a path to a scheme-less address changes nothing, except exactly when a "word:" becomes a scheme. |
| AddressText.PathErasedAfterScheme | src/address_impl.cpp:34-65 | After a scheme, appending a path never changes anything. |
| AddressText.FindNul | src/address_impl.cpp:379-384 | Finds the end of a terminated text in the buffer, within bounds. |
| AddressText.CloseUp | src/address_impl.cpp:379-387 | The erasures and separators leave exactly host:serv or [host]:serv, all indices within bounds. |
| AddressText.ToString | src/address_impl.cpp:358-387 | For every host and service that fit getnameinfo's buffers, whatever follows their terminators, the result is exactly host:serv or [host]:serv. |
| AddressText.PortsArePortTexts | src/address_impl.cpp:19-26 | Every port prints to digits that pass the range check and stand for it. |
| AddressText.DecimalHasValue | src/address_impl.cpp:19-26 | The digits of every number have its value. |
| AddressText.HostHasNoSlash | src/address_impl.cpp:34-65 | A dissected host never contains a slash. |
| AddressText.DissectPort | src/address_impl.cpp:50-61 | What becomes of any slash-free string that ends in a colon and a port. |
| AddressText.RoundTripV4Iff | src/address_impl.cpp:358-387 | Dissecting a printed host:serv gives host and port back iff the host is not empty, has neither slash nor colon, and is not in brackets itself. |
| AddressText.RoundTripV6Iff | src/address_impl.cpp:358-387 | Dissecting a printed [host]:serv gives host and port back iff the host has neither slash nor line break. |

## Left out

- StepTodos: tasks and clock readings are a finite list of any length; a call that would need more of them ends with no timeout. A task is given by the edits it makes to the list; a task that throws is in `DriverProtocol` only.
- Step: the sockets part is `DriverProtocol` and `DriverTables`; the two are not composed into one method.
- AsyncSockets.DriverSendTls: bytes that OpenSSL has accepted before a `std::logic_error` leaves `DriverSend` are not accounted for; the queue is then as it was.
- AsyncSockets.DriverSendPlain: does not say what happens for an empty queue, which `ExactInterest` rules out and DriverPending asserts against.
- SendWithin: does not say that everything is sent without a timeout, because the number of handshake steps is bounded in the code; the bytes on the wire are OpenSSL's.
- ReceiveWithin: waiting is counted for timeouts below 2^31 ms, see `HonouredIff`.
- ProtocolExact: sockets with TLS are excluded from exactness, as the handshake writes the same bit; they are in `NoLostWakeup`.
- PauserGetsThrough: says that the way through exists from every reachable state, not that a fair scheduler takes it; so does RunReturns. `StepMovesWhileWaiting` bounds the stepper's share for every scheduler.
- The protocol is on values, not objects: it is a state machine of many threads. `ProtocolTables` connects its table of sockets with the classes, `TlsSocket.SocketTls.DriverQuery` and `AsyncSend.SendQueue` its rules with the methods.
- The contents of the UDP queue: only its length is modelled; a datagram is sent whole or fails.
- Fairness between sockets: the driver always serves the first one that is ready.
- Destruction and move of a Driver; a socket that outlives its driver only skips the calls.
- A TLS socket's `pendingSend`, its shutdown, the assertions on the number of handshake steps, certificates and BIO set-up.
- OpenSSL and operating system calls: any answer within their documented ranges, and for `poll` no longer sleep than asked.
- Overflow of 64-bit clock readings, and sizes above 2^64 in the buffer pool's containers (they wrap around, but no such pool is considered).
- Address lookup, host and service arguments given apart, interface enumeration, comparison and hash of addresses.
- Line terminators of wide characters in the regular expressions, and locale-dependent letters: the source matches `char`.
- Receive buffers' sizes, the buffered socket classes, error categories, forwarding classes, examples and tests of the repository.
