/** The blocking send functions over an arbitrary operating system. */
module SendLoops {
  import opened Wrappers
  import opened Deadlines

  type Byte = bv8

  /** std::system_error and other std::runtime_errors; std::logic_error. */
  datatype Error = SystemError | LogicError

  datatype Direction = Readable | Writable

  /** The operating system's side of one socket, with the steady clock. Its methods choose any answer
      that poll, send and recv may give, and record it. */
  class Os {
    var wire: seq<Byte>    // bytes accepted from the program
    var delivered: nat     // bytes given to the program
    var clock: int         // nanoseconds
    var waited: int        // nanoseconds spent inside poll
    var polls: nat
    var awaited: Direction // what the last poll was for
    var limit: int         // the timeout the last poll was given, in milliseconds
    var timedOut: bool     // the last poll reported no event
    var sent: int          // the last answer of send
    var room: nat          // what recv was last given to fill
    var failures: nat      // calls that failed

    /** WaitReadable, WaitWritable: poll for one socket. It may fail; otherwise it reports an event or, if its
        argument is a limit, that the limit has passed. It does not sleep longer than its limit. */
    method Wait(direction: Direction, timeout: int) returns (ready: Result<bool, Error>)
      modifies this`clock, this`waited, this`polls, this`awaited, this`limit, this`timedOut, this`failures
      ensures polls == old(polls) + 1 && awaited == direction && limit == timeout
      ensures 0 <= clock - old(clock) == waited - old(waited)
      ensures MaySleep(ToMsec(timeout) * NS_PER_MS, waited - old(waited))
      ensures ready.Success? ==> ready.value == !timedOut && failures == old(failures)
      ensures ready.Success? && timedOut ==> 0 <= ToMsec(timeout) * NS_PER_MS <= waited - old(waited)
      ensures ready.Failure? ==> ready.error == SystemError && failures == old(failures) + 1
    {
      var t := ToMsec(timeout) * NS_PER_MS;
      var elapsed :| 0 <= elapsed && MaySleep(t, elapsed);
      timedOut := false;
      if t >= 0 {
        timedOut := *;
        if timedOut {
          elapsed := t;
        }
      }
      clock, waited, polls := clock + elapsed, waited + elapsed, polls + 1;
      awaited, limit := direction, timeout;
      if * {
        failures := failures + 1;
        return Failure(SystemError);
      }
      return Success(!timedOut);
    }

    /** ::send */
    method Send(data: seq<Byte>) returns (r: int)
      modifies this`wire, this`sent, this`failures, this`clock
      ensures -1 <= r <= |data| && sent == r
      ensures wire == old(wire) + if r > 0 then data[..r] else []
      ensures failures == old(failures) + if r < 0 || (r == 0 && data != []) then 1 else 0
      ensures clock >= old(clock)
    {
      r :| -1 <= r <= |data|;
      sent := r;
      if r > 0 {
        wire := wire + data[..r];
      } else if r < 0 || data != [] {
        failures := failures + 1;
      }
      Pass();
    }

    /** ::recv of at most size bytes */
    method Recv(size: nat) returns (r: int)
      modifies this`delivered, this`room, this`failures, this`clock
      ensures -1 <= r <= size && room == size
      ensures delivered == old(delivered) + if r > 0 then r else 0
      ensures failures == old(failures) + if r <= 0 then 1 else 0
      ensures clock >= old(clock)
    {
      r :| -1 <= r <= size;
      room := size;
      if r > 0 {
        delivered := delivered + r;
      } else {
        failures := failures + 1;
      }
      Pass();
    }

    /** Time passes outside poll. */
    method Pass()
      modifies this`clock
      ensures clock >= old(clock)
    {
      var elapsed :| 0 <= elapsed;
      clock := clock + elapsed;
    }
  }

  method ReceiveNow(os: Os, size: nat) returns (r: Result<nat, Error>)
    modifies os`delivered, os`room, os`failures, os`clock
    ensures os.room == size
    ensures r.Success? ==>
              0 < r.value <= size && os.delivered == old(os.delivered) + r.value && os.failures == old(os.failures)
    ensures r.Failure? ==>
              r.error == SystemError && os.delivered == old(os.delivered) && os.failures == old(os.failures) + 1
    ensures os.clock >= old(os.clock)
  {
    var received := os.Recv(size);
    if received <= 0 {
      return Failure(SystemError); // error or connection closed
    }
    return Success(received);
  }

  method SendNow(os: Os, data: seq<Byte>) returns (r: Result<nat, Error>)
    modifies os`wire, os`sent, os`failures, os`clock
    ensures r.Success? ==> r.value == os.sent <= |data| && (data != [] ==> r.value > 0)
    ensures r.Success? ==> os.wire == old(os.wire) + data[..r.value] && os.failures == old(os.failures)
    ensures r.Failure? ==> os.wire == old(os.wire) && os.failures == old(os.failures) + 1
    ensures -1 <= os.sent <= |data|
    ensures r.Success? <==> os.sent > 0 || (os.sent == 0 && data == [])
    ensures r == Failure(SystemError) <==> os.sent < 0
    ensures r == Failure(LogicError) <==> os.sent == 0 && data != []
    ensures os.clock >= old(os.clock)
  {
    var sent := os.Send(data);
    if sent < 0 {
      return Failure(SystemError);
    } else if sent == 0 && |data| > 0 {
      return Failure(LogicError);
    }
    return Success(sent);
  }

  /** The bytes accepted are a prefix of the data. */
  ghost predicate Accepted(before: seq<Byte>, after: seq<Byte>, data: seq<Byte>)
  {
    exists n | 0 <= n <= |data| :: after == before + data[..n]
  }

  /** Sends everything, for any sequence of partial writes, or fails having sent a prefix; waits for writability
      without a limit before each write. */
  method SendAll(os: Os, data: seq<Byte>) returns (r: Result<nat, Error>)
    modifies os
    ensures r.Success? ==> r.value == |data| && os.wire == old(os.wire) + data && os.failures == old(os.failures)
    ensures r.Failure? ==> Accepted(old(os.wire), os.wire, data) && os.failures == old(os.failures) + 1
    ensures os.polls > old(os.polls) && os.awaited == Writable && os.limit < 0
    ensures os.clock >= old(os.clock) && os.waited >= old(os.waited) && os.delivered == old(os.delivered)
  {
    var n := 0; // the remaining view begins here
    assert data[..0] == [];
    while true
      invariant 0 <= n <= |data|
      invariant os.wire == old(os.wire) + data[..n]
      invariant os.clock >= old(os.clock) && os.waited >= old(os.waited) && os.delivered == old(os.delivered)
      invariant os.polls >= old(os.polls) && os.failures == old(os.failures)
      invariant n == |data| ==> n == 0
      decreases |data| - n
    {
      var ready := os.Wait(Writable, -1);
      if ready.Failure? {
        return Failure(ready.error);
      }
      var sent := SendNow(os, data[n..]);
      if sent.Failure? {
        return Failure(sent.error);
      }
      assert data[..n] + data[n..][..sent.value] == data[..n + sent.value];
      n := n + sent.value;
      if n == |data| {
        assert data[..n] == data;
        return Success(n);
      }
    }
  }

  /** Polls once, without sleeping, and writes once if it may. */
  method SendTry(os: Os, data: seq<Byte>) returns (r: Result<nat, Error>)
    modifies os
    ensures r.Success? ==> r.value <= |data| && os.wire == old(os.wire) + data[..r.value]
    ensures r.Success? ==> r.value == (if os.timedOut then 0 else os.sent) && os.failures == old(os.failures)
    ensures r.Success? && !os.timedOut && data != [] ==> r.value > 0
    ensures r.Failure? ==> os.wire == old(os.wire) && os.failures == old(os.failures) + 1
    ensures os.polls == old(os.polls) + 1 && os.awaited == Writable && os.limit == 0
    ensures os.waited == old(os.waited) && os.clock >= old(os.clock) && os.delivered == old(os.delivered)
  {
    assert ToMsec(0) == 0;
    var ready := os.Wait(Writable, 0);
    if ready.Failure? {
      return Failure(ready.error);
    }
    if !ready.value {
      return Success(0);
    }
    r := SendNow(os, data);
  }

  function Max(a: int, b: int): int
  {
    if a > b then a else b
  }

  /** Sends until everything is sent, a poll that was given all the time that remains times out, or the deadline has
      passed; the polls together sleep no longer than until the deadline. */
  method SendSome(os: Os, data: seq<Byte>, deadline: Deadline) returns (r: Result<nat, Error>)
    requires deadline.limit.Until? && deadline.now <= os.clock
    modifies os, deadline
    ensures r.Success? ==>
              && r.value <= |data| && os.wire == old(os.wire) + data[..r.value] && os.failures == old(os.failures)
              && (r.value < |data| ==>
                    || (os.timedOut && os.limit == Max(0, ToMs(deadline.limit.deadline - deadline.now)))
                    || deadline.now >= deadline.limit.deadline)
    ensures r.Success? && r.value < |data| && ToMs(deadline.limit.deadline - old(deadline.now)) < TWO31 ==>
              os.clock + NS_PER_MS > deadline.limit.deadline
    ensures r.Failure? ==> Accepted(old(os.wire), os.wire, data) && os.failures == old(os.failures) + 1
    ensures os.polls > old(os.polls) && os.awaited == Writable && os.delivered == old(os.delivered)
    ensures old(deadline.now) <= deadline.now <= os.clock && os.clock >= old(os.clock) && os.waited >= old(os.waited)
    ensures ToMs(deadline.limit.deadline - old(deadline.now)) < TWO31 ==>
              os.waited - old(os.waited) <= Max(0, deadline.limit.deadline - old(deadline.now))
    ensures r.Success? && r.value == |data| > 0 ==> os.waited - old(os.waited) <= deadline.now - old(deadline.now)
  {
    var n := 0;
    assert data[..0] == [];
    while true
      invariant 0 <= n <= |data|
      invariant n == |data| ==> n == 0
      invariant os.wire == old(os.wire) + data[..n]
      invariant os.polls >= old(os.polls) && os.failures == old(os.failures) && os.delivered == old(os.delivered)
      invariant old(deadline.now) <= deadline.now <= os.clock && os.clock >= old(os.clock)
      invariant 0 <= os.waited - old(os.waited) <= deadline.now - old(deadline.now)
      invariant deadline.now == old(deadline.now) || TimeLeft(deadline.limit, deadline.now)
      decreases |data| - n
    {
      ghost var before, tick := os.waited, deadline.now;
      RemainingWithinDeadline(deadline.limit.deadline, deadline.now);
      WaitFits(deadline.limit.deadline, old(deadline.now), tick);
      var ready := os.Wait(Writable, Remaining(deadline.limit, deadline.now));
      if ready.Failure? {
        return Failure(ready.error);
      }
      if !ready.value {
        return Success(n);
      }
      deadline.Tick(os.clock);
      var sent := SendNow(os, data[n..]);
      if sent.Failure? {
        return Failure(sent.error);
      }
      assert data[..n] + data[n..][..sent.value] == data[..n + sent.value];
      n := n + sent.value;
      if n == |data| || !TimeLeft(deadline.limit, deadline.now) {
        return Success(n);
      }
    }
  }

  /** A wait begun at a tick, for the time remaining then, ends no later than the deadline. */
  lemma WaitFits(deadline: int, start: int, tick: int)
    requires start <= tick && (tick == start || tick < deadline)
    ensures var r := Remaining(Until(deadline), tick);
            && r <= Remaining(Until(deadline), start)
            && (r < TWO31 ==> ToMsec(r) == r)
            && tick - start + r * NS_PER_MS <= Max(0, deadline - start)
  {
  }

  /** SocketImpl::Send: everything without a timeout, no waiting with a zero timeout, and with any other at most that
      much waiting in all; what is not sent then could not be sent in that time, but for the last millisecond. */
  method Send(os: Os, data: seq<Byte>, timeout: int) returns (r: Result<nat, Error>)
    modifies os
    ensures r.Success? ==> r.value <= |data| && os.wire == old(os.wire) + data[..r.value]
    ensures r.Success? && timeout < 0 ==> r.value == |data|
    ensures timeout < 0 ==> os.limit < 0
    ensures timeout == 0 ==> os.polls == old(os.polls) + 1 && os.limit == 0
    ensures r.Success? && timeout > 0 && r.value < |data| ==>
              os.timedOut || os.clock >= old(os.clock) + timeout * 1_000_000
    ensures r.Success? && 0 < timeout < TWO31 && r.value < |data| ==>
              os.clock > old(os.clock) + (timeout - 1) * 1_000_000
    ensures r.Failure? ==> Accepted(old(os.wire), os.wire, data)
    ensures r.Failure? <==> os.failures > old(os.failures)
    ensures os.polls > old(os.polls) && os.awaited == Writable
    ensures 0 <= timeout < TWO31 ==> os.waited - old(os.waited) <= timeout * NS_PER_MS
  {
    if timeout < 0 {
      r := SendAll(os, data);
      assert data[..|data|] == data;
    } else if timeout == 0 {
      r := SendTry(os, data);
      assert os.wire == old(os.wire) ==> os.wire == old(os.wire) + data[..0];
    } else {
      var deadline := new Deadline(timeout, os.clock);
      TimeoutMeans(timeout, os.clock, os.clock);
      r := SendSome(os, data, deadline);
    }
  }
}
