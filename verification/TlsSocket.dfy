/** The time budget of a TLS socket: whatever OpenSSL does with the socket's BIO callbacks, one call of Receive or
    Send spends no more than its timeout waiting, and no less if it has nothing to show; calls made by the driver do
    not wait at all. What is reported as sent is what OpenSSL has accepted. */
module TlsSocket {
  import opened Wrappers
  import opened Deadlines
  import opened SendLoops
  import opened WriteInterest

  const HANDSHAKE_STEPS_MAX := 10

  predicate Fails(error: SslError)
  {
    error == ZeroReturn || error == Fatal
  }

  predicate Waits(error: SslError)
  {
    error == WantRead || error == WantWrite
  }

  class SocketTls {
    const os: Os
    var initFinished: bool   // SSL_is_init_finished
    var lastError: SslError
    var remainingTime: int   // milliseconds
    var isReadable: bool
    var isWritable: bool
    var driverSendSuppressed: bool
    ghost var plain: seq<Byte>      // bytes that OpenSSL has accepted for sending
    ghost var received: nat         // bytes that OpenSSL has delivered
    ghost var sslReads: nat         // calls of SSL_read
    ghost var room: nat             // what SSL_read was last given to fill
    ghost var sslWrites: nat        // calls of SSL_write_ex
    ghost var bioReads: nat         // BIO read callbacks
    ghost var bioWrites: nat        // BIO write callbacks

    constructor (os: Os)
      ensures this.os == os && lastError == NoError && !driverSendSuppressed && !isReadable && !isWritable
      ensures plain == [] && received == 0
    {
      this.os := os;
      initFinished, lastError, remainingTime := false, NoError, 0;
      isReadable, isWritable, driverSendSuppressed := false, false, false;
      plain, received, sslReads, room, sslWrites, bioReads, bioWrites := [], 0, 0, 0, 0, 0, 0;
    }

    function State(): TlsState
      reads this
    {
      TlsState(initFinished, lastError, driverSendSuppressed)
    }

    /** The remaining time keeps its meaning (unlimited, none, limited) and only shrinks. The time spent in poll is
        taken out of it, and no more than the time that has passed, but for a millisecond for each poll. */
    twostate predicate Spent()
      reads this, os
    {
      && (old(remainingTime) < 0 ==> remainingTime == old(remainingTime))
      && (old(remainingTime) == 0 ==> remainingTime == 0)
      && (old(remainingTime) > 0 ==> 0 <= remainingTime <= old(remainingTime))
      && (0 <= old(remainingTime) < TWO31 ==>
            os.waited + remainingTime * NS_PER_MS <= old(os.waited) + old(remainingTime) * NS_PER_MS)
      && (0 < old(remainingTime) < TWO31 ==>
            old(remainingTime) * NS_PER_MS
            <= remainingTime * NS_PER_MS + (os.clock - old(os.clock)) + (os.polls - old(os.polls)) * NS_PER_MS)
      && os.clock >= old(os.clock) && os.waited >= old(os.waited) && os.polls >= old(os.polls)
      && os.failures == old(os.failures)
    }

    /** An exception leaves the remaining time unchanged; what was spent is within it all the same. */
    twostate predicate SpentOnFailure()
      reads this, os
    {
      && (0 <= old(remainingTime) < TWO31 ==> os.waited <= old(os.waited) + old(remainingTime) * NS_PER_MS)
      && os.clock >= old(os.clock) && os.waited >= old(os.waited) && os.polls >= old(os.polls)
      && os.failures >= old(os.failures)
    }

    /** The driver's word that the socket is readable, or writable, is good for the first callback. */
    twostate predicate Consumed()
      reads this
    {
      && bioReads >= old(bioReads) && (isReadable <==> old(isReadable) && bioReads == old(bioReads))
      && bioWrites >= old(bioWrites) && (isWritable <==> old(isWritable) && bioWrites == old(bioWrites))
    }

    /** DriverQuery's effect on the POLLOUT bit. */
    method DriverQuery(out: bool) returns (out': bool)
      modifies this`driverSendSuppressed
      ensures (out', State()) == Query(old(State()), out)
      ensures !initFinished && lastError == WantWrite ==> out' && driverSendSuppressed == old(driverSendSuppressed)
      ensures !initFinished && lastError == WantRead ==>
                !out' && driverSendSuppressed == (old(driverSendSuppressed) || out)
      ensures !initFinished && !Waits(lastError) ==>
                out' == out && driverSendSuppressed == old(driverSendSuppressed)
      ensures initFinished ==> out' == (out || old(driverSendSuppressed)) && !driverSendSuppressed
    {
      out' := out;
      if !initFinished {
        if lastError == WantWrite {
          out' := true;
        } else if lastError == WantRead {
          driverSendSuppressed := driverSendSuppressed || out;
          out' := false;
        }
      } else if driverSendSuppressed {
        driverSendSuppressed := false;
        out' := true;
      }
    }

    /** UnderDeadline around WaitReadable or WaitWritable. */
    method WaitUnderDeadline(direction: Direction) returns (ready: Result<bool, Error>)
      modifies this`remainingTime, os`clock, os`waited, os`polls, os`awaited, os`limit, os`timedOut, os`failures
      ensures os.polls == old(os.polls) + 1 && os.awaited == direction && os.limit == old(remainingTime)
      ensures ready.Success? ==> Spent() && ready.value == !os.timedOut
      ensures ready.Success? && !ready.value && old(remainingTime) < TWO31 ==> remainingTime <= 0
      ensures ready.Failure? ==> SpentOnFailure() && os.failures > old(os.failures)
    {
      ghost var start := os.clock;
      if remainingTime <= 0 {
        assert ToMsec(0) == 0;
        ready := os.Wait(direction, remainingTime);
        return;
      }
      var deadline := new Deadline(remainingTime, os.clock);
      ready := os.Wait(direction, remainingTime);
      if ready.Failure? {
        return;
      }
      deadline.Tick(os.clock);
      Settled(remainingTime, start, os.clock);
      remainingTime := Remaining(deadline.limit, deadline.now);
    }

    /** BIO read callback: zero means retry. */
    method BioRead(size: nat) returns (r: Result<nat, Error>)
      modifies this`remainingTime, this`isReadable, this`bioReads, os
      ensures r.Success? ==> Spent() && r.value <= size && (r.value == 0 ==> os.timedOut)
      ensures r.Success? ==> os.delivered == old(os.delivered) + r.value
      ensures r.Failure? ==> SpentOnFailure() && os.failures > old(os.failures) && os.delivered == old(os.delivered)
      ensures os.wire == old(os.wire)
      ensures r.Success? && r.value > 0 ==> os.room == size
      ensures !isReadable && bioReads == old(bioReads) + 1
      ensures old(isReadable) ==> os.polls == old(os.polls) && remainingTime == old(remainingTime)
      ensures !old(isReadable) ==>
                os.polls == old(os.polls) + 1 && os.awaited == Readable && os.limit == old(remainingTime)
    {
      bioReads := bioReads + 1;
      if isReadable {
        isReadable := false;
        r := ReceiveNow(os, size);
        return;
      }
      ghost var start := os.clock;
      if remainingTime <= 0 {
        assert ToMsec(0) == 0;
        r := Receive(size, remainingTime);
        return;
      }
      var deadline := new Deadline(remainingTime, os.clock);
      r := Receive(size, remainingTime);
      if r.Failure? {
        return;
      }
      deadline.Tick(os.clock);
      Settled(remainingTime, start, os.clock);
      remainingTime := Remaining(deadline.limit, deadline.now);
    }

    /** sockpuppet::Receive: wait, then read; zero if the wait timed out. */
    method Receive(size: nat, timeout: int) returns (r: Result<nat, Error>)
      modifies os`delivered, os`room, os`clock, os`waited, os`polls, os`awaited, os`limit, os`timedOut, os`failures
      ensures r.Success? && r.value > 0 ==> os.room == size
      ensures r.Success? ==> r.value <= size && (r.value == 0 <==> os.timedOut) && os.failures == old(os.failures)
      ensures r.Success? ==> os.delivered == old(os.delivered) + r.value
      ensures r.Failure? ==> os.delivered == old(os.delivered) && os.failures == old(os.failures) + 1
      ensures os.polls == old(os.polls) + 1 && os.awaited == Readable && os.limit == timeout
      ensures 0 <= os.waited - old(os.waited) <= os.clock - old(os.clock)
      ensures MaySleep(ToMsec(timeout) * NS_PER_MS, os.waited - old(os.waited))
    {
      var ready := os.Wait(Readable, timeout);
      if ready.Failure? {
        return Failure(ready.error);
      }
      if !ready.value {
        return Success(0);
      }
      r := ReceiveNow(os, size);
    }

    /** BIO write callback; OpenSSL has something to write when it calls it. */
    method BioWrite(data: seq<Byte>) returns (r: Result<nat, Error>)
      requires data != []
      modifies this`remainingTime, this`isWritable, this`bioWrites, os
      ensures r.Success? ==> Spent() && r.value <= |data| && os.wire == old(os.wire) + data[..r.value]
      ensures r.Success? && !old(isWritable) && r.value < |data| ==> remainingTime <= 0
      ensures r.Failure? ==> SpentOnFailure() && os.failures > old(os.failures)
      ensures os.delivered == old(os.delivered)
      ensures !isWritable && bioWrites == old(bioWrites) + 1
      ensures old(isWritable) ==> os.polls == old(os.polls) && remainingTime == old(remainingTime)
      ensures !old(isWritable) ==> os.polls > old(os.polls) && os.awaited == Writable
    {
      bioWrites := bioWrites + 1;
      if isWritable {
        isWritable := false;
        r := SendNow(os, data);
        return;
      }
      if remainingTime < 0 {
        r := SendAll(os, data);
        assert data[..|data|] == data;
        return;
      }
      if remainingTime == 0 {
        r := SendTry(os, data);
        return;
      }
      ghost var start := os.clock;
      var deadline := new Deadline(remainingTime, os.clock);
      TimeoutMeans(remainingTime, start, start);
      r := SendLoops.SendSome(os, data, deadline);
      if r.Failure? {
        return;
      }
      if r.value == |data| {
        Settled(remainingTime, start, deadline.now);
        remainingTime := Remaining(deadline.limit, deadline.now);
      } else {
        remainingTime := 0;
      }
    }

    /** OpenSSL makes any number of BIO callbacks, and may finish the handshake. */
    method Callbacks() returns (thrown: Option<Error>)
      modifies this`remainingTime, this`isReadable, this`isWritable, this`bioReads, this`bioWrites,
               this`initFinished, os
      ensures thrown.None? ==> Spent()
      ensures thrown.Some? ==> SpentOnFailure() && os.failures > old(os.failures)
      ensures Consumed()
    {
      thrown := None;
      var callbacks: nat :| true;
      for i := 0 to callbacks
        invariant Spent()
        invariant Consumed()
      {
        var res;
        if * {
          var wanted: nat :| true;
          res := BioRead(wanted);
        } else {
          var first: Byte, more: seq<Byte> :| true;
          res := BioWrite([first] + more);
        }
        if res.Failure? {
          return Some(res.error);
        }
      }
      initFinished := *;
    }

    /** SSL_read: a positive byte count, or zero and an error code, or an exception from a callback. */
    method SslRead(size: nat) returns (res: Result<nat, Error>, error: SslError)
      modifies this`remainingTime, this`isReadable, this`isWritable, this`bioReads, this`bioWrites,
               this`initFinished, this`received, this`sslReads, this`room, os
      ensures sslReads == old(sslReads) + 1 && room == size
      ensures res.Success? ==> Spent() && res.value <= size && (res.value == 0 ==> error != NoError)
      ensures res.Success? ==> received == old(received) + res.value
      ensures res.Failure? ==> SpentOnFailure() && os.failures > old(os.failures) && received == old(received)
      ensures Consumed()
    {
      error := Fatal;
      var thrown := Callbacks();
      sslReads, room := sslReads + 1, size;
      if thrown.Some? {
        return Failure(thrown.value), error;
      }
      var count :| 0 <= count <= size;
      received := received + count;
      res := Success(count);
      error :| count == 0 ==> error != NoError;
    }

    /** SSL_write_ex, with partial writes: a positive byte count, or zero and an error code, or an exception. */
    method SslWrite(data: seq<Byte>) returns (res: Result<nat, Error>, error: SslError)
      modifies this`remainingTime, this`isReadable, this`isWritable, this`bioReads, this`bioWrites,
               this`initFinished, this`plain, this`sslWrites, os
      ensures sslWrites == old(sslWrites) + 1
      ensures res.Success? ==> Spent() && res.value <= |data| && (res.value == 0 ==> error != NoError)
      ensures res.Success? ==> plain == old(plain) + data[..res.value]
      ensures res.Failure? ==> SpentOnFailure() && os.failures > old(os.failures) && plain == old(plain)
      ensures Consumed()
    {
      error := Fatal;
      var thrown := Callbacks();
      sslWrites := sslWrites + 1;
      if thrown.Some? {
        return Failure(thrown.value), error;
      }
      var count :| 0 <= count <= |data|;
      plain := plain + data[..count];
      res := Success(count);
      error :| count == 0 ==> error != NoError;
    }

    method HandleError(error: SslError) returns (ok: Result<bool, Error>)
      modifies this`remainingTime, os`clock, os`waited, os`polls, os`awaited, os`limit, os`timedOut, os`failures
      ensures ok.Success? ==> Spent()
      ensures ok.Failure? ==> SpentOnFailure() && (Fails(error) || os.failures > old(os.failures))
      ensures error == NoError ==> ok == Success(true) && unchanged(this) && unchanged(os)
      ensures Fails(error) ==> ok.Failure? && unchanged(this) && unchanged(os)
      ensures Waits(error) ==>
                && os.polls == old(os.polls) + 1 && os.limit == old(remainingTime)
                && os.awaited == (if error == WantRead then Readable else Writable)
                && (ok.Success? ==> ok.value == !os.timedOut)
                && (ok.Success? && !ok.value && old(remainingTime) < TWO31 ==> remainingTime <= 0)
    {
      match error
      case NoError => ok := Success(true);
      case WantRead => ok := WaitUnderDeadline(Readable);
      case WantWrite => ok := WaitUnderDeadline(Writable);
      case ZeroReturn => ok := Failure(SystemError);
      case Fatal => ok := Failure(SystemError);
    }

    /** The call is worth continuing; if not, the last poll, for what OpenSSL wants, has timed out. */
    twostate predicate Handled(error: SslError, new ok: Result<bool, Error>)
      reads this, os
    {
      && (ok.Success? ==> Spent() && !Fails(lastError))
      && (ok == Success(true) ==> lastError == NoError)
      && (ok == Success(false) ==> lastError == error && GivenUp(old(remainingTime)))
      && (ok.Failure? ==> SpentOnFailure() && lastError == error && (Fails(error) || os.failures > old(os.failures)))
      && (error == NoError ==> ok == Success(true) && os.polls == old(os.polls))
      && (Waits(error) ==>
            && os.polls == old(os.polls) + 1 && os.limit == old(remainingTime)
            && os.awaited == (if error == WantRead then Readable else Writable))
    }

    predicate GivenUp(timeout: int)
      reads this, os
    {
      && Waits(lastError) && os.timedOut
      && os.awaited == (if lastError == WantRead then Readable else Writable)
      && (timeout < TWO31 ==> remainingTime <= 0)
    }

    /** The error stays cached unless it could be waited out. */
    method HandleLastError() returns (ok: Result<bool, Error>)
      modifies this`remainingTime, this`lastError,
               os`clock, os`waited, os`polls, os`awaited, os`limit, os`timedOut, os`failures
      ensures Handled(old(lastError), ok)
    {
      ok := HandleError(lastError);
      if ok == Success(true) {
        lastError := NoError;
      }
    }

    method HandleResult(error: SslError) returns (ok: Result<bool, Error>)
      modifies this`remainingTime, this`lastError,
               os`clock, os`waited, os`polls, os`awaited, os`limit, os`timedOut, os`failures
      ensures Handled(error, ok)
    {
      lastError := error;
      ok := HandleLastError();
    }

    /** Zero bytes only if OpenSSL still waits for the network, or after as many steps as are allowed. */
    method Read(size: nat) returns (r: Result<nat, Error>)
      modifies this`remainingTime, this`lastError, this`isReadable, this`isWritable, this`bioReads, this`bioWrites,
               this`initFinished, this`received, this`sslReads, this`room, os
      ensures sslReads > old(sslReads) ==> room == size
      ensures r.Success? ==> Spent() && r.value == received - old(received) <= size && !Fails(lastError)
      ensures r.Failure? ==> SpentOnFailure() && received == old(received)
      ensures r.Failure? <==> Fails(lastError) || os.failures > old(os.failures)
      ensures r == Success(0) ==>
                GivenUp(old(remainingTime)) || sslReads == old(sslReads) + HANDSHAKE_STEPS_MAX
      ensures old(lastError) == NoError ==> sslReads > old(sslReads)
      ensures Consumed()
    {
      var ok := HandleLastError();
      if ok.Failure? {
        return Failure(ok.error);
      }
      if ok.value {
        for i := 0 to HANDSHAKE_STEPS_MAX
          invariant Spent() && lastError == NoError && received == old(received)
          invariant sslReads == old(sslReads) + i && (i > 0 ==> room == size)
          invariant Consumed()
        {
          var res, error := SslRead(size);
          if res.Failure? {
            return Failure(res.error);
          }
          if res.value > 0 {
            return Success(res.value);
          }
          ok := HandleResult(error);
          if ok.Failure? {
            return Failure(ok.error);
          }
          if !ok.value {
            return Success(0);
          }
        }
      }
      return Success(0);
    }

    /** One call of SSL_write_ex and what follows from its answer: go on or give up. */
    method WriteStep(data: seq<Byte>) returns (goOn: Result<bool, Error>, n: nat)
      requires lastError == NoError
      modifies this`remainingTime, this`lastError, this`isReadable, this`isWritable, this`bioReads, this`bioWrites,
               this`initFinished, this`plain, this`sslWrites, os
      ensures n <= |data| && plain == old(plain) + data[..n] && sslWrites == old(sslWrites) + 1 && Consumed()
      ensures goOn.Success? ==> Spent()
      ensures goOn == Success(true) ==> lastError == NoError
      ensures goOn == Success(false) ==> n == 0 && GivenUp(old(remainingTime))
      ensures goOn.Failure? ==> n == 0 && SpentOnFailure() && (Fails(lastError) || os.failures > old(os.failures))
    {
      var res, error := SslWrite(data);
      if res.Failure? {
        return Failure(res.error), 0;
      }
      n := res.value;
      if n > 0 {
        return Success(true), n;
      }
      goOn := HandleResult(error);
    }

    /** What is reported is what OpenSSL has accepted, a prefix of the data. An exception leaves some of the data
        unsent, if there is any: OpenSSL is only called with data remaining. Then accepted tells how much it had
        accepted, for the record. */
    method Write(data: seq<Byte>) returns (sent: Result<nat, Error>, accepted: nat)
      modifies this`remainingTime, this`lastError, this`isReadable, this`isWritable, this`bioReads, this`bioWrites,
               this`initFinished, this`plain, this`sslWrites, os
      ensures accepted <= |data| && plain == old(plain) + data[..accepted]
      ensures sent.Success? ==> Spent() && sent.value == accepted && !Fails(lastError)
      ensures sent.Failure? ==> SpentOnFailure() && (accepted < |data| || data == [])
      ensures sent.Failure? <==> Fails(lastError) || os.failures > old(os.failures)
      ensures sent.Success? && accepted < |data| ==>
                GivenUp(old(remainingTime)) || sslWrites == old(sslWrites) + HANDSHAKE_STEPS_MAX
      ensures old(lastError) == NoError && data != [] ==> sslWrites > old(sslWrites)
      ensures Consumed()
    {
      accepted := 0;
      assert data[..0] == [];
      var ok := HandleLastError();
      if ok.Failure? {
        return Failure(ok.error), accepted;
      }
      if ok.value {
        var i := 0;
        while i < HANDSHAKE_STEPS_MAX && accepted < |data|
          invariant 0 <= i <= HANDSHAKE_STEPS_MAX && accepted <= |data| && plain == old(plain) + data[..accepted]
          invariant Spent() && lastError == NoError && (i == 0 ==> accepted == 0)
          invariant sslWrites == old(sslWrites) + i && Consumed()
        {
          var n;
          ok, n := WriteStep(data[accepted..]);
          Prefixes(data, accepted, n);
          if ok.Failure? {
            return Failure(ok.error), accepted;
          }
          if !ok.value {
            return Success(accepted), accepted;
          }
          accepted := accepted + n;
          i := i + 1;
        }
      }
      return Success(accepted), accepted;
    }

    // ----- the socket interface -----

    /** Receive with a timeout: the total time spent waiting, over all handshake steps, is within it, and if nothing is
        received it has passed, but for a millisecond for each poll. */
    method ReceiveWithin(size: nat, timeout: int) returns (r: Result<nat, Error>)
      modifies this, os
      ensures sslReads > old(sslReads) ==> room == size
      ensures r.Success? ==> r.value == received - old(received) <= size
      ensures r.Failure? <==> Fails(lastError) || os.failures > old(os.failures)
      ensures 0 <= timeout < TWO31 ==> os.waited - old(os.waited) <= timeout * NS_PER_MS
      ensures r == Success(0) ==> sslReads == old(sslReads) + 10 || (Waits(lastError) && os.timedOut)
      ensures r == Success(0) && 0 < timeout < TWO31 && sslReads < old(sslReads) + 10 ==>
                timeout * NS_PER_MS <= os.clock - old(os.clock) + (os.polls - old(os.polls)) * NS_PER_MS
      ensures plain == old(plain) && driverSendSuppressed == old(driverSendSuppressed)
    {
      remainingTime := timeout;
      label begun:
      r := Read(size);
      assert r.Success? ==> Spent@begun();
      assert r.Failure? ==> SpentOnFailure@begun();
      assert Consumed@begun();
    }

    /** Send with a timeout, likewise. */
    method SendWithin(data: seq<Byte>, timeout: int) returns (sent: Result<nat, Error>, accepted: nat)
      modifies this, os
      ensures accepted <= |data| && plain == old(plain) + data[..accepted]
      ensures sent.Success? ==> sent.value == accepted
      ensures sent.Failure? ==> accepted < |data| || data == []
      ensures sent.Failure? <==> Fails(lastError) || os.failures > old(os.failures)
      ensures 0 <= timeout < TWO31 ==> os.waited - old(os.waited) <= timeout * NS_PER_MS
      ensures sent.Success? && accepted < |data| ==>
                sslWrites == old(sslWrites) + 10 || (Waits(lastError) && os.timedOut)
      ensures sent.Success? && accepted < |data| && 0 < timeout < TWO31
              && sslWrites < old(sslWrites) + 10 ==>
                timeout * NS_PER_MS <= os.clock - old(os.clock) + (os.polls - old(os.polls)) * NS_PER_MS
      ensures received == old(received) && driverSendSuppressed == old(driverSendSuppressed)
    {
      remainingTime := timeout;
      label begun:
      sent, accepted := Write(data);
      assert sent.Success? ==> Spent@begun();
      assert sent.Failure? ==> SpentOnFailure@begun();
      assert Consumed@begun();
    }

    /** Receive on a socket the driver has found readable: never waits. OpenSSL is called at once unless it waits to
        write, and its first read takes what is there without a poll. */
    method ReceiveReadable(size: nat) returns (r: Result<nat, Error>)
      modifies this, os
      ensures sslReads > old(sslReads) ==> room == size
      ensures r.Success? ==> r.value == received - old(received) <= size
      ensures r == Success(0) && initFinished ==> lastError == NoError
      ensures os.waited == old(os.waited)
      ensures plain == old(plain) && driverSendSuppressed == old(driverSendSuppressed)
      ensures isReadable <==> bioReads == old(bioReads)
      ensures old(lastError) == NoError || old(lastError) == WantRead ==> sslReads > old(sslReads)
    {
      remainingTime := 0;
      isReadable := true;
      if lastError == WantRead {
        lastError := NoError;
      }
      label begun:
      r := Read(size);
      assert r.Success? ==> Spent@begun();
      assert r.Failure? ==> SpentOnFailure@begun();
      assert Consumed@begun();
      if r == Success(0) && initFinished {
        lastError := NoError;
      }
    }

    /** SendSome on a socket the driver has found writable: never waits, likewise. */
    method SendWritable(data: seq<Byte>) returns (sent: Result<nat, Error>, accepted: nat)
      modifies this, os
      ensures accepted <= |data| && plain == old(plain) + data[..accepted]
      ensures sent.Success? ==> sent.value == accepted
      ensures sent.Failure? ==> accepted < |data| || data == []
      ensures sent.Failure? <==> Fails(lastError) || os.failures > old(os.failures)
      ensures os.waited == old(os.waited)
      ensures received == old(received) && driverSendSuppressed == old(driverSendSuppressed)
      ensures isWritable <==> bioWrites == old(bioWrites)
      ensures data != [] && (old(lastError) == NoError || old(lastError) == WantWrite) ==> sslWrites > old(sslWrites)
    {
      remainingTime := 0;
      isWritable := true;
      if lastError == WantWrite {
        lastError := NoError;
      }
      label begun:
      sent, accepted := Write(data);
      assert sent.Success? ==> Spent@begun();
      assert sent.Failure? ==> SpentOnFailure@begun();
      assert Consumed@begun();
    }

    /** Handshake progress on a writable socket with nothing to send: never waits. User data that arrives is an
        error. */
    method DriverPending() returns (done: Result<bool, Error>)
      modifies this, os
      ensures os.waited == old(os.waited)
      ensures plain == old(plain) && driverSendSuppressed == old(driverSendSuppressed)
      ensures done.Success? ==> done.value && received == old(received)
      ensures received > old(received) ==> done == Failure(LogicError)
      ensures old(initFinished) ==> done == Success(true) && unchanged(this) && unchanged(os)
      ensures !old(initFinished) ==>
                && (isWritable <==> bioWrites == old(bioWrites))
                && (old(lastError) == NoError || old(lastError) == WantWrite ==> sslReads > old(sslReads))
    {
      if initFinished {
        return Success(true);
      }
      remainingTime := 0;
      isWritable := true;
      if lastError == WantWrite {
        lastError := NoError;
      }
      label begun:
      var r := Read(64);
      assert r.Success? ==> Spent@begun();
      assert r.Failure? ==> SpentOnFailure@begun();
      assert Consumed@begun();
      if r.Failure? {
        return Failure(r.error);
      }
      if r.value > 0 {
        return Failure(LogicError);
      }
      return Success(true);
    }
  }

  lemma Prefixes(data: seq<Byte>, m: nat, n: nat)
    requires m + n <= |data|
    ensures data[..m] + data[m..][..n] == data[..m + n]
  {
  }

  /** What is left of a timeout after some time has passed: neither more nor, by a millisecond, less than the rest. */
  lemma Settled(timeout: int, start: int, now: int)
    requires timeout > 0 && start <= now
    ensures var left := Remaining(LimitFor(timeout, start), now);
            && 0 <= left <= timeout
            && left * NS_PER_MS <= Max(0, timeout * NS_PER_MS - (now - start))
            && timeout * NS_PER_MS - (now - start) < (left + 1) * NS_PER_MS
  {
    RemainingWithinDeadline(start + timeout * NS_PER_MS, now);
  }
}
