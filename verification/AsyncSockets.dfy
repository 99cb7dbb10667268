/** DriverSend over the two kinds of stream socket: what becomes of the send queue is what the socket answered. */
module AsyncSockets {
  import opened Wrappers
  import opened WriteInterest
  import opened SendLoops
  import opened TlsSocket
  import opened AsyncSend

  /** One attempt to send the front buffer, honest about it. */
  ghost predicate HonestStep(before: Stream, after: Stream)
  {
    exists a: Attempt ::
      Possible(before, Try(a)) && AsyncSend.Honest(before, Try(a)) && after == Attempted(before, a)
  }

  /** Without TLS, where the queue is never empty. What send has accepted is taken off the front buffer, which stays
      in front with its promise waiting; the promise gets its value when all of it has been accepted, and an exception
      if send has failed; then the buffer leaves the queue. A std::logic_error is not caught; it leaves everything
      as it was. No other buffer or promise is touched. */
  method DriverSendPlain(q: SendQueue, os: Os) returns (emptied: Result<bool, Error>)
    requires q.Valid() && q.queue != []
    modifies q`wire, q`stream, q`queue, q`rests, q.queue[0].buffer, q.queue[0].promise
    modifies os`wire, os`sent, os`failures, os`clock
    ensures q.Valid() && (emptied.Success? ==> HonestStep(old(q.stream), q.stream))
    ensures emptied.Success? ==> (emptied.value <==> q.queue == [])
    ensures 0 <= os.sent <= |old(q.queue[0].buffer.data)| || os.sent == -1
    ensures 0 < os.sent < |old(q.queue[0].buffer.data)| ==>
              && emptied.Success? && q.queue == old(q.queue)
              && q.queue[0].buffer.data == old(q.queue[0].buffer.data)[os.sent..]
              && q.queue[0].promise.status == old(q.queue[0].promise.status)
    ensures os.sent == |old(q.queue[0].buffer.data)| ==>
              && emptied.Success? && q.queue == old(q.queue)[1..]
              && old(q.queue)[0].promise.status == Value
    ensures os.sent < 0 ==>
              && emptied.Success? && q.queue == old(q.queue)[1..]
              && old(q.queue)[0].promise.status == Exception
    ensures os.sent == 0 < |old(q.queue[0].buffer.data)| ==>
              && emptied == Failure(LogicError) && q.queue == old(q.queue) && q.stream == old(q.stream)
              && q.queue[0].buffer.data == old(q.queue[0].buffer.data)
              && q.queue[0].promise.status == old(q.queue[0].promise.status)
    ensures var n := if os.sent > 0 then os.sent else 0;
            && os.wire == old(os.wire) + old(q.queue[0].buffer.data)[..n]
            && q.wire == old(q.wire) + old(q.queue[0].buffer.data)[..n]
  {
    var data := q.queue[0].buffer.data;
    var sent := SendNow(os, data);
    if sent == Failure(LogicError) {
      return Failure(LogicError);
    }
    q.SendFront(if sent.Success? then Sent(sent.value) else Failed(0));
    emptied := Success(q.queue == []);
  }

  /** With TLS: likewise for what OpenSSL has accepted, and for the errors of OpenSSL and of the calls it makes. An
      empty queue is polled for writing only for a handshake. */
  method DriverSendTls(q: SendQueue, sock: SocketTls) returns (emptied: Result<bool, Error>)
    requires q.Valid()
    modifies q`wire, q`stream, q`queue, q`rests
    modifies if q.queue == [] then {} else {q.queue[0].buffer}, if q.queue == [] then {} else {q.queue[0].promise}
    modifies sock, sock.os
    ensures q.Valid() && sock.os.waited == old(sock.os.waited)
    ensures emptied.Success? ==> (emptied.value <==> q.queue == [])
    ensures emptied.Failure? || old(q.queue) == [] ==> q.stream == old(q.stream) && q.queue == old(q.queue)
    ensures old(q.queue) == [] ==> sock.plain == old(sock.plain)
    ensures old(q.queue) != [] && emptied.Success? ==> HonestStep(old(q.stream), q.stream)
    ensures old(q.queue) != [] && emptied.Failure? ==>
              emptied.error == LogicError && Thrown(sock, old(sock.os.failures))
    ensures old(q.queue) != [] && emptied.Success? ==>
              exists n ::
                && 0 <= n <= |old(q.queue[0].buffer.data)|
                && sock.plain == old(sock.plain) + old(q.queue[0].buffer.data)[..n]
                && q.wire == old(q.wire) + old(q.queue[0].buffer.data)[..n]
                && (Thrown(sock, old(sock.os.failures)) ==>
                      q.queue == old(q.queue)[1..] && old(q.queue)[0].promise.status == Exception)
                && (!Thrown(sock, old(sock.os.failures)) && n == |old(q.queue[0].buffer.data)| ==>
                      q.queue == old(q.queue)[1..] && old(q.queue)[0].promise.status == Value)
                && (!Thrown(sock, old(sock.os.failures)) && n < |old(q.queue[0].buffer.data)| ==>
                      && q.queue == old(q.queue)
                      && q.queue[0].buffer.data == old(q.queue[0].buffer.data)[n..]
                      && q.queue[0].promise.status == old(q.queue[0].promise.status))
  {
    if q.queue == [] {
      emptied := sock.DriverPending();
      return;
    }
    var sent, accepted := sock.SendWritable(q.queue[0].buffer.data);
    if sent == Failure(LogicError) {
      return Failure(LogicError);
    }
    q.SendFront(if sent.Success? then Sent(accepted) else Failed(accepted));
    emptied := Success(q.queue == []);
  }

  /** OpenSSL, or a call that it has made, has failed. */
  predicate Thrown(sock: SocketTls, failures: nat)
    reads sock, sock.os
  {
    TlsSocket.Fails(sock.lastError) || sock.os.failures > failures
  }
}
