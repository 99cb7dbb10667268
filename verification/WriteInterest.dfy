/** The second writer of a socket's POLLOUT bit: the TLS handshake (SocketTlsImpl::DriverQuery). */
module WriteInterest {

  datatype SslError = NoError | WantRead | WantWrite | ZeroReturn | Fatal

  /** What DriverQuery looks at: the OpenSSL state and the flag that remembers a suppressed POLLOUT. */
  datatype TlsState = TlsState(initFinished: bool, lastError: SslError, sendSuppressed: bool)

  /** The POLLOUT bit and TLS state after one DriverQuery call. */
  function Query(tls: TlsState, out: bool): (r: (bool, TlsState))
  {
    if !tls.initFinished then
      if tls.lastError == WantWrite then
        (true, tls)
      else if tls.lastError == WantRead then
        (false, tls.(sendSuppressed := tls.sendSuppressed || out))
      else
        (out, tls)
    else if tls.sendSuppressed then
      (true, tls.(sendSuppressed := false))
    else
      (out, tls)
  }

  /** During the handshake the bit says what the handshake waits for, and a request that it holds back is remembered;
      afterwards the bit is as requested. */
  lemma HandshakeInterest(tls: TlsState, out: bool)
    ensures var (out', tls') := Query(tls, out);
            && tls'.initFinished == tls.initFinished && tls'.lastError == tls.lastError
            && (!tls.initFinished && tls.lastError == WantWrite ==> out' && tls' == tls)
            && (!tls.initFinished && tls.lastError == WantRead ==>
                  !out' && (tls'.sendSuppressed <==> tls.sendSuppressed || out))
            && (!tls.initFinished && tls.lastError != WantRead && tls.lastError != WantWrite ==>
                  out' == out && tls' == tls)
            && (tls.initFinished ==> (out' <==> out || tls.sendSuppressed) && !tls'.sendSuppressed)
  {
  }

  /** Any number of queries, the OpenSSL state changing arbitrarily in between. */
  function QueryAll(history: seq<(bool, SslError)>, out: bool, suppressed: bool): (r: (bool, bool))
  {
    if history == [] then (out, suppressed)
    else
      var (before, memory) := QueryAll(history[..|history| - 1], out, suppressed);
      var (finished, error) := history[|history| - 1];
      var (after, tls) := Query(TlsState(finished, error, memory), before);
      (after, tls.sendSuppressed)
  }

  /** A write request survives every handshake: it is in the bit or in the memory,
      and once the handshake is finished it is in the bit. */
  lemma {:induction false} RequestSurvivesHandshake(history: seq<(bool, SslError)>, out: bool, suppressed: bool)
    requires out || suppressed
    ensures var (out', suppressed') := QueryAll(history, out, suppressed);
            && (out' || suppressed')
            && (history != [] && history[|history| - 1].0 ==> out' && !suppressed')
  {
    if history == [] {
    } else {
      RequestSurvivesHandshake(history[..|history| - 1], out, suppressed);
    }
  }

  /** Without a request the bit is set only to let the handshake write. */
  lemma {:induction false} OnlyHandshakeRequests(history: seq<(bool, SslError)>)
    requires forall i | 0 <= i < |history| :: !history[i].0 ==> history[i].1 != WantWrite
    ensures QueryAll(history, false, false) == (false, false)
  {
    if history == [] {
    } else {
      OnlyHandshakeRequests(history[..|history| - 1]);
    }
  }
}
