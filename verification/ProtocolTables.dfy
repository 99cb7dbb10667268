/** The driver's tables implement the protocol's view of them: the protocol knows a socket by its object, the tables
    by its file descriptor. */
module ProtocolTables {
  import P = DriverProtocol
  import T = DriverTables

  /** A protocol socket and the object it stands for. */
  ghost predicate Stands(interest: map<int, bool>, k: P.Sock, obj: T.AsyncSock)
    reads obj
  {
    && obj.isTls == k.kind.Tls?
    && obj.tls == k.tls
    && obj.fd in interest && interest[obj.fd] == k.out
  }

  ghost predicate Standing(interest: map<int, bool>, socks: map<nat, P.Sock>, obj: map<nat, T.AsyncSock>)
    requires socks.Keys <= obj.Keys
    reads obj.Values
  {
    forall x | x in socks :: Stands(interest, socks[x], obj[x])
  }

  ghost predicate Known(socks: set<nat>, obj: map<nat, T.AsyncSock>, o: T.AsyncSock)
    requires socks <= obj.Keys
  {
    exists x | x in socks :: obj[x] == o
  }

  /** The registered sockets, their POLLOUT bits and their TLS states are those of the tables. */
  ghost predicate Represents(d: T.Driver, socks: map<nat, P.Sock>, obj: map<nat, T.AsyncSock>)
    reads d, obj.Values
  {
    && d.Valid()
    && socks.Keys <= obj.Keys
    && Standing(T.Interest(d.pfds), socks, obj)
    && (forall x | x in socks :: obj[x] in d.sockets)
    && (forall o | o in d.sockets :: Known(socks.Keys, obj, o))
  }

  /** No other registered socket, nor the pipe, has the file descriptor of socket x. */
  predicate OwnFd(pipeFd: int, socks: set<nat>, obj: map<nat, T.AsyncSock>, x: nat)
    requires x in obj && socks <= obj.Keys
  {
    obj[x].fd != pipeFd && forall y | y in socks && y != x :: obj[y].fd != obj[x].fd
  }

  /** The file descriptors in use are those of the registered sockets. */
  lemma FdsOfSockets(d: T.Driver, socks: map<nat, P.Sock>, obj: map<nat, T.AsyncSock>, fd: int)
    requires Represents(d, socks, obj) && fd != d.pipeFd && forall x | x in socks :: obj[x].fd != fd
    ensures fd !in T.Interest(d.pfds) && forall i | 0 <= i < |d.pfds| :: d.pfds[i].fd != fd
  {
    forall i | 1 <= i < |d.pfds| ensures d.pfds[i].fd != fd {
      assert Known(socks.Keys, obj, d.sockets[i - 1]);
      assert d.pfds[i - 1 + 1].fd == d.sockets[i - 1].fd;
    }
    T.NotInterested(d.pfds, fd);
  }

  /** An entry of its own changes for no other socket. */
  lemma OthersStand(interest: map<int, bool>, socks: map<nat, P.Sock>, obj: map<nat, T.AsyncSock>, x: nat, k: P.Sock)
    requires x in obj && socks.Keys <= obj.Keys && Standing(interest, socks, obj)
    requires forall y | y in socks && y != x :: obj[y].fd != obj[x].fd
    requires obj[x].isTls == k.kind.Tls? && obj[x].tls == k.tls
    ensures Standing(interest[obj[x].fd := k.out], socks[x := k], obj)
    ensures Standing(interest - {obj[x].fd}, socks - {x}, obj)
    ensures forall o | Known(socks.Keys, obj, o) :: Known((socks[x := k]).Keys, obj, o)
    ensures forall o | Known(socks.Keys, obj, o) :: o == obj[x] || Known((socks - {x}).Keys, obj, o)
    ensures Known((socks[x := k]).Keys, obj, obj[x])
  {
  }

  // ----- each critical section does to the tables what the protocol says, if file descriptors are not shared -----

  /** The entry is found, as the program asserts, iff the protocol does not crash. */
  method WantSend(d: T.Driver, x: nat, ghost socks: map<nat, P.Sock>, obj: map<nat, T.AsyncSock>) returns (found: bool)
    requires Represents(d, socks, obj) && x in obj && OwnFd(d.pipeFd, socks.Keys, obj, x)
    modifies d`pfds
    ensures Represents(d, P.Operated(socks, P.WantSend(x)), obj)
    ensures found <==> x in socks
  {
    if x !in socks {
      FdsOfSockets(d, socks, obj, obj[x].fd);
    }
    if x in socks {
      OthersStand(T.Interest(d.pfds), socks, obj, x, socks[x].(out := true));
    }
    found := d.AsyncWantSend(obj[x].fd);
  }

  method Append(d: T.Driver, sock: T.AsyncSock)
    requires d.Valid() && forall i | 0 <= i < |d.pfds| :: d.pfds[i].fd != sock.fd
    modifies d
    ensures d.Valid() && T.Interest(d.pfds) == T.Interest(old(d.pfds))[sock.fd := false]
    ensures sock in d.sockets && forall o | o in old(d.sockets) :: o in d.sockets
    ensures forall o | o in d.sockets :: o == sock || o in old(d.sockets)
  {
    d.AsyncRegister(sock);
  }

  method Add(d: T.Driver, x: nat, ghost k: P.Sock, ghost socks: map<nat, P.Sock>, obj: map<nat, T.AsyncSock>)
    requires Represents(d, socks, obj) && x in obj && x !in socks && OwnFd(d.pipeFd, socks.Keys, obj, x)
    requires obj[x].isTls == k.kind.Tls? && obj[x].tls == k.tls && !k.out
    modifies d
    ensures Represents(d, socks[x := k], obj)
  {
    FdsOfSockets(d, socks, obj, obj[x].fd);
    OthersStand(T.Interest(d.pfds), socks, obj, x, k);
    Append(d, obj[x]);
  }

  method Register(d: T.Driver, x: nat, kind: P.Kind, ghost socks: map<nat, P.Sock>, obj: map<nat, T.AsyncSock>)
    requires Represents(d, socks, obj) && x in obj && OwnFd(d.pipeFd, socks.Keys, obj, x)
    requires x !in socks && obj[x].isTls == kind.Tls? && !obj[x].tls.sendSuppressed
    modifies d
    ensures Represents(d, P.Operated(socks, P.Register(x, kind, obj[x].tls)), obj)
  {
    Add(d, x, P.Sock(kind, 0, false, obj[x].tls), socks, obj);
  }

  method Remove(d: T.Driver, fd: int)
    requires d.Valid() && fd != d.pipeFd
    modifies d
    ensures d.Valid() && T.Interest(d.pfds) == T.Interest(old(d.pfds)) - {fd}
    ensures forall o | o in d.sockets :: o in old(d.sockets) && o.fd != fd
    ensures forall o | o in old(d.sockets) && o.fd != fd :: o in d.sockets
  {
    d.AsyncUnregister(fd);
  }

  /** Unregistering may come twice: from the disconnect and from the destructor. */
  method Unregister(d: T.Driver, x: nat, ghost socks: map<nat, P.Sock>, obj: map<nat, T.AsyncSock>)
    requires Represents(d, socks, obj) && x in obj && OwnFd(d.pipeFd, socks.Keys, obj, x)
    modifies d
    ensures Represents(d, P.Operated(socks, P.Unregister(x)), obj)
  {
    OthersStand(T.Interest(d.pfds), socks, obj, x, P.Sock(if obj[x].isTls then P.Tls else P.Tcp, 0, false, obj[x].tls));
    Remove(d, obj[x].fd);
  }

  /** Before a poll, every TLS socket edits its own interest. */
  method Query(d: T.Driver, ghost socks: map<nat, P.Sock>, ghost obj: map<nat, T.AsyncSock>)
    requires Represents(d, socks, obj)
    modifies d`pfds, d.sockets
    ensures Represents(d, map x | x in socks :: P.Queried(socks[x]), obj)
  {
    d.QuerySockets();
    forall x | x in socks ensures Stands(T.Interest(d.pfds), P.Queried(socks[x]), obj[x]) {
      var k :| 0 <= k < |d.sockets| && d.sockets[k] == obj[x];
      T.InterestHas(d.pfds, k + 1);
      T.InterestHas(old(d.pfds), k + 1);
    }
  }

  /** DoOneSocketTask clears the bit of the socket it has handled. */
  method Clear(d: T.Driver, i: nat, ghost socks: map<nat, P.Sock>, ghost obj: map<nat, T.AsyncSock>, ghost x: nat)
    requires Represents(d, socks, obj) && i < |d.sockets|
    requires x in socks && obj[x] == d.sockets[i] && OwnFd(d.pipeFd, socks.Keys, obj, x)
    modifies d`pfds
    ensures Represents(d, socks[x := socks[x].(out := false)], obj)
  {
    OthersStand(T.Interest(d.pfds), socks, obj, x, socks[x].(out := false));
    d.StopWritePoll(i);
  }
}
