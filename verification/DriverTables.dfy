/** The driver's two parallel tables: the sockets and the pollfds, with the signalling pipe's entry in front. */
module DriverTables {
  import opened Wrappers
  import opened WriteInterest

  /** A socket as far as the driver's tables are concerned. */
  class AsyncSock {
    const fd: int
    const isTls: bool
    var tls: TlsState

    constructor (fd: int, isTls: bool, tls: TlsState)
      ensures this.fd == fd && this.isTls == isTls && this.tls == tls
    {
      this.fd, this.isTls, this.tls := fd, isTls, tls;
    }
  }

  /** Requested events, and events reported by the last poll. */
  datatype Pollfd = Pollfd(fd: int, pollin: bool, pollout: bool, readable: bool, writable: bool, hangup: bool)

  datatype Event = Readable | Writable | Hangup

  predicate Distinct(pfds: seq<Pollfd>)
  {
    forall i, j | 0 <= i < j < |pfds| :: pfds[i].fd != pfds[j].fd
  }

  /** The POLLOUT interest by file descriptor, without the pipe's entry. */
  function Interest(pfds: seq<Pollfd>): map<int, bool>
  {
    if |pfds| <= 1 then map[]
    else
      var last := pfds[|pfds| - 1];
      Interest(pfds[..|pfds| - 1])[last.fd := last.pollout]
  }

  /** At most one socket is gone; the others keep their order, in which they are served. */
  ghost predicate Removed(before: seq<AsyncSock>, after: seq<AsyncSock>)
  {
    after == before || exists i | 0 <= i < |before| :: after == before[..i] + before[i + 1..]
  }

  ghost predicate Aligned(sockets: seq<AsyncSock>, pfds: seq<Pollfd>, pipeFd: int)
  {
    && |sockets| + 1 == |pfds|
    && pfds[0].fd == pipeFd && !pfds[0].pollout
    && (forall i | 0 <= i < |sockets| :: pfds[i + 1].fd == sockets[i].fd)
    && (forall i | 0 <= i < |pfds| :: pfds[i].pollin)
    && Distinct(pfds)
  }

  class Driver {
    const pipeFd: int
    var sockets: seq<AsyncSock>
    var pfds: seq<Pollfd>

    ghost predicate Valid()
      reads this
    {
      Aligned(sockets, pfds, pipeFd)
    }

    constructor (pipeFd: int)
      ensures Valid() && this.pipeFd == pipeFd && sockets == [] && Interest(pfds) == map[]
    {
      this.pipeFd := pipeFd;
      sockets := [];
      pfds := [Pollfd(pipeFd, true, false, false, false, false)];
    }

    /** std::find_if with FdEqual over the pollfds. */
    method FindPollfd(fd: int) returns (i: nat)
      ensures i <= |pfds| && (i < |pfds| ==> pfds[i].fd == fd)
      ensures forall k | 0 <= k < i :: pfds[k].fd != fd
    {
      i := 0;
      while i < |pfds| && pfds[i].fd != fd
        invariant i <= |pfds| && forall k | 0 <= k < i :: pfds[k].fd != fd
      {
        i := i + 1;
      }
    }

    /** std::find_if with FdEqual over the sockets. */
    method FindSocket(fd: int) returns (i: nat)
      ensures i <= |sockets| && (i < |sockets| ==> sockets[i].fd == fd)
      ensures forall k | 0 <= k < i :: sockets[k].fd != fd
    {
      i := 0;
      while i < |sockets| && sockets[i].fd != fd
        invariant i <= |sockets| && forall k | 0 <= k < i :: sockets[k].fd != fd
      {
        i := i + 1;
      }
    }

    /** The file descriptors of live sockets are distinct, and none is the pipe's. */
    method AsyncRegister(sock: AsyncSock)
      requires Valid() && forall i | 0 <= i < |pfds| :: pfds[i].fd != sock.fd
      modifies this
      ensures Valid() && sockets == old(sockets) + [sock]
      ensures Interest(pfds) == Interest(old(pfds))[sock.fd := false]
    {
      sockets := sockets + [sock];
      pfds := pfds + [Pollfd(sock.fd, true, false, false, false, false)];
      InterestWith(old(pfds), pfds[|pfds| - 1]);
    }

    /** Unregistering twice, as from the disconnect and the destructor, is the same as once. */
    method AsyncUnregister(fd: int)
      requires Valid() && fd != pipeFd
      modifies this
      ensures Valid() && Interest(pfds) == Interest(old(pfds)) - {fd}
      ensures forall sock | sock in sockets :: sock in old(sockets) && sock.fd != fd
      ensures forall sock | sock in old(sockets) && sock.fd != fd :: sock in sockets
      ensures Removed(old(sockets), sockets)
    {
      var i := FindSocket(fd);
      ghost var at := i;
      if i != |sockets| {
        sockets := sockets[..i] + sockets[i + 1..];
      }
      i := FindPollfd(fd);
      assert i == at + 1 by { SameEntry(old(sockets), pfds, pipeFd, fd, at, i); }
      if i != |pfds| {
        InterestWithout(pfds, i);
        pfds := pfds[..i] + pfds[i + 1..];
      } else {
        NotInterested(pfds, fd);
      }
    }

    /** The answer says whether the entry was found, as the source asserts. */
    method AsyncWantSend(fd: int) returns (found: bool)
      requires Valid() && fd != pipeFd
      modifies this`pfds
      ensures Valid()
      ensures found <==> fd in Interest(old(pfds))
      ensures Interest(pfds) == if found then Interest(old(pfds))[fd := true] else Interest(old(pfds))
    {
      var i := FindPollfd(fd);
      found := i != |pfds|;
      if !found {
        NotInterested(pfds, fd);
      } else {
        InterestHas(pfds, i);
        InterestUpdate(pfds, i, true);
        pfds := pfds[i := pfds[i].(pollout := true)];
      }
    }

    /** Every TLS socket edits its own entry, and no other. */
    method QuerySockets()
      requires Valid()
      modifies this`pfds, sockets
      ensures Valid() && |pfds| == |old(pfds)|
      ensures forall k | 0 <= k < |sockets| ::
                if sockets[k].isTls
                then Edited(old(pfds)[k + 1], old(sockets[k].tls), pfds[k + 1], sockets[k].tls)
                else pfds[k + 1] == old(pfds)[k + 1] && sockets[k].tls == old(sockets[k].tls)
    {
      DistinctSockets(sockets, pfds, pipeFd);
      for i := 0 to |sockets|
        invariant Valid() && |pfds| == |old(pfds)|
        invariant pfds[i + 1..] == old(pfds)[i + 1..]
        invariant forall k | i <= k < |sockets| :: sockets[k].tls == old(sockets[k].tls)
        invariant forall k | 0 <= k < i ::
                    if sockets[k].isTls
                    then Edited(old(pfds)[k + 1], old(sockets[k].tls), pfds[k + 1], sockets[k].tls)
                    else pfds[k + 1] == old(pfds)[k + 1] && sockets[k].tls == old(sockets[k].tls)
      {
        assert pfds[i + 1] == pfds[i + 1..][0] == old(pfds)[i + 1..][0];
        if sockets[i].isTls {
          var query := Query(sockets[i].tls, pfds[i + 1].pollout);
          pfds, sockets[i].tls := pfds[i + 1 := pfds[i + 1].(pollout := query.0)], query.1;
        }
      }
    }

    /** Choose one socket task: the first socket with a reported event, reading before writing before errors. */
    method ChooseTask() returns (task: Option<(nat, Event)>)
      requires Valid()
      ensures task.None? <==> forall k | 1 <= k < |pfds| :: !Reported(pfds[k])
      ensures task.Some? ==>
                var (i, event) := task.value;
                && i < |sockets| && Reported(pfds[i + 1])
                && (forall k | 1 <= k <= i :: !Reported(pfds[k]))
                && event == if pfds[i + 1].readable then Readable else if pfds[i + 1].writable then Writable else Hangup
    {
      for i := 0 to |sockets|
        invariant forall k | 1 <= k <= i :: !Reported(pfds[k])
      {
        if pfds[i + 1].readable {
          return Some((i, Readable));
        } else if pfds[i + 1].writable {
          return Some((i, Writable));
        } else if pfds[i + 1].hangup {
          return Some((i, Hangup));
        }
      }
      return None; // the source throws
    }

    /** Nothing is left to send: the handled socket no longer asks to be polled for writing. */
    method StopWritePoll(i: nat)
      requires Valid() && i < |sockets|
      modifies this`pfds
      ensures Valid() && Interest(pfds) == Interest(old(pfds))[sockets[i].fd := false]
    {
      InterestUpdate(pfds, i + 1, false);
      pfds := pfds[i + 1 := pfds[i + 1].(pollout := false)];
    }
  }

  /** The entry and TLS state of a socket before and after its query: only POLLOUT and the memory of it change. */
  predicate Edited(p: Pollfd, tls: TlsState, p': Pollfd, tls': TlsState)
  {
    (p'.pollout, tls') == Query(tls, p.pollout) && p' == p.(pollout := p'.pollout)
  }

  predicate Reported(p: Pollfd)
  {
    p.readable || p.writable || p.hangup
  }

  /** Both searches find the same socket, one entry apart. */
  lemma SameEntry(sockets: seq<AsyncSock>, pfds: seq<Pollfd>, pipeFd: int, fd: int, i: nat, j: nat)
    requires Aligned(sockets, pfds, pipeFd) && fd != pipeFd
    requires i <= |sockets| && (i < |sockets| ==> sockets[i].fd == fd) && forall k | 0 <= k < i :: sockets[k].fd != fd
    requires j <= |pfds| && (j < |pfds| ==> pfds[j].fd == fd) && forall k | 0 <= k < j :: pfds[k].fd != fd
    ensures j == i + 1
  {
    assert forall k | 0 <= k < |sockets| :: pfds[k + 1].fd == sockets[k].fd;
    if i < |sockets| {
      assert pfds[i + 1].fd == fd;
    }
    if j < |pfds| {
      assert pfds[j - 1 + 1].fd == sockets[j - 1].fd;
    }
  }

  lemma DistinctSockets(sockets: seq<AsyncSock>, pfds: seq<Pollfd>, pipeFd: int)
    requires Aligned(sockets, pfds, pipeFd)
    ensures forall j, k | 0 <= j < k < |sockets| :: sockets[j] != sockets[k]
  {
  }

  lemma InterestWith(pfds: seq<Pollfd>, p: Pollfd)
    requires |pfds| >= 1
    ensures Interest(pfds + [p]) == Interest(pfds)[p.fd := p.pollout]
  {
  }

  lemma {:induction false} NotInterested(pfds: seq<Pollfd>, fd: int)
    requires forall k | 1 <= k < |pfds| :: pfds[k].fd != fd
    ensures fd !in Interest(pfds)
  {
    if |pfds| > 1 {
      NotInterested(pfds[..|pfds| - 1], fd);
    }
  }

  lemma {:induction false} InterestHas(pfds: seq<Pollfd>, i: nat)
    requires Distinct(pfds) && 1 <= i < |pfds|
    ensures pfds[i].fd in Interest(pfds) && Interest(pfds)[pfds[i].fd] == pfds[i].pollout
  {
    if i < |pfds| - 1 {
      InterestHas(pfds[..|pfds| - 1], i);
    }
  }

  lemma {:induction false} InterestWithout(pfds: seq<Pollfd>, i: nat)
    requires Distinct(pfds) && 1 <= i < |pfds|
    ensures Interest(pfds[..i] + pfds[i + 1..]) == Interest(pfds) - {pfds[i].fd}
    decreases |pfds|
  {
    var n := |pfds| - 1;
    if i == n {
      assert pfds[..i] + pfds[i + 1..] == pfds[..n];
      NotInterested(pfds[..n], pfds[n].fd);
    } else {
      assert (pfds[..i] + pfds[i + 1..])[..n - 1] == pfds[..n][..i] + pfds[..n][i + 1..];
      InterestWithout(pfds[..n], i);
    }
  }

  lemma {:induction false} InterestUpdate(pfds: seq<Pollfd>, i: nat, out: bool)
    requires Distinct(pfds) && 1 <= i < |pfds|
    ensures Interest(pfds[i := pfds[i].(pollout := out)]) == Interest(pfds)[pfds[i].fd := out]
    decreases |pfds|
  {
    var n := |pfds| - 1;
    if i == n {
      assert pfds[i := pfds[i].(pollout := out)][..n] == pfds[..n];
    } else {
      assert pfds[i := pfds[i].(pollout := out)][..n] == pfds[..n][i := pfds[i].(pollout := out)];
      InterestUpdate(pfds[..n], i, out);
    }
  }
}
