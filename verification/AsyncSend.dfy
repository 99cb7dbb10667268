/** The asynchronous TCP send queue: enqueued buffers, partial sends, and the promises given for them. */
module AsyncSend {

  type Byte = bv8

  datatype Status = Pending | Value | Exception

  /** The shared state of a std::promise and its future. */
  class Promise {
    var status: Status

    constructor ()
      ensures status == Pending
    {
      status := Pending;
    }
  }

  class Buffer {
    var data: seq<Byte>

    constructor (data: seq<Byte>)
      ensures this.data == data
    {
      this.data := data;
    }
  }

  /** What one SendSome call does with the bytes it is given: report how many it sent, or throw a
      std::runtime_error, maybe after some of them were accepted. */
  datatype Attempt = Sent(n: nat) | Failed(n: nat)

  // ----- the stream, from its beginning -----

  /** One Send call: the buffer's content when enqueued, how many of its bytes the socket has accepted, and the
      state of its promise. */
  datatype Item = Item(content: seq<Byte>, accepted: nat, status: Status)

  /** All Send calls in order; the first done of them are resolved. */
  datatype Stream = Stream(items: seq<Item>, done: nat, wire: seq<Byte>)

  function Enqueued(s: Stream, content: seq<Byte>): Stream
  {
    s.(items := s.items + [Item(content, 0, Pending)])
  }

  function Attempted(s: Stream, a: Attempt): Stream
    requires s.done < |s.items| && s.items[s.done].accepted + a.n <= |s.items[s.done].content|
  {
    var front := s.items[s.done];
    var accepted := front.accepted + a.n;
    var wire := s.wire + front.content[front.accepted..accepted];
    if a.Failed? then
      Stream(s.items[s.done := Item(front.content, accepted, Exception)], s.done + 1, wire)
    else if accepted == |front.content| then
      Stream(s.items[s.done := Item(front.content, accepted, Value)], s.done + 1, wire)
    else
      Stream(s.items[s.done := front.(accepted := accepted)], s.done, wire)
  }

  /** The accepted bytes of all items, in order. */
  function Flat(items: seq<Item>): seq<Byte>
    requires forall i | 0 <= i < |items| :: items[i].accepted <= |items[i].content|
  {
    if items == [] then []
    else Flat(items[..|items| - 1]) + items[|items| - 1].content[..items[|items| - 1].accepted]
  }

  /** The wire has carried, in the order of the Send calls, all of each fulfilled buffer, a prefix of each failed
      buffer, and a prefix of the front buffer; promises are resolved in order. */
  ghost predicate Conserved(s: Stream)
  {
    && s.done <= |s.items|
    && (forall i | 0 <= i < |s.items| ::
          && s.items[i].accepted <= |s.items[i].content|
          && (s.items[i].status == Pending <==> i >= s.done)
          && (s.items[i].status == Value ==> s.items[i].accepted == |s.items[i].content|)
          && (i > s.done ==> s.items[i].accepted == 0)
          && (i == s.done && s.items[i].content != [] ==> s.items[i].accepted < |s.items[i].content|))
    && s.wire == Flat(s.items)
  }

  lemma {:induction false} FlatUpdate(items: seq<Item>, d: nat, item: Item)
    requires d < |items| && items[d].accepted <= item.accepted <= |item.content| && item.content == items[d].content
    requires forall i | 0 <= i < |items| :: items[i].accepted <= |items[i].content|
    requires forall i | d < i < |items| :: items[i].accepted == 0
    ensures Flat(items[d := item]) == Flat(items) + item.content[items[d].accepted..item.accepted]
    decreases |items|
  {
    var n := |items| - 1;
    if d == n {
      assert items[d := item][..n] == items[..n];
      assert item.content[..item.accepted]
          == item.content[..items[d].accepted] + item.content[items[d].accepted..item.accepted];
    } else {
      assert items[d := item][..n] == items[..n][d := item];
      FlatUpdate(items[..n], d, item);
    }
  }

  lemma EnqueueConserves(s: Stream, content: seq<Byte>)
    requires Conserved(s)
    ensures Conserved(Enqueued(s, content))
  {
  }

  lemma AttemptConserves(s: Stream, a: Attempt)
    requires Conserved(s)
    requires s.done < |s.items| && s.items[s.done].accepted + a.n <= |s.items[s.done].content|
    ensures Conserved(Attempted(s, a))
  {
    FlatUpdate(s.items, s.done, Attempted(s, a).items[s.done]);
  }

  datatype Event = Enqueue(content: seq<Byte>) | Try(attempt: Attempt)

  predicate Possible(s: Stream, e: Event)
  {
    e.Try? ==> s.done < |s.items| && s.items[s.done].accepted + e.attempt.n <= |s.items[s.done].content|
  }

  function Stepped(s: Stream, e: Event): Stream
    requires Possible(s, e)
  {
    match e
    case Enqueue(content) => Enqueued(s, content)
    case Try(a) => Attempted(s, a)
  }

  ghost predicate Runs(s: Stream, events: seq<Event>)
    decreases |events|
  {
    events == [] || (Possible(s, events[0]) && Runs(Stepped(s, events[0]), events[1..]))
  }

  ghost function After(s: Stream, events: seq<Event>): Stream
    requires Runs(s, events)
    decreases |events|
  {
    if events == [] then s else After(Stepped(s, events[0]), events[1..])
  }

  /** What is resolved stays as it is, the content of every Send call, in its order, is never changed,
      and the wire only grows. */
  ghost predicate Extends(s: Stream, s': Stream)
  {
    && s.done <= s'.done <= |s'.items| && s.done <= |s.items| <= |s'.items|
    && (forall i | 0 <= i < s.done :: s'.items[i] == s.items[i])
    && (forall i | 0 <= i < |s.items| :: s'.items[i].content == s.items[i].content)
    && s.wire <= s'.wire
  }

  lemma StepConserves(s: Stream, e: Event)
    requires Conserved(s) && Possible(s, e)
    ensures Conserved(Stepped(s, e)) && Extends(s, Stepped(s, e))
  {
    match e
    case Enqueue(content) => EnqueueConserves(s, content);
    case Try(a) => AttemptConserves(s, a);
  }

  lemma ExtendsTransitive(a: Stream, b: Stream, c: Stream)
    requires Extends(a, b) && Extends(b, c)
    ensures Extends(a, c)
  {
  }

  /** Conservation over any run of enqueues, partial sends and failures. */
  lemma {:induction false} StreamConservation(s: Stream, events: seq<Event>)
    requires Conserved(s) && Runs(s, events)
    ensures Conserved(After(s, events)) && Extends(s, After(s, events))
    decreases |events|
  {
    if events == [] {
    } else {
      var s1 := Stepped(s, events[0]);
      StepConserves(s, events[0]);
      StreamConservation(s1, events[1..]);
      ExtendsTransitive(s, s1, After(s1, events[1..]));
    }
  }

  /** The promise holds a value exactly if all bytes of its buffer were accepted. */
  predicate Truthful(item: Item)
  {
    item.status == Value <==> item.accepted == |item.content|
  }

  /** If the event is a failure, it leaves bytes of the front buffer unaccepted. */
  predicate FailsShort(s: Stream, e: Event)
    requires Possible(s, e)
  {
    e.Try? && e.attempt.Failed? ==> s.items[s.done].accepted + e.attempt.n < |s.items[s.done].content|
  }

  ghost predicate AllFailShort(s: Stream, events: seq<Event>)
    requires Runs(s, events)
    decreases |events|
  {
    events == [] || (FailsShort(s, events[0]) && AllFailShort(Stepped(s, events[0]), events[1..]))
  }

  /** After any run all resolved promises are truthful iff no attempt failed with nothing left to accept. */
  lemma {:induction false} ValueIffAccepted(s: Stream, events: seq<Event>)
    requires Conserved(s) && Runs(s, events)
    requires forall k | 0 <= k < s.done :: Truthful(s.items[k])
    ensures var s' := After(s, events);
            s'.done <= |s'.items|
            && ((forall k | 0 <= k < s'.done :: Truthful(s'.items[k])) <==> AllFailShort(s, events))
    decreases |events|
  {
    if events == [] {
    } else {
      var s1 := Stepped(s, events[0]);
      StepConserves(s, events[0]);
      if FailsShort(s, events[0]) {
        ValueIffAccepted(s1, events[1..]);
      } else {
        assert !Truthful(s1.items[s.done]);
        StreamConservation(s1, events[1..]);
        assert After(s, events).items[s.done] == s1.items[s.done];
      }
    }
  }

  /** A failure with nothing left to accept is possible for an empty buffer only. This is what the sockets promise. */
  predicate Honest(s: Stream, e: Event)
    requires Possible(s, e)
  {
    FailsShort(s, e) || s.items[s.done].content == []
  }

  ghost predicate AllHonest(s: Stream, events: seq<Event>)
    requires Runs(s, events)
    decreases |events|
  {
    events == [] || (Honest(s, events[0]) && AllHonest(Stepped(s, events[0]), events[1..]))
  }

  /** With honest sockets every resolved promise of a non-empty buffer is truthful; so only an empty buffer's promise
      can hold an exception for no reason. */
  lemma {:induction false} NonEmptyBuffersAreTruthful(s: Stream, events: seq<Event>)
    requires Conserved(s) && Runs(s, events) && AllHonest(s, events)
    requires forall k | 0 <= k < s.done && s.items[k].content != [] :: Truthful(s.items[k])
    ensures var s' := After(s, events);
            && s'.done <= |s'.items|
            && (forall k | 0 <= k < s'.done && s'.items[k].content != [] :: Truthful(s'.items[k]))
            && (forall k | 0 <= k < s'.done && s'.items[k].content == [] ::
                  Truthful(s'.items[k]) <==> s'.items[k].status == Value)
    decreases |events|
  {
    StreamConservation(s, events);
    if events == [] {
    } else {
      StepConserves(s, events[0]);
      NonEmptyBuffersAreTruthful(Stepped(s, events[0]), events[1..]);
    }
  }

  /** An empty buffer's promise can hold an exception although there was nothing left to accept. */
  lemma EmptyBufferMayFail()
    ensures var s := Attempted(Enqueued(Stream([], 0, []), []), Failed(0));
            && Conserved(s) && s.items[0].status == Exception && !Truthful(s.items[0])
  {
  }

  // ----- the queue -----

  datatype Element = Element(promise: Promise, buffer: Buffer)

  /** The queue's elements hold the promises of the Send calls not resolved yet, and what is left of their buffers. */
  ghost predicate Matches(queue: seq<Element>, rests: seq<seq<Byte>>, promises: seq<Promise>, s: Stream)
  {
    && Conserved(s)
    && |rests| == |queue| && |promises| == |s.items| == s.done + |queue|
    && (forall i, j | 0 <= i < j < |promises| :: promises[i] != promises[j])
    && (forall i, j | 0 <= i < j < |queue| :: queue[i].buffer != queue[j].buffer)
    && (forall i | 0 <= i < |queue| :: queue[i].promise == promises[s.done + i])
    && (forall i | 0 <= i < |queue| :: rests[i] == s.items[s.done + i].content[s.items[s.done + i].accepted..])
  }

  /** What an attempt does to the stream, seen from the rest of the front buffer. */
  lemma AttemptOnRest(s: Stream, a: Attempt, data: seq<Byte>)
    requires Conserved(s) && s.done < |s.items| && a.n <= |data|
    requires data == s.items[s.done].content[s.items[s.done].accepted..]
    ensures Possible(s, Try(a))
    ensures var s', i := Attempted(s, a), s.done;
            && Conserved(s') && |s'.items| == |s.items| && s'.wire == s.wire + data[..a.n]
            && s'.items[i].accepted <= |s'.items[i].content|
            && s'.items[i].content[s'.items[i].accepted..] == data[a.n..]
            && (forall k | 0 <= k < |s.items| && k != i :: s'.items[k] == s.items[k])
            && (if a.Sent? && a.n < |data| then s'.done == i && s'.items[i].status == Pending
                else s'.done == i + 1 && s'.items[i].status == if a.Sent? then Value else Exception)
  {
    AttemptConserves(s, a);
    var front := s.items[s.done];
    assert front.content[front.accepted..front.accepted + a.n] == data[..a.n];
  }

  lemma EnqueueMatches(queue: seq<Element>, rests: seq<seq<Byte>>, promises: seq<Promise>, s: Stream,
      e: Element, content: seq<Byte>)
    requires Matches(queue, rests, promises, s) && e.promise !in promises
    requires forall i | 0 <= i < |queue| :: queue[i].buffer != e.buffer
    ensures Matches(queue + [e], rests + [content], promises + [e.promise], Enqueued(s, content))
  {
    EnqueueConserves(s, content);
  }

  lemma KeepMatches(queue: seq<Element>, rests: seq<seq<Byte>>, promises: seq<Promise>, s: Stream, n: nat)
    requires Matches(queue, rests, promises, s) && queue != [] && n < |rests[0]|
    ensures Possible(s, Try(Sent(n)))
    ensures Matches(queue, rests[0 := rests[0][n..]], promises, Attempted(s, Sent(n)))
    ensures Attempted(s, Sent(n)).wire == s.wire + rests[0][..n]
    ensures forall k | 0 <= k < |s.items| :: Attempted(s, Sent(n)).items[k].status == s.items[k].status
  {
    AttemptOnRest(s, Sent(n), rests[0]);
  }

  lemma ResolveMatches(queue: seq<Element>, rests: seq<seq<Byte>>, promises: seq<Promise>, s: Stream, a: Attempt)
    requires Matches(queue, rests, promises, s) && queue != [] && a.n <= |rests[0]|
    requires a.Sent? ==> a.n == |rests[0]|
    ensures Possible(s, Try(a))
    ensures Matches(queue[1..], rests[1..], promises, Attempted(s, a))
    ensures Attempted(s, a).wire == s.wire + rests[0][..a.n]
    ensures forall k | 0 <= k < |s.items| ::
              Attempted(s, a).items[k].status
              == if k == s.done then if a.Sent? then Value else Exception else s.items[k].status
  {
    AttemptOnRest(s, a, rests[0]);
  }

  /** SocketAsyncImpl's send queue. The history variables record all Send calls ever made. */
  class SendQueue {
    var queue: seq<Element>
    var wire: seq<Byte>         // bytes accepted by the socket
    ghost var stream: Stream
    ghost var promises: seq<Promise>
    ghost var rests: seq<seq<Byte>>

    ghost predicate Valid()
      reads this, promises, set e | e in queue :: e.buffer
    {
      && Matches(queue, rests, promises, stream)
      && stream.wire == wire
      && (forall i | 0 <= i < |queue| :: queue[i].buffer.data == rests[i])
      && (forall i | 0 <= i < |promises| :: promises[i].status == stream.items[i].status)
    }

    constructor ()
      ensures Valid() && queue == [] && stream == Stream([], 0, []) && promises == []
    {
      queue, wire, stream, promises, rests := [], [], Stream([], 0, []), [], [];
    }

    /** DoSendEnqueue: the answer tells the caller to request write polling. */
    method Enqueue(buffer: Buffer) returns (promise: Promise, wasEmpty: bool)
      requires Valid()
      requires forall e | e in queue :: e.buffer != buffer
      modifies this
      ensures Valid()
      ensures stream == Enqueued(old(stream), buffer.data)
      ensures wasEmpty <==> old(queue) == []
      ensures fresh(promise) && promises == old(promises) + [promise]
      ensures queue == old(queue) + [Element(promise, buffer)]
    {
      promise := new Promise();
      wasEmpty := queue == [];
      EnqueueMatches(queue, rests, promises, stream, Element(promise, buffer), buffer.data);
      queue := queue + [Element(promise, buffer)];
      stream := Enqueued(stream, buffer.data);
      promises, rests := promises + [promise], rests + [buffer.data];
    }

    /** The front buffer has been sent in part: erase that part from it. */
    method Keep(n: nat)
      requires Valid() && queue != [] && n < |queue[0].buffer.data|
      modifies this`wire, this`stream, this`rests, queue[0].buffer
      ensures Valid() && Possible(old(stream), Try(Sent(n))) && stream == Attempted(old(stream), Sent(n))
      ensures queue[0].buffer.data == old(queue[0].buffer.data)[n..]
      ensures wire == old(wire) + old(queue[0].buffer.data)[..n]
    {
      var front := queue[0];
      KeepMatches(queue, rests, promises, stream, n);
      stream := Attempted(stream, Sent(n));
      wire := wire + front.buffer.data[..n];
      front.buffer.data := front.buffer.data[n..];
      rests := rests[0 := rests[0][n..]];
    }

    /** The front buffer is done with: resolve its promise and pop it. */
    method Resolve(attempt: Attempt)
      requires Valid() && queue != [] && attempt.n <= |queue[0].buffer.data|
      requires attempt.Sent? ==> attempt.n == |queue[0].buffer.data|
      modifies this`wire, this`stream, this`queue, this`rests, queue[0].promise
      ensures Valid() && queue == old(queue)[1..]
      ensures Possible(old(stream), Try(attempt)) && stream == Attempted(old(stream), attempt)
      ensures old(queue)[0].promise.status == if attempt.Sent? then Value else Exception
      ensures wire == old(wire) + old(queue[0].buffer.data)[..attempt.n]
    {
      var front := queue[0];
      ResolveMatches(queue, rests, promises, stream, attempt);
      assert front.promise == promises[stream.done];
      stream := Attempted(stream, attempt);
      wire := wire + front.buffer.data[..attempt.n];
      front.promise.status := if attempt.Sent? then Value else Exception;
      queue, rests := queue[1..], rests[1..];
    }

    /** An attempt to send the front buffer. If it sent a part, the part is taken off the buffer, and nothing else
        happens; otherwise the promise is resolved and the buffer leaves the queue. */
    method SendFront(attempt: Attempt)
      requires Valid() && queue != [] && attempt.n <= |queue[0].buffer.data|
      modifies this`wire, this`stream, this`queue, this`rests, queue[0].buffer, queue[0].promise
      ensures Valid() && Possible(old(stream), Try(attempt)) && stream == Attempted(old(stream), attempt)
      ensures wire == old(wire) + old(queue[0].buffer.data)[..attempt.n]
      ensures if attempt.Sent? && attempt.n < |old(queue[0].buffer.data)|
              then && queue == old(queue) && queue[0].buffer.data == old(queue[0].buffer.data)[attempt.n..]
                   && queue[0].promise.status == old(queue[0].promise.status)
              else && queue == old(queue)[1..]
                   && old(queue)[0].promise.status == (if attempt.Sent? then Value else Exception)
    {
      if attempt.Sent? && attempt.n < |queue[0].buffer.data| {
        Keep(attempt.n);
      } else {
        Resolve(attempt);
      }
    }

    /** DriverSend: the answer is true when there is no more data to send. An empty queue stays as it is. */
    method DriverSend(attempt: Attempt) returns (emptied: bool)
      requires Valid()
      requires queue != [] ==> attempt.n <= |queue[0].buffer.data|
      modifies this, set e | e in queue :: e.buffer, promises
      ensures Valid()
      ensures old(queue) == [] ==> stream == old(stream)
      ensures old(queue) != [] ==> Possible(old(stream), Try(attempt)) && stream == Attempted(old(stream), attempt)
      ensures promises == old(promises)
      ensures emptied <==> queue == []
    {
      if queue == [] {
        return true; // only POLLOUT for a handshake leads here
      }
      assert queue[0].promise in promises;
      SendFront(attempt);
      emptied := queue == [];
    }
  }
}
