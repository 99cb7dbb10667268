/** The buffer pool: who owns which buffer, and when the pool is out of buffers. */
module BufferPool {
  import opened Wrappers

  type Byte = bv8

  const TWO64: int := 0x1_0000_0000_0000_0000

  /** The size of a container, a size_t. */
  function Size(n: nat): nat
  {
    n % TWO64
  }

  /** The constructor's m_maxCount; the subtraction wraps around for "unlimited", 0. */
  function MaxCount(limit: nat): nat
  {
    (limit - 1) % TWO64
  }

  // ----- the bookkeeping, over any kind of buffer -----

  /** The top of the idle stack is its last element. peak is the largest number of buffers ever out at a time. */
  datatype Pool<T> = Pool(limit: nat, idle: seq<T>, busy: seq<T>, peak: nat)

  predicate OutOfBuffers<T>(p: Pool<T>)
  {
    p.idle == [] && Size(|p.busy|) > MaxCount(p.limit)
  }

  /** Get, given the buffer that an allocation would make; none is lent when out of buffers. */
  function Got<T>(p: Pool<T>, alloc: T): (Pool<T>, Option<T>)
  {
    if OutOfBuffers(p) then (p, None)
    else
      var peak := if |p.busy| + 1 > p.peak then |p.busy| + 1 else p.peak;
      if p.idle == [] then (p.(busy := p.busy + [alloc], peak := peak), Some(alloc))
      else
        var top := p.idle[|p.idle| - 1];
        (Pool(p.limit, p.idle[..|p.idle| - 1], p.busy + [top], peak), Some(top))
  }

  function Without<T(==)>(s: seq<T>, b: T): (r: seq<T>)
    ensures b in s ==> multiset(s) == multiset(r) + multiset{b}
    ensures b !in s ==> r == s
    ensures |r| == |s| - if b in s then 1 else 0
  {
    if s == [] then []
    else if s[0] == b then
      assert s == [s[0]] + s[1..];
      s[1..]
    else
      assert s == [s[0]] + s[1..];
      [s[0]] + Without(s[1..], b)
  }

  /** Recycle; a buffer that is not out is refused. */
  function Recycled<T(==)>(p: Pool<T>, b: T): Pool<T>
  {
    if b in p.busy then p.(idle := p.idle + [b], busy := Without(p.busy, b)) else p
  }

  function Owned<T>(p: Pool<T>): multiset<T>
  {
    multiset(p.idle) + multiset(p.busy)
  }

  /** Every buffer is in one place. With a limit there are always that many; without, as many as were ever
      needed at a time. */
  ghost predicate Sound<T>(p: Pool<T>)
  {
    && p.limit < TWO64
    && (forall b | b in Owned(p) :: Owned(p)[b] == 1)
    && |p.idle| + |p.busy| == (if p.limit > 0 then p.limit else p.peak)
    && |p.busy| <= p.peak
  }

  /** The wrapped-around count makes the test of Get exact: it fails iff as many buffers are out as agreed. */
  lemma OutOfBuffersIff<T>(p: Pool<T>)
    requires Sound(p)
    ensures OutOfBuffers(p) <==> p.limit > 0 && |p.busy| == p.limit
  {
  }

  lemma GotTop<T>(p: Pool<T>, alloc: T)
    requires Sound(p) && p.idle != []
    ensures var (p', r) := Got(p, alloc);
            && r.Some? && r.value !in p.busy && p'.busy == p.busy + [r.value] && Owned(p') == Owned(p)
  {
    TopMoves(p.idle, p.busy);
    assert p.idle[|p.idle| - 1] in multiset(p.idle);
    assert p.idle[|p.idle| - 1] in Owned(p);
  }

  lemma GotAlloc<T>(p: Pool<T>, alloc: T)
    requires Sound(p) && p.idle == [] && alloc !in Owned(p)
    ensures var (p', r) := Got(p, alloc);
            r.Some? ==>
              && r.value == alloc && alloc !in p.busy && p'.busy == p.busy + [alloc]
              && Owned(p') == Owned(p) + multiset{alloc}
  {
  }

  lemma GotKeepsSound<T>(p: Pool<T>, alloc: T)
    requires Sound(p) && (p.idle == [] ==> alloc !in Owned(p))
    ensures var (p', r) := Got(p, alloc);
            && Sound(p')
            && (r.None? <==> p.limit > 0 && |p.busy| == p.limit)
            && (r.None? ==> p' == p)
            && (r.Some? ==> r.value !in p.busy && p'.busy == p.busy + [r.value])
            && (r.Some? ==> Owned(p') == if p.idle == [] then Owned(p) + multiset{alloc} else Owned(p))
            && (r.Some? && p.idle == [] ==> p.limit == 0 && |p.busy| == p.peak)
  {
    OutOfBuffersIff(p);
    if p.idle != [] {
      GotTop(p, alloc);
    } else {
      GotAlloc(p, alloc);
    }
  }

  lemma TopMoves<T>(idle: seq<T>, busy: seq<T>)
    requires idle != []
    ensures var n := |idle| - 1;
            multiset(idle[..n]) + multiset(busy + [idle[n]]) == multiset(idle) + multiset(busy)
  {
    assert idle == idle[..|idle| - 1] + [idle[|idle| - 1]];
  }

  lemma {:induction false} WithoutAt<T>(s: seq<T>, i: nat)
    requires i < |s| && s[i] !in s[..i]
    ensures Without(s, s[i]) == s[..i] + s[i + 1..]
    decreases |s|
  {
    if i > 0 {
      assert s[1..][..i - 1] == s[..i][1..];
      assert s[0] in s[..i];
      WithoutAt(s[1..], i - 1);
    }
  }

  lemma RecycledKeepsSound<T>(p: Pool<T>, b: T)
    requires Sound(p)
    ensures var p' := Recycled(p, b);
            && Sound(p') && Owned(p') == Owned(p)
            && (b in p.busy ==> b !in p'.busy && |p'.busy| == |p.busy| - 1 && p'.idle == p.idle + [b])
            && (b !in p.busy ==> p' == p)
  {
    if b in p.busy {
      assert Owned(p)[b] == 1;
      assert Owned(Recycled(p, b)) == Owned(p);
    }
  }

  /** What a Get after a Recycle lends is the buffer recycled last. */
  lemma LastRecycledFirst<T>(p: Pool<T>, b: T, alloc: T)
    requires Sound(p) && b in p.busy
    ensures Got(Recycled(p, b), alloc).1 == Some(b)
    ensures Got(Recycled(p, b), alloc).0.idle == p.idle
  {
  }

  datatype Event<T> = Get(alloc: T) | Recycle(buffer: T)

  function Stepped<T(==)>(p: Pool<T>, e: Event<T>): Pool<T>
  {
    match e
    case Get(alloc) => Got(p, alloc).0
    case Recycle(b) => Recycled(p, b)
  }

  function After<T(==)>(p: Pool<T>, events: seq<Event<T>>): Pool<T>
  {
    if events == [] then p else Stepped(After(p, events[..|events| - 1]), events[|events| - 1])
  }

  /** Allocation never makes a buffer that exists. */
  ghost predicate FreshAllocs<T>(p: Pool<T>, events: seq<Event<T>>)
  {
    forall i | 0 <= i < |events| && events[i].Get? :: events[i].alloc !in Owned(After(p, events[..i]))
  }

  /** The largest number of buffers out at a time in a run. */
  function PeakOut<T(==)>(p: Pool<T>, events: seq<Event<T>>): nat
  {
    if events == [] then |p.busy|
    else
      var before := PeakOut(p, events[..|events| - 1]);
      if |After(p, events).busy| > before then |After(p, events).busy| else before
  }

  lemma StepKeepsSound<T>(p: Pool<T>, e: Event<T>)
    requires Sound(p) && (e.Get? ==> e.alloc !in Owned(p))
    ensures var p' := Stepped(p, e);
            && Sound(p') && p'.limit == p.limit
            && p'.peak == if |p'.busy| > p.peak then |p'.busy| else p.peak
  {
    match e
    case Get(alloc) => GotKeepsSound(p, alloc);
    case Recycle(b) => RecycledKeepsSound(p, b);
  }

  /** Conservation over any run, from a new pool: every buffer is idle or out, never both and never twice;
      with a limit there are that many buffers all along; without, buffers allocated are exactly as many as were
      ever out at a time. */
  lemma {:induction false} PoolConservation<T>(p: Pool<T>, events: seq<Event<T>>)
    requires Sound(p) && p.busy == [] && p.peak == 0 && FreshAllocs(p, events)
    ensures var p' := After(p, events);
            && Sound(p') && p'.limit == p.limit
            && p'.peak == PeakOut(p, events)
            && |p'.idle| + |p'.busy| == if p.limit > 0 then p.limit else PeakOut(p, events)
  {
    if events == [] {
    } else {
      var n := |events| - 1;
      assert forall i | 0 <= i < n :: events[..n][..i] == events[..i];
      PoolConservation(p, events[..n]);
      StepKeepsSound(After(p, events[..n]), events[n]);
    }
  }

  // ----- the pool of strings -----

  class Buffer {
    var content: seq<Byte>
    var capacity: nat

    constructor (capacity: nat)
      ensures content == [] && this.capacity == capacity
    {
      content, this.capacity := [], capacity;
    }
  }

  datatype Error = OutOf | Invalid

  class BufferPool {
    const maxCount: nat
    var idle: seq<Buffer>
    var busy: seq<Buffer>
    ghost var pool: Pool<Buffer>

    ghost predicate Valid()
      reads this
    {
      Sound(pool) && pool.idle == idle && pool.busy == busy && maxCount == MaxCount(pool.limit)
    }

    constructor (limit: nat, reserve: nat)
      requires limit < TWO64
      ensures Valid() && pool.limit == limit && busy == [] && pool.peak == 0
      ensures |idle| == limit && fresh(idle)
      ensures forall b | b in idle :: b.content == [] && b.capacity == reserve
    {
      maxCount := (limit - 1) % TWO64;
      idle, busy := [], [];
      pool := Pool(limit, [], [], 0);
      new;
      for i := 0 to limit
        invariant |idle| == i && busy == []
        invariant fresh(set b | b in idle)
        invariant forall b | b in idle :: b.content == [] && b.capacity == reserve
        invariant forall b | b in multiset(idle) :: multiset(idle)[b] == 1
      {
        var buf := new Buffer(reserve);
        idle := idle + [buf];
      }
      pool := Pool(limit, idle, [], 0);
    }

    /** Lend the given buffer: the top of the idle stack, or a new one. */
    method Lend(buf: Buffer)
      requires Valid() && !OutOfBuffers(pool)
      requires if idle == [] then buf !in Owned(pool) else buf == idle[|idle| - 1]
      modifies this
      ensures Valid() && (pool, Some(buf)) == Got(old(pool), buf)
      ensures buf !in old(busy) && busy == old(busy) + [buf]
    {
      GotKeepsSound(pool, buf);
      pool := Got(pool, buf).0;
      busy, idle := busy + [buf], if idle == [] then [] else idle[..|idle| - 1];
    }

    method Get() returns (r: Result<Buffer, Error>)
      requires Valid()
      modifies this, idle
      ensures Valid() && pool.limit == old(pool).limit
      ensures r.Failure? <==> pool.limit > 0 && |old(busy)| == pool.limit
      ensures r.Failure? ==> pool == old(pool)
      ensures r.Success? ==>
                && r.value !in old(busy) && busy == old(busy) + [r.value] && r.value.content == []
                && (old(idle) == [] ==> fresh(r.value))
                && (pool, Some(r.value)) == Got(old(pool), r.value)
      ensures forall b | b in old(busy) :: unchanged(b)
    {
      OutOfBuffersIff(pool);
      if idle == [] {
        if Size(|busy|) <= maxCount {
          var buf := new Buffer(0);
          assert buf !in busy;
          Lend(buf);
          return Success(buf);
        } else {
          return Failure(OutOf);
        }
      } else {
        var buf := idle[|idle| - 1];
        Lend(buf);
        buf.content := [];
        return Success(buf);
      }
    }

    /** std::find_if with BufferEqual. */
    method FindBusy(buf: Buffer) returns (i: nat)
      ensures i <= |busy| && buf !in busy[..i]
      ensures i < |busy| ==> busy[i] == buf
      ensures i == |busy| <==> buf !in busy
    {
      i := 0;
      while i < |busy| && busy[i] != buf
        invariant i <= |busy| && buf !in busy[..i]
      {
        i := i + 1;
      }
      assert busy == busy[..i] + busy[i..];
    }

    method Recycle(buf: Buffer) returns (r: Result<(), Error>)
      requires Valid()
      modifies this
      ensures Valid() && pool == Recycled(old(pool), buf)
      ensures r.Failure? <==> buf !in old(busy)
    {
      RecycledKeepsSound(pool, buf);
      var i := FindBusy(buf);
      if i == |busy| {
        return Failure(Invalid);
      }
      WithoutAt(busy, i);
      idle, busy := idle + [busy[i]], busy[..i] + busy[i + 1..];
      pool := Recycled(pool, buf);
      return Success(());
    }
  }
}
