/** Timeouts: the deadline objects of wait.h, MinDuration and the conversion of a Duration for poll.
    Points in time count nanoseconds (steady_clock), durations given by users count milliseconds. */
module Deadlines {

  const NS_PER_MS: int := 1_000_000

  /** duration_cast from nanoseconds to milliseconds, which truncates towards zero. */
  function ToMs(ns: int): int
  {
    if ns >= 0 then ns / NS_PER_MS else -((-ns) / NS_PER_MS)
  }

  datatype Limit = Unlimited | Zero | Until(deadline: int)

  predicate TimeLeft(limit: Limit, now: int)
  {
    match limit
    case Unlimited => true
    case Zero => false
    case Until(deadline) => now < deadline
  }

  function Remaining(limit: Limit, now: int): int
  {
    match limit
    case Unlimited => -1
    case Zero => 0
    case Until(deadline) => var r := ToMs(deadline - now); if r < 0 then 0 else r
  }

  /** The limit a caller's timeout stands for. */
  function LimitFor(timeout: int, now: int): Limit
  {
    if timeout < 0 then Unlimited else if timeout == 0 then Zero else Until(now + timeout * NS_PER_MS)
  }

  /** DeadlineUnlimitedTime, DeadlineZeroTime or DeadlineLimited, by the limit. */
  class Deadline {
    const limit: Limit
    var now: int

    constructor (timeout: int, reading: int)
      ensures limit == LimitFor(timeout, reading) && now == reading
    {
      limit := LimitFor(timeout, reading);
      now := reading;
    }

    method Tick(reading: int)
      modifies this
      ensures now == reading
    {
      now := reading;
    }
  }

  /** The shorter of a time in nanoseconds and a caller's timeout in milliseconds, negative meaning none. */
  function MinDuration(lhs: int, rhs: int): int
  {
    if rhs < 0 then ToMs(lhs) else if ToMs(lhs) < rhs then ToMs(lhs) else rhs
  }

  /** A non-negative timeout never becomes negative, ends no later than the deadline,
      and ends less than a millisecond before it. */
  lemma RemainingWithinDeadline(deadline: int, now: int)
    ensures var r := Remaining(Until(deadline), now);
            && r >= 0
            && (r > 0 ==> now + r * NS_PER_MS <= deadline)
            && deadline < now + (r + 1) * NS_PER_MS
  {
  }

  /** What a caller's timeout of so many milliseconds, taken at one time, means at any other. */
  lemma TimeoutMeans(timeout: int, start: int, now: int)
    ensures var limit, left := LimitFor(timeout, start), start + timeout * 1_000_000 - now;
            && (timeout < 0 ==> TimeLeft(limit, now) && Remaining(limit, now) < 0)
            && (timeout == 0 ==> !TimeLeft(limit, now) && Remaining(limit, now) == 0)
            && (timeout > 0 ==> (TimeLeft(limit, now) <==> left > 0))
            && (timeout > 0 ==> Remaining(limit, now) == if left > 0 then left / 1_000_000 else 0)
            && (timeout >= 0 ==> Remaining(limit, start) == timeout)
  {
  }

  /** MinDuration is the longest wait in whole milliseconds that passes neither of both times. */
  lemma MinDurationIsEarliest(until: int, limit: Limit, now: int)
    requires until > 0
    ensures var r := MinDuration(until, Remaining(limit, now));
            && 0 <= r && r * NS_PER_MS <= until
            && (limit.Until? && r > 0 ==> now + r * NS_PER_MS <= limit.deadline)
            && (limit.Zero? ==> r == 0)
            && (forall w :: w * NS_PER_MS <= until && (limit.Unlimited? || w <= Remaining(limit, now)) ==> w <= r)
  {
  }

  // ----- poll's int argument -----

  const TWO31: int := 0x8000_0000
  const TWO32: int := 0x1_0000_0000

  /** duration_cast to milliseconds counted by a 32-bit int: the conversion wraps around. */
  function ToMsec(ms: int): (t: int)
    ensures -TWO31 <= t < TWO31
  {
    var m := ms % TWO32;
    if m >= TWO31 then m - TWO32 else m
  }

  /** The longest time poll may sleep for its argument; none means no limit. */
  predicate MaySleep(t: int, ms: int)
  {
    t < 0 || ms <= t
  }

  /** poll honours a non-negative timeout, that is it does not sleep longer, exactly when the timeout's
      lower half as a 32-bit pattern has its top bit clear; in particular up to 2^31 - 1 ms. */
  lemma HonouredIff(ms: int)
    requires ms >= 0
    ensures (forall longer :: longer > ms ==> !MaySleep(ToMsec(ms), longer)) <==> ms % TWO32 < TWO31
    ensures ms < TWO31 ==> ToMsec(ms) == ms
  {
    var t := ToMsec(ms);
    if t >= 0 {
      assert t <= ms;
    } else {
      assert MaySleep(t, ms + 1);
    }
  }

  /** poll sleeps without limit for a negative timeout exactly when the same bit is set;
      for noTimeout, -1, it does. */
  lemma UnlimitedIff(ms: int)
    requires ms < 0
    ensures (forall time :: MaySleep(ToMsec(ms), time)) <==> ms % TWO32 >= TWO31
    ensures ms >= -TWO31 ==> ToMsec(ms) == ms
  {
    var t := ToMsec(ms);
    if t >= 0 {
      assert !MaySleep(t, t + 1);
    }
  }

  /** Thirty days is a timeout that poll does not honour. */
  lemma ThirtyDaysSleepForever()
    ensures ToMsec(30 * 24 * 60 * 60 * 1000) < 0
    ensures MaySleep(ToMsec(30 * 24 * 60 * 60 * 1000), 365 * 24 * 60 * 60 * 1000)
  {
  }
}
