/** The token bucket that limits what a peer can be sent, or can send, over time. */
module RateLimiter {
  import opened Prelude
  import opened GrsTypes

  datatype Limiter = Limiter(capacity: nat, tokens: nat, refillPerSecond: nat, lastRefillTime: nat)

  function SaturatingAdd(a: nat, b: nat): nat {
    Min(a + b, U64_MAX)
  }

  function SaturatingMul(a: nat, b: nat): nat {
    Min(a * b, U64_MAX)
  }

  function Refilled(l: Limiter, extra: nat, now: nat): Limiter {
    var earned := if now > l.lastRefillTime then
      SaturatingAdd(extra, SaturatingMul(now - l.lastRefillTime, l.refillPerSecond)) else extra;
    l.(tokens := Min(l.capacity, SaturatingAdd(l.tokens, earned)), lastRefillTime := now)
  }

  function Consumed(l: Limiter, amount: nat, now: nat): Result<Limiter, GrsError> {
    var refilled := Refilled(l, 0, now);
    if amount <= refilled.tokens then Ok(refilled.(tokens := refilled.tokens - amount)) else Err(RateLimitExceeded)
  }

  class Bucket {
    var capacity: nat
    var tokens: nat
    var refillPerSecond: nat
    var lastRefillTime: nat

    function Value(): Limiter
      reads this
    {
      Limiter(capacity, tokens, refillPerSecond, lastRefillTime)
    }

    constructor ()
      ensures Value() == Limiter(0, 0, 0, 0)
    {
      capacity, tokens, refillPerSecond, lastRefillTime := 0, 0, 0, 0;
    }

    method Refill(extra: nat, now: nat)
      modifies this
      ensures Value() == Refilled(old(Value()), extra, now)
    {
      var earned := extra;
      if now > lastRefillTime {
        var elapsed := now - lastRefillTime;
        earned := SaturatingAdd(earned, SaturatingMul(elapsed, refillPerSecond));
      }
      tokens := Min(capacity, SaturatingAdd(tokens, earned));
      lastRefillTime := now;
    }

    /** Accepts exactly what the refilled bucket holds; a refusal is rolled back with the instruction. */
    method TryConsume(amount: nat, now: nat) returns (r: Result<(), GrsError>)
      modifies this
      ensures match Consumed(old(Value()), amount, now)
              case Ok(l) => r.Ok? && Value() == l
              case Err(e) => r == Err(e)
    {
      Refill(0, now);
      :- Require(amount <= tokens, RateLimitExceeded);
      tokens := tokens - amount;
      return Ok(());
    }

    /** What accrued so far accrued at the old rate. */
    method SetRate(rate: nat, now: nat)
      modifies this
      ensures Value() == Refilled(old(Value()), 0, now).(refillPerSecond := rate)
    {
      Refill(0, now);
      refillPerSecond := rate;
    }

    method SetCapacity(limit: nat, now: nat)
      modifies this
      ensures Value() == Limiter(limit, limit, old(refillPerSecond), now)
    {
      capacity, tokens, lastRefillTime := limit, limit, now;
    }
  }

  // ----- what passes through a bucket over time

  datatype Event =
    | Take(amount: nat, now: nat)
    | Give(amount: nat, now: nat)
    | Rate(rate: nat, now: nat)
    | Capacity(limit: nat, now: nat)

  /** The bucket after an event; a refused `Take` changes nothing. */
  function After(l: Limiter, e: Event): Limiter {
    match e
    case Take(amount, now) => (match Consumed(l, amount, now) case Ok(taken) => taken case Err(_) => l)
    case Give(amount, now) => Refilled(l, amount, now)
    case Rate(rate, now) => Refilled(l, 0, now).(refillPerSecond := rate)
    case Capacity(limit, now) => Limiter(limit, limit, l.refillPerSecond, now)
  }

  function AfterAll(l: Limiter, events: seq<Event>): Limiter
    decreases |events|
  {
    if events == [] then l else AfterAll(After(l, events[0]), events[1..])
  }

  /** What one event lets out; what comes back counts against it. */
  function Moved(l: Limiter, e: Event): int {
    match e
    case Take(amount, now) => if Consumed(l, amount, now).Ok? then amount as int else 0
    case Give(amount, _) => -(amount as int)
    case Rate(_, _) => 0
    case Capacity(_, _) => 0
  }

  /** Net outflow: everything taken less everything given back. */
  function Net(l: Limiter, events: seq<Event>): int
    decreases |events|
  {
    if events == [] then 0 else Moved(l, events[0]) + Net(After(l, events[0]), events[1..])
  }

  /** How far the clock moved forward while the bucket was watching, counting every advance. */
  function Climb(l: Limiter, events: seq<Event>): nat
    decreases |events|
  {
    if events == [] then 0
    else
      var next := After(l, events[0]);
      SaturatingSub(next.lastRefillTime, l.lastRefillTime) + Climb(next, events[1..])
  }

  predicate SettingsFixed(events: seq<Event>) {
    forall e :: e in events ==> e.Take? || e.Give?
  }

  predicate ClockForward(l: Limiter, events: seq<Event>)
    decreases |events|
  {
    events == [] || (l.lastRefillTime <= events[0].now && ClockForward(After(l, events[0]), events[1..]))
  }

  /** The bucket never holds more than its capacity, whatever is sent, received or reconfigured. */
  lemma {:induction false} NeverOverfull(l: Limiter, events: seq<Event>)
    requires l.tokens <= l.capacity
    ensures AfterAll(l, events).tokens <= AfterAll(l, events).capacity
    decreases |events|
  {
    if events != [] {
      NeverOverfull(After(l, events[0]), events[1..]);
    }
  }

  lemma RefillIsEarned(l: Limiter, extra: nat, now: nat)
    ensures Refilled(l, extra, now).tokens
         <= l.tokens + extra + SaturatingSub(now, l.lastRefillTime) * l.refillPerSecond
  {
    var earned := SaturatingSub(now, l.lastRefillTime) * l.refillPerSecond;
    if now > l.lastRefillTime {
      assert earned == (now - l.lastRefillTime) * l.refillPerSecond;
    } else {
      assert earned == 0;
    }
  }

  lemma EventBalance(l: Limiter, e: Event)
    requires e.Take? || e.Give?
    ensures var next := After(l, e);
            && next.refillPerSecond == l.refillPerSecond && next.capacity == l.capacity
            && Moved(l, e) + next.tokens
               <= l.tokens + SaturatingSub(next.lastRefillTime, l.lastRefillTime) * l.refillPerSecond
  {
    RefillIsEarned(l, if e.Give? then e.amount else 0, e.now);
    var none := SaturatingSub(l.lastRefillTime, l.lastRefillTime);
    assert none == 0 && none * l.refillPerSecond == 0;
    hide Min, SaturatingAdd, SaturatingMul, SaturatingSub;
  }

  /** Whatever the clock does, the net outflow is paid for by the bucket and by what its advances earned. */
  lemma {:induction false} OutflowIsEarned(l: Limiter, events: seq<Event>)
    requires SettingsFixed(events)
    ensures Net(l, events) + AfterAll(l, events).tokens <= l.tokens + Climb(l, events) * l.refillPerSecond
    decreases |events|
  {
    hide After, Moved, SaturatingSub;
    if events != [] {
      var e := events[0];
      var next := After(l, e);
      assert e in events;
      EventBalance(l, e);
      OutflowIsEarned(next, events[1..]);
      var a, b := SaturatingSub(next.lastRefillTime, l.lastRefillTime), Climb(next, events[1..]);
      assert (a + b) * l.refillPerSecond == a * l.refillPerSecond + b * l.refillPerSecond;
    }
  }

  /** How far the clock went back while the bucket was watching. */
  function Setback(l: Limiter, events: seq<Event>): nat
    decreases |events|
  {
    if events == [] then 0
    else
      var next := After(l, events[0]);
      SaturatingSub(l.lastRefillTime, next.lastRefillTime) + Setback(next, events[1..])
  }

  /** Every second the clock went back is a second it can earn again. */
  lemma {:induction false} ClimbIsElapsed(l: Limiter, events: seq<Event>)
    ensures l.lastRefillTime + Climb(l, events) == AfterAll(l, events).lastRefillTime + Setback(l, events)
    decreases |events|
  {
    hide After;
    if events != [] {
      ClimbIsElapsed(After(l, events[0]), events[1..]);
    }
  }

  lemma {:induction false} ForwardIsNoSetback(l: Limiter, events: seq<Event>)
    requires ClockForward(l, events)
    ensures Setback(l, events) == 0
    decreases |events|
  {
    if events != [] {
      ForwardIsNoSetback(After(l, events[0]), events[1..]);
    }
  }

  /**
   * A window of any length lets out at most what the bucket held and its refill over the time that passed and over
   * what the clock went back; so with a clock that does not go back, at most a full bucket and its refill.
   */
  lemma WindowBound(l: Limiter, events: seq<Event>)
    requires SettingsFixed(events)
    ensures var end := AfterAll(l, events);
            var elapsed := end.lastRefillTime - l.lastRefillTime;
            && Net(l, events) + end.tokens <= l.tokens + (elapsed + Setback(l, events)) * l.refillPerSecond
            && (ClockForward(l, events) && l.tokens <= l.capacity
                ==> Net(l, events) <= l.capacity + elapsed * l.refillPerSecond)
  {
    OutflowIsEarned(l, events);
    ClimbIsElapsed(l, events);
    if ClockForward(l, events) {
      ForwardIsNoSetback(l, events);
    }
  }

  /** Two full buckets within no time at all, because the clock went back in between: the bound is attained. */
  function ClockGoesBack(): (Limiter, seq<Event>) {
    (Limiter(10, 10, 1, 100), [Take(10, 100), Give(0, 90), Take(10, 100)])
  }

  lemma BoundNeedsForwardClock()
    ensures var (l, events) := ClockGoesBack();
            && SettingsFixed(events) && !ClockForward(l, events)
            && AfterAll(l, events).lastRefillTime == l.lastRefillTime
            && Setback(l, events) == 10
            && Net(l, events) == 20 == l.tokens + Setback(l, events) * l.refillPerSecond > l.capacity
  {
    var (l, events) := ClockGoesBack();
    var first := After(l, events[0]);
    var second := After(first, events[1]);
    assert events[1..] == [Give(0, 90), Take(10, 100)] && events[1..][1..] == [Take(10, 100)];
    assert events[1..][1..][1..] == [];
    assert second == Limiter(10, 0, 1, 90);
  }
}
