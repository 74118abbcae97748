/**
  The rate limits of one API key: a bucket of requests and a bucket of tokens, refilled by the clock and charged
  together. Times are readings of the clock in nanoseconds and come in any order; amounts are exact reals, except
  that a wait is cut to whole nanoseconds, which lets a bucket fall a little below zero.
 */
module TokenBucket {
  import opened Results

  const SECOND := 1000000000.0

  /** `refill` is per second. A capacity of zero switches the bucket off. */
  datatype Bucket = Bucket(capacity: real, tokens: real, refill: real, last: int)

  datatype Buckets = Buckets(requests: Bucket, tokens: Bucket)

  /** One pass through the critical section: the time it read, what it asks for, whether its caller had given up. */
  datatype Attempt = Attempt(now: int, cost: int, canceled: bool)

  datatype Verdict = Granted | AboveCapacity | Canceled | MustWait(nanoseconds: int)

  function NewBucket(capacity: int, period: int, now: int): Bucket
    requires period > 0
  {
    if capacity <= 0 then Bucket(0.0, 0.0, 0.0, 0)
    else Bucket(capacity as real, capacity as real, capacity as real / (period as real / SECOND), now)
  }

  function Min(a: real, b: real): real { if a <= b then a else b }

  function Max(a: int, b: int): int { if a >= b then a else b }

  /** What the bucket gains in a nanosecond. */
  function Nano(b: Bucket): real { b.refill / SECOND }

  function Gain(b: Bucket, now: int): real {
    (now - b.last) as real * Nano(b)
  }

  function Refilled(b: Bucket, now: int): Bucket {
    if b.capacity == 0.0 || now <= b.last then b
    else b.(tokens := Min(b.capacity, b.tokens + Gain(b, now)), last := now)
  }

  /** Nanoseconds until the cost is there, before they are cut to whole ones. */
  function Missing(b: Bucket, cost: real): real
    requires b.refill > 0.0
  {
    (cost - b.tokens) / b.refill * SECOND
  }

  function Wait(b: Bucket, cost: real): int
    requires b.capacity != 0.0 ==> b.refill > 0.0
  {
    if b.capacity == 0.0 || b.tokens >= cost then 0 else Missing(b, cost).Floor
  }

  function Consumed(b: Bucket, cost: real): Bucket {
    if b.capacity > 0.0 then b.(tokens := b.tokens - cost) else b
  }

  /** Off, or never over capacity and never as much below zero as a nanosecond's refill. */
  predicate Sound(b: Bucket) {
    b.capacity == 0.0 || (b.capacity >= 1.0 && b.refill > 0.0 && -Nano(b) < b.tokens <= b.capacity)
  }

  predicate BothSound(b: Buckets) { Sound(b.requests) && Sound(b.tokens) }

  /** The critical section. */
  function Try(b: Buckets, a: Attempt): (Buckets, Verdict)
    requires BothSound(b)
  {
    var requests := Refilled(b.requests, a.now);
    if b.tokens.capacity != 0.0 && a.cost as real > b.tokens.capacity then (b.(requests := requests), AboveCapacity)
    else
      var tokens := Refilled(b.tokens, a.now);
      var wait := Max(Wait(requests, 1.0), Wait(tokens, a.cost as real));
      if wait > 0 then (Buckets(requests, tokens), MustWait(wait))
      else if a.canceled then (Buckets(requests, tokens), Canceled)
      else (Buckets(Consumed(requests, 1.0), Consumed(tokens, a.cost as real)), Granted)
  }

  // ---------------------------------------------------------------------------------------------
  // One bucket
  // ---------------------------------------------------------------------------------------------

  lemma GainIsMonotone(b: Bucket, s: int, t: int)
    requires b.refill > 0.0 && s <= t
    ensures Gain(b, s) <= Gain(b, t)
    ensures Gain(b, t) == Gain(b, s) + (t - s) as real * Nano(b)
    ensures b.last <= s ==> Gain(b, s) >= 0.0
  {
    var n := Nano(b);
    assert n > 0.0;
    assert (t - b.last) as real == (s - b.last) as real + (t - s) as real;
    NotNegative((t - s) as real, n);
    if b.last <= s { NotNegative((s - b.last) as real, n); }
  }

  lemma NotNegative(x: real, y: real)
    requires x >= 0.0 && y >= 0.0
    ensures x * y >= 0.0
  {
  }

  lemma NewIsSound(capacity: int, period: int, now: int)
    requires period > 0
    ensures Sound(NewBucket(capacity, period, now))
  {
    if capacity > 0 {
      var p := period as real / SECOND;
      assert p > 0.0;
      PositiveQuotient(capacity as real, p);
    }
  }

  lemma PositiveQuotient(x: real, y: real)
    requires x > 0.0 && y > 0.0
    ensures x / y > 0.0
  {
  }

  lemma RefilledIsSound(b: Bucket, now: int)
    requires Sound(b)
    ensures Sound(Refilled(b, now)) && Refilled(b, now).tokens >= b.tokens
    ensures b.capacity != 0.0 ==> Refilled(b, now).last == Max(b.last, now)
    ensures Refilled(b, now).capacity == b.capacity && Refilled(b, now).refill == b.refill
  {
    if b.capacity != 0.0 && now > b.last { GainIsMonotone(b, now, now); }
  }

  /** However a refill is divided in two, it comes to the same. */
  lemma RefillComposes(b: Bucket, s: int, t: int)
    requires Sound(b) && s <= t
    ensures Refilled(Refilled(b, s), t) == Refilled(b, t)
  {
    if b.capacity != 0.0 && b.last < s < t {
      GainIsMonotone(b, s, t);
      var r := Refilled(b, s);
      assert Gain(r, t) == (t - s) as real * Nano(b);
      GainIsMonotone(r, s, t);
    }
  }

  lemma MissingIs(b: Bucket, cost: real)
    requires b.refill > 0.0
    ensures Missing(b, cost) * Nano(b) == cost - b.tokens
  {
    var d := cost - b.tokens;
    var q := d / b.refill;
    assert q * b.refill == d;
    assert q * SECOND * (b.refill / SECOND) == q * b.refill;
  }

  lemma LessThanOne(x: real, n: real)
    requires n > 0.0 && x < 1.0
    ensures x * n < n
  {
    assert (1.0 - x) * n > 0.0;
  }

  lemma Below(x: real, n: real, d: real)
    requires n > 0.0 && x < 1.0 && x * n == d
    ensures d < n
  {
    LessThanOne(x, n);
  }

  lemma Scales(x: real, y: real, n: real)
    requires n > 0.0 && x <= y
    ensures x * n <= y * n
  {
    assert (y - x) * n >= 0.0;
  }

  /** A grant takes the bucket less than a nanosecond's refill below zero. */
  lemma ConsumedIsSound(b: Bucket, cost: real)
    requires Sound(b) && cost >= 0.0 && Wait(b, cost) <= 0
    ensures Sound(Consumed(b, cost))
  {
    var c := Consumed(b, cost);
    if b.capacity != 0.0 {
      assert Nano(b) > 0.0 && Nano(c) == Nano(b) && c.tokens == b.tokens - cost;
      if b.tokens < cost {
        MissingIs(b, cost);
        Below(Missing(b, cost), Nano(b), cost - b.tokens);
        assert -Nano(c) < c.tokens <= c.capacity;
      }
    }
  }

  /** A wait that is not zero really is short of the cost. */
  lemma WaitIsNeeded(b: Bucket, cost: real)
    requires Sound(b) && Wait(b, cost) > 0
    ensures b.capacity != 0.0 && b.tokens + Nano(b) <= cost
  {
    MissingIs(b, cost);
    Scales(1.0, Missing(b, cost), Nano(b));
  }

  /** After the wait it was told, a bucket nobody else has drawn on serves the cost. */
  lemma WaitingIsEnough(b: Bucket, cost: real, now: int, later: int)
    requires Sound(b) && (b.capacity != 0.0 ==> cost <= b.capacity && b.last <= now)
    requires later >= now + Wait(b, cost)
    ensures Wait(Refilled(b, later), cost) <= 0
  {
    if b.capacity != 0.0 && b.tokens < cost {
      var m := Missing(b, cost);
      MissingIs(b, cost);
      var r := Refilled(b, later);
      var n := Nano(b);
      RefilledIsSound(b, later);
      if later > b.last && r.tokens < cost {
        var d := (later - b.last) as real;
        assert d > m - 1.0;
        assert r.tokens == b.tokens + d * n;
        MissingIs(r, cost);
        assert (m - d) * n == m * n - d * n;
        SameFactor(Missing(r, cost), m - d, n);
      }
    }
  }

  /** No shorter wait does: a nanosecond before its end, the cost is not there yet. */
  lemma WaitIsLeast(b: Bucket, cost: real, later: int)
    requires Sound(b) && (b.capacity != 0.0 ==> cost <= b.capacity) && b.last <= later < b.last + Wait(b, cost)
    ensures Wait(Refilled(b, later), cost) > 0
  {
    var m, n, r := Missing(b, cost), Nano(b), Refilled(b, later);
    var d := (later - b.last) as real;
    MissingIs(b, cost);
    assert d + 1.0 <= m;
    Scales(d + 1.0, m, n);
    assert (d + 1.0) * n == d * n + n;
    if later > b.last {
      assert r.tokens == b.tokens + d * n;
      MissingIs(r, cost);
      assert (m - d) * n == m * n - d * n;
      SameFactor(Missing(r, cost), m - d, n);
    }
  }

  /** A new bucket is full, and refills from nothing in just its period. */
  lemma NewBucketRefills(capacity: int, period: int, now: int)
    requires period > 0 && capacity > 0
    ensures var b := NewBucket(capacity, period, now);
      b.tokens == b.capacity == capacity as real && b.last == now
      && Refilled(b.(tokens := 0.0), now + period).tokens == b.capacity
      && forall t :: now <= t < now + period ==> Refilled(b.(tokens := 0.0), t).tokens < b.capacity
  {
    var b := NewBucket(capacity, period, now);
    NewIsSound(capacity, period, now);
    var p, n := period as real, Nano(b);
    assert b.refill * (p / SECOND) == capacity as real;
    assert p * n == b.refill * (p / SECOND);
    forall t | now <= t < now + period ensures Refilled(b.(tokens := 0.0), t).tokens < b.capacity {
      assert (p - (t - now) as real) * n > 0.0;
      assert (p - (t - now) as real) * n == p * n - (t - now) as real * n;
    }
  }

  lemma SameFactor(x: real, y: real, n: real)
    requires n > 0.0 && x * n == y * n
    ensures x == y
  {
    assert (x - y) * n == 0.0;
  }

  // ---------------------------------------------------------------------------------------------
  // Both buckets
  // ---------------------------------------------------------------------------------------------

  function Cost(a: Attempt): real
    requires a.cost >= 0
  {
    a.cost as real
  }

  lemma TryIsSound(b: Buckets, a: Attempt)
    requires BothSound(b) && a.cost >= 0
    ensures BothSound(Try(b, a).0)
  {
    RefilledIsSound(b.requests, a.now);
    RefilledIsSound(b.tokens, a.now);
    if Try(b, a).1.Granted? {
      ConsumedIsSound(Refilled(b.requests, a.now), 1.0);
      ConsumedIsSound(Refilled(b.tokens, a.now), a.cost as real);
    }
  }

  predicate On(b: Bucket) { b.capacity != 0.0 }

  /** Both buckets are charged or neither: an attempt that is not granted costs nothing, whichever bucket refused it. */
  lemma ChargedTogether(b: Buckets, a: Attempt)
    requires BothSound(b) && a.cost >= 0
    ensures var (after, verdict) := Try(b, a);
      var granted := verdict.Granted?;
      && (On(b.requests) ==> after.requests.tokens == Refilled(b.requests, a.now).tokens - (if granted then 1.0 else 0.0))
      && (On(b.tokens) && granted ==> after.tokens.tokens == Refilled(b.tokens, a.now).tokens - a.cost as real)
      && (!granted ==> after.requests.tokens >= b.requests.tokens && after.tokens.tokens >= b.tokens.tokens)
  {
    RefilledIsSound(b.requests, a.now);
    RefilledIsSound(b.tokens, a.now);
  }

  /** Only a cost above the token capacity is refused for good; one request is never above its capacity. */
  lemma RefusedExactly(b: Buckets, a: Attempt)
    requires BothSound(b)
    ensures Try(b, a).1.AboveCapacity? <==> On(b.tokens) && a.cost as real > b.tokens.capacity
    ensures On(b.requests) ==> 1.0 <= b.requests.capacity
  {
  }

  /** Alone with its buckets, a caller waits once, and not too long: it is granted exactly when the time it was told is over. */
  lemma SecondAttemptSucceeds(b: Buckets, a: Attempt, later: int)
    requires BothSound(b) && a.cost >= 0 && Try(b, a).1.MustWait?
    requires later >= a.now >= Max(b.requests.last, b.tokens.last)
    ensures Try(b, a).1.nanoseconds > 0
    ensures BothSound(Try(b, a).0)
    ensures Try(Try(b, a).0, Attempt(later, a.cost, false)).1 == Granted <==> later >= a.now + Try(b, a).1.nanoseconds
  {
    TryIsSound(b, a);
    RefilledIsSound(b.requests, a.now);
    RefilledIsSound(b.tokens, a.now);
    var after := Try(b, a).0;
    if later >= a.now + Try(b, a).1.nanoseconds {
      WaitingIsEnough(after.requests, 1.0, a.now, later);
      WaitingIsEnough(after.tokens, a.cost as real, a.now, later);
    } else if Wait(after.requests, 1.0) == Try(b, a).1.nanoseconds {
      WaitIsLeast(after.requests, 1.0, later);
    } else {
      WaitIsLeast(after.tokens, a.cost as real, later);
    }
  }

  // ---------------------------------------------------------------------------------------------
  // Any series of attempts
  // ---------------------------------------------------------------------------------------------

  /** Estimates below one are raised to one before they get here. */
  predicate Positive(log: seq<Attempt>) {
    forall i :: 0 <= i < |log| ==> log[i].cost >= 1
  }

  ghost function After(b: Buckets, log: seq<Attempt>): (r: Buckets)
    requires BothSound(b) && Positive(log)
    ensures BothSound(r)
    decreases |log|
  {
    if log == [] then b
    else
      var before := After(b, log[..|log| - 1]);
      TryIsSound(before, log[|log| - 1]);
      Try(before, log[|log| - 1]).0
  }

  predicate InWindow(now: int, start: int, end: int) { start <= now <= end }

  /** How many attempts of a log that were read in the window were granted, and the tokens they were granted. */
  ghost function GrantedWithin(b: Buckets, log: seq<Attempt>, start: int, end: int): (nat, nat)
    requires BothSound(b) && Positive(log)
    decreases |log|
  {
    if log == [] then (0, 0)
    else
      var (n, cost) := GrantedWithin(b, log[..|log| - 1], start, end);
      var last := log[|log| - 1];
      if Try(After(b, log[..|log| - 1]), last).1.Granted? && InWindow(last.now, start, end) then (n + 1, cost + last.cost) else (n, cost)
  }

  /** What a bucket can have paid out: what it lost, and what it gained since. */
  ghost predicate Paid(b: Bucket, after: Bucket, paid: real) {
    && after.capacity == b.capacity && after.refill == b.refill && b.last <= after.last
    && paid <= b.tokens - after.tokens + Gain(b, after.last)
  }

  lemma PaidMore(b: Bucket, mid: Bucket, after: Bucket, paid: real, now: int, cost: real)
    requires Sound(mid) && On(b) && Sound(b) && Paid(b, mid, paid)
    requires after == Refilled(mid, now).(tokens := Refilled(mid, now).tokens - cost)
    ensures Paid(b, after, paid + cost)
  {
    RefilledIsSound(mid, now);
    if now > mid.last {
      GainIsMonotone(b, mid.last, now);
      assert Gain(mid, now) == (now - mid.last) as real * Nano(b);
    }
  }

  /** One bucket of the two, and what an attempt is charged there. */
  function Side(b: Buckets, requests: bool): Bucket { if requests then b.requests else b.tokens }

  function Charge(a: Attempt, requests: bool): real { if requests then 1.0 else a.cost as real }

  ghost function Counted(b: Buckets, log: seq<Attempt>, start: int, end: int, requests: bool): real
    requires BothSound(b) && Positive(log)
  {
    var (n, cost) := GrantedWithin(b, log, start, end);
    if requests then n as real else cost as real
  }

  lemma SideTries(b: Buckets, a: Attempt, requests: bool)
    requires BothSound(b) && a.cost >= 1 && On(Side(b, requests))
    ensures var (after, verdict) := Try(b, a);
      var next, was := Side(after, requests), Side(b, requests);
      if verdict.Granted? then next == Refilled(was, a.now).(tokens := Refilled(was, a.now).tokens - Charge(a, requests))
      else next == Refilled(was, a.now) || next == was
    ensures Sound(Side(Try(b, a).0, requests)) && On(Side(Try(b, a).0, requests))
  {
    TryIsSound(b, a);
  }

  /** Of a log cut at some length, what matters here: the bucket then, and what was granted in the window. */
  lemma LogGrows(b: Buckets, log: seq<Attempt>, n: nat, start: int, end: int, requests: bool)
    requires BothSound(b) && Positive(log) && 0 < n <= |log|
    ensures Positive(log[..n]) && Positive(log[..n - 1])
    ensures var before, last := After(b, log[..n - 1]), log[n - 1];
      && After(b, log[..n]) == Try(before, last).0
      && Counted(b, log[..n], start, end, requests) == Counted(b, log[..n - 1], start, end, requests)
         + (if Try(before, last).1.Granted? && InWindow(last.now, start, end) then Charge(last, requests) else 0.0)
      && (GrantedWithin(b, log[..n], start, end).0 > 0 <==>
           GrantedWithin(b, log[..n - 1], start, end).0 > 0 || (Try(before, last).1.Granted? && InWindow(last.now, start, end)))
  {
    assert log[..n][..n - 1] == log[..n - 1];
  }

  lemma {:induction false} LastReadingGrows(b: Buckets, log: seq<Attempt>, n: nat, requests: bool)
    requires BothSound(b) && Positive(log) && n <= |log| && On(Side(b, requests))
    ensures Positive(log[..n]) && On(Side(After(b, log[..n]), requests)) && Side(After(b, log[..n]), requests).last >= Side(b, requests).last
    ensures Side(After(b, log[..n]), requests).capacity == Side(b, requests).capacity && Side(After(b, log[..n]), requests).refill == Side(b, requests).refill
    decreases n
  {
    if n > 0 {
      LastReadingGrows(b, log, n - 1, requests);
      LogGrows(b, log, n, 0, 0, requests);
      var before := After(b, log[..n - 1]);
      hide After;
      SideTries(before, log[n - 1], requests);
      RefilledIsSound(Side(before, requests), log[n - 1].now);
    }
  }

  lemma {:induction false} NothingCounted(b: Buckets, log: seq<Attempt>, start: int, end: int)
    requires BothSound(b) && Positive(log) && GrantedWithin(b, log, start, end).0 == 0
    ensures GrantedWithin(b, log, start, end).1 == 0
    decreases |log|
  {
    if log != [] { NothingCounted(b, log[..|log| - 1], start, end); }
  }

  function Times(log: seq<Attempt>): seq<int> {
    seq(|log|, i requires 0 <= i < |log| => log[i].now)
  }

  /**
    Between two attempts read in the window, no reading takes the clock further past the first of them, and past
    the last refill before the log, than the window is long. Readings before and after the two may be anything.
   */
  predicate NoLeap(times: seq<int>, last: int, start: int, end: int) {
    forall g, j, l :: 0 <= g < j <= l < |times| && InWindow(times[g], start, end) && InWindow(times[l], start, end)
      ==> times[j] - Max(last, times[g]) <= end - start
  }

  lemma NoLeapAt(log: seq<Attempt>, last: int, start: int, end: int, g: nat, j: nat)
    requires NoLeap(Times(log), last, start, end) && g < j < |log|
    requires InWindow(log[g].now, start, end) && InWindow(log[|log| - 1].now, start, end)
    ensures log[j].now - Max(last, log[g].now) <= end - start
  {
    var times, l := Times(log), |log| - 1;
    assert times[g] == log[g].now && times[j] == log[j].now && times[l] == log[l].now;
  }

  /** From the first grant counted on: the bucket it was charged to, and what was paid out of it since. */
  lemma {:induction false} PaidSinceFirst(b: Buckets, log: seq<Attempt>, n: nat, start: int, end: int, requests: bool) returns (base: Bucket, g: nat)
    requires BothSound(b) && Positive(log) && n <= |log| && On(Side(b, requests)) && start <= end
    requires log != [] && InWindow(log[|log| - 1].now, start, end) && NoLeap(Times(log), Side(b, requests).last, start, end)
    requires Positive(log[..n]) && GrantedWithin(b, log[..n], start, end).0 > 0
    ensures g < n && InWindow(log[g].now, start, end)
    ensures On(base) && Sound(base) && base.last >= Max(Side(b, requests).last, log[g].now)
    ensures base.capacity == Side(b, requests).capacity && base.refill == Side(b, requests).refill
    ensures Paid(base, Side(After(b, log[..n]), requests), Counted(b, log[..n], start, end, requests))
    ensures Side(After(b, log[..n]), requests).last <= base.last + (end - start)
    decreases n
  {
    assert n > 0 by { assert |log[..n]| == n; }
    hide NoLeap, After, GrantedWithin, Paid, Try;
    LogGrows(b, log, n, start, end, requests);
    LastReadingGrows(b, log, n - 1, requests);
    var mid, a := After(b, log[..n - 1]), log[n - 1];
    var was := Side(mid, requests);
    var granted := Try(mid, a).1.Granted?;
    var earlier := Counted(b, log[..n - 1], start, end, requests);
    var first := GrantedWithin(b, log[..n - 1], start, end).0 == 0;
    if first { NothingCounted(b, log[..n - 1], start, end); }
    SideTries(mid, a, requests);
    RefilledIsSound(was, a.now);
    if first {
      base, g := Refilled(was, a.now), n - 1;
      PaidOnce(base, a.now, Charge(a, requests));
    } else {
      base, g := PaidSinceFirst(b, log, n - 1, start, end, requests);
      NoLeapAt(log, Side(b, requests).last, start, end, g, n - 1);
      PaidStep(base, was, Side(Try(mid, a).0, requests), earlier, a.now, if granted then Charge(a, requests) else 0.0,
               granted && InWindow(a.now, start, end));
    }
  }

  lemma PaidOnce(base: Bucket, now: int, cost: real)
    requires Sound(base) && On(base) && base.last >= now
    ensures Paid(base, base.(tokens := base.tokens - cost), cost)
  {
    assert Gain(base, base.last) == 0.0;
  }

  /** An attempt that is charged may be counted or not; one that is not charged may have refilled the bucket or not. */
  lemma PaidStep(base: Bucket, was: Bucket, next: Bucket, paid: real, now: int, cost: real, counted: bool)
    requires Sound(base) && On(base) && Sound(was) && Paid(base, was, paid) && cost >= 0.0
    requires next == Refilled(was, now).(tokens := Refilled(was, now).tokens - cost) || (cost == 0.0 && next == was)
    ensures Paid(base, next, paid + (if counted then cost else 0.0))
  {
    if next != was || cost != 0.0 { PaidMore(base, was, next, paid, now, cost); }
  }

  /** The most a bucket pays out in a window: what it can hold, and a refill of the window and one nanosecond. */
  ghost function Allowance(b: Bucket, start: int, end: int): real {
    b.capacity + (end - start + 1) as real * Nano(b)
  }

  lemma WindowGain(b: Bucket, after: Bucket, paid: real, start: int, end: int)
    requires Sound(b) && Sound(after) && On(b) && Paid(b, after, paid)
    requires start <= end && after.last <= b.last + (end - start)
    ensures paid < Allowance(b, start, end)
  {
    assert Nano(b) > 0.0 && Nano(after) == Nano(b);
    assert (end - start + 1) as real == (end - start) as real + 1.0;
    PaidWithin(paid, b.tokens, after.tokens, b.capacity, Nano(b), (after.last - b.last) as real, (end - start) as real);
  }

  lemma PaidWithin(paid: real, tokens: real, left: real, capacity: real, n: real, gained: real, window: real)
    requires n > 0.0 && paid <= tokens - left + gained * n
    requires -n < left && tokens <= capacity && gained <= window
    ensures paid < capacity + (window + 1.0) * n
  {
    Scales(gained, window, n);
    assert (window + 1.0) * n == window * n + n;
  }

  /** One bucket's bound, on a log whose last attempt is counted. */
  lemma BoundAtLast(b: Buckets, log: seq<Attempt>, start: int, end: int, requests: bool)
    requires BothSound(b) && Positive(log) && On(Side(b, requests)) && start <= end
    requires log != [] && InWindow(log[|log| - 1].now, start, end) && NoLeap(Times(log), Side(b, requests).last, start, end)
    requires GrantedWithin(b, log, start, end).0 > 0
    ensures Counted(b, log, start, end, requests) < Allowance(Side(b, requests), start, end)
  {
    hide NoLeap, After, GrantedWithin, Paid;
    assert log[..|log|] == log;
    var base, g := PaidSinceFirst(b, log, |log|, start, end, requests);
    var after, paid := Side(After(b, log), requests), Counted(b, log, start, end, requests);
    WindowGain(base, after, paid, start, end);
    assert Allowance(base, start, end) == Allowance(Side(b, requests), start, end);
  }

  ghost predicate Bounded(b: Buckets, log: seq<Attempt>, start: int, end: int, requests: bool)
    requires BothSound(b) && Positive(log)
  {
    On(Side(b, requests)) ==> Counted(b, log, start, end, requests) < Allowance(Side(b, requests), start, end)
  }

  /**
    In any window of any log, with readings outside the window anywhere and in any order, what is granted to the
    attempts read in it stays below the bucket's allowance, as long as the clock does not leap between them.
   */
  lemma {:induction false} WindowIsBounded(b: Buckets, log: seq<Attempt>, start: int, end: int, requests: bool)
    requires BothSound(b) && Positive(log) && start <= end && (On(Side(b, requests)) ==> NoLeap(Times(log), Side(b, requests).last, start, end))
    ensures Bounded(b, log, start, end, requests)
    decreases |log|
  {
    if On(Side(b, requests)) {
      if log == [] || GrantedWithin(b, log, start, end).0 == 0 {
        NothingCounted(b, log, start, end);
        NothingIsBelow(Side(b, requests), start, end);
      } else {
        var n := |log|;
        assert log[..n] == log;
        LogGrows(b, log, n, start, end, requests);
        if Try(After(b, log[..n - 1]), log[n - 1]).1.Granted? && InWindow(log[n - 1].now, start, end) {
          hide After, GrantedWithin, Counted, NoLeap;
          BoundAtLast(b, log, start, end, requests);
        } else {
          hide After, GrantedWithin, Counted;
          NoLeapOfPrefix(log, n - 1, Side(b, requests).last, start, end);
          WindowIsBounded(b, log[..n - 1], start, end, requests);
        }
      }
    }
  }

  lemma NothingIsBelow(b: Bucket, start: int, end: int)
    requires Sound(b) && On(b) && start <= end
    ensures 0.0 < Allowance(b, start, end)
  {
    NotNegative((end - start + 1) as real, Nano(b));
  }

  lemma NoLeapOfPrefix(log: seq<Attempt>, n: nat, last: int, start: int, end: int)
    requires n <= |log| && NoLeap(Times(log), last, start, end)
    ensures NoLeap(Times(log[..n]), last, start, end)
  {
    var t, u := Times(log[..n]), Times(log);
    assert forall i :: 0 <= i < n ==> t[i] == u[i];
  }

  /** A clock that is never read past the window between two attempts read in it does not leap. */
  lemma QuietClockDoesNotLeap(times: seq<int>, last: int, start: int, end: int)
    requires forall g, j, l :: 0 <= g < j <= l < |times| && InWindow(times[g], start, end) && InWindow(times[l], start, end) ==> times[j] <= end
    ensures NoLeap(times, last, start, end)
  {
  }

  // ---------------------------------------------------------------------------------------------
  // Leaps
  // ---------------------------------------------------------------------------------------------

  /** The limits of a new key hold in the window for these readings, whatever the limits are and whatever is asked. */
  ghost predicate AlwaysBounded(times: seq<int>, created: int, start: int, end: int) {
    forall rpm: int, tpm: int, period: int, log: seq<Attempt>, requests: bool ::
      period > 0 && Positive(log) && Times(log) == times ==> NewIsBounded(rpm, tpm, period, created, log, start, end, requests)
  }

  ghost function NewBuckets(rpm: int, tpm: int, period: int, created: int): (b: Buckets)
    requires period > 0
    ensures BothSound(b)
  {
    NewIsSound(rpm, period, created);
    NewIsSound(tpm, period, created);
    Buckets(NewBucket(rpm, period, created), NewBucket(tpm, period, created))
  }

  ghost predicate NewIsBounded(rpm: int, tpm: int, period: int, created: int, log: seq<Attempt>, start: int, end: int, requests: bool)
    requires period > 0 && Positive(log)
  {
    Bounded(NewBuckets(rpm, tpm, period, created), log, start, end, requests)
  }

  /** The clock readings alone decide: the bound holds for every limit and every cost exactly when the clock does not leap. */
  lemma BoundedExactly(times: seq<int>, created: int, start: int, end: int)
    requires start <= end
    ensures AlwaysBounded(times, created, start, end) <==> NoLeap(times, created, start, end)
  {
    if NoLeap(times, created, start, end) {
      forall rpm: int, tpm: int, period: int, log: seq<Attempt>, requests: bool | period > 0 && Positive(log) && Times(log) == times
        ensures NewIsBounded(rpm, tpm, period, created, log, start, end, requests)
      {
        hide NoLeap, Bounded;
        WindowIsBounded(NewBuckets(rpm, tpm, period, created), log, start, end, requests);
      }
    } else {
      var g, j, l :| 0 <= g < j <= l < |times| && InWindow(times[g], start, end) && InWindow(times[l], start, end)
        && times[j] - Max(created, times[g]) > end - start;
      LeapBreaksTheBound(times, created, start, end, g, j, l);
    }
  }

  /** Capacity and period of the key that the leap lets down: it gains one token a nanosecond. */
  function LeapSize(times: seq<int>, created: int, g: nat, j: nat): int
    requires g < |times| && j < |times|
  {
    times[j] - Max(created, times[g])
  }

  /** All is taken at g, the leap at j refills it, and all is taken again at l; the others ask for too much. */
  function LeapLog(times: seq<int>, size: int, g: nat, j: nat, l: nat): seq<Attempt> {
    seq(|times|, i requires 0 <= i < |times| =>
      Attempt(times[i], if i == g || i == l || i == j then size else size + 1, i == j && j < l))
  }

  lemma LeapBreaksTheBound(times: seq<int>, created: int, start: int, end: int, g: nat, j: nat, l: nat)
    requires g < j <= l < |times| && InWindow(times[g], start, end) && InWindow(times[l], start, end) && start <= end
    requires LeapSize(times, created, g, j) > end - start
    ensures var size := LeapSize(times, created, g, j);
      var log := LeapLog(times, size, g, j, l);
      Positive(log) && Times(log) == times && size > 0 && !NewIsBounded(0, size, size, created, log, start, end, false)
    ensures !AlwaysBounded(times, created, start, end)
  {
    var size := LeapSize(times, created, g, j);
    var log := LeapLog(times, size, g, j, l);
    assert Times(log) == times;
    var b := NewBuckets(0, size, size, created);
    OneANanosecond(size);
    LeapUntil(times, created, size, b, log, start, end, g, j, l, |times|);
    assert log[..|times|] == log;
    hide After, GrantedWithin;
    assert Counted(b, log, start, end, false) >= (2 * size) as real;
    assert Allowance(b.tokens, start, end) == (size + (end - start + 1)) as real;
    assert !NewIsBounded(0, size, size, created, log, start, end, false);
  }

  /** Read at 0, overtaken by a reading one nanosecond later, and read at 0 again: one token, granted twice at one moment. */
  lemma GrantedTwiceAtOnce()
    ensures !NoLeap([0, 1, 0], 0, 0, 0) && !AlwaysBounded([0, 1, 0], 0, 0, 0)
  {
    LeapBreaksTheBound([0, 1, 0], 0, 0, 0, 0, 1, 2);
    BoundedExactly([0, 1, 0], 0, 0, 0);
  }

  lemma OneANanosecond(size: int)
    requires size > 0
    ensures NewBucket(size, size, 0).refill / SECOND == 1.0
  {
    var s := size as real;
    assert s / SECOND * SECOND == s;
    assert s / (s / SECOND) == SECOND by { QuotientOf(s, s / SECOND, SECOND); }
  }

  lemma QuotientOf(x: real, y: real, z: real)
    requires y > 0.0 && y * z == x
    ensures x / y == z
  {
  }

  /** What the token bucket holds after the first n readings, and how much was granted in the window. */
  ghost predicate LeapState(b: Buckets, log: seq<Attempt>, n: nat, times: seq<int>, created: int, size: int, start: int, end: int, g: nat, j: nat, l: nat)
    requires BothSound(b) && Positive(log) && n <= |log| && g < j <= l < |times|
  {
    LeapHolds(After(b, log[..n]), GrantedWithin(b, log[..n], start, end).1, n, times, created, size, g, j, l)
  }

  lemma {:induction false} LeapUntil(times: seq<int>, created: int, size: int, b: Buckets, log: seq<Attempt>, start: int, end: int, g: nat, j: nat, l: nat, n: nat)
    requires g < j <= l < |times| && InWindow(times[g], start, end) && InWindow(times[l], start, end) && n <= |times|
    requires size == LeapSize(times, created, g, j) > 0 && log == LeapLog(times, size, g, j, l)
    requires b == NewBuckets(0, size, size, created) && NewBucket(size, size, 0).refill / SECOND == 1.0
    ensures Positive(log) && LeapState(b, log, n, times, created, size, start, end, g, j, l)
    decreases n
  {
    if n > 0 {
      LeapUntil(times, created, size, b, log, start, end, g, j, l, n - 1);
      LogGrows(b, log, n, start, end, false);
      var before, a := After(b, log[..n - 1]), log[n - 1];
      var earlier := GrantedWithin(b, log[..n - 1], start, end).1;
      hide After, GrantedWithin, Try;
      LeapStep(before, a, size);
      LeapMoves(before, Try(before, a).0, Try(before, a).1, a, earlier, times, created, size, start, end, g, j, l, n);
    }
  }

  /** The same of the bucket and the grants alone. */
  ghost predicate LeapHolds(b: Buckets, granted: int, n: nat, times: seq<int>, created: int, size: int, g: nat, j: nat, l: nat)
    requires g < j <= l < |times|
  {
    var t := b.tokens;
    && b.requests == Bucket(0.0, 0.0, 0.0, 0)
    && t.capacity == size as real && Nano(t) == 1.0 && t.refill > 0.0
    && (n <= g ==> t.tokens == size as real && t.last == created)
    && (g < n <= j ==> t.tokens == 0.0 && t.last == Max(created, times[g]) && granted >= size)
    && (j < n <= l ==> t.tokens == size as real && granted >= size)
    && (l < n ==> granted >= 2 * size)
  }

  lemma LeapMoves(b: Buckets, after: Buckets, verdict: Verdict, a: Attempt, granted: nat, times: seq<int>, created: int, size: int, start: int, end: int, g: nat, j: nat, l: nat, n: nat)
    requires g < j <= l < |times| && 0 < n <= |times| && size == LeapSize(times, created, g, j) > 0
    requires a == LeapLog(times, size, g, j, l)[n - 1] && InWindow(times[g], start, end) && InWindow(times[l], start, end)
    requires LeapHolds(b, granted, n - 1, times, created, size, g, j, l)
    requires a.cost == size + 1 ==> after == b && verdict == AboveCapacity
    requires after.requests == b.requests
    requires a.cost == size && Refilled(b.tokens, a.now).tokens >= size as real ==>
      after.tokens == (if a.canceled then Refilled(b.tokens, a.now) else Consumed(Refilled(b.tokens, a.now), size as real))
      && verdict == (if a.canceled then Canceled else Granted)
    ensures LeapHolds(after, granted + (if verdict.Granted? && InWindow(a.now, start, end) then a.cost else 0), n, times, created, size, g, j, l)
  {
    if n - 1 == j {
      assert Gain(b.tokens, a.now) == size as real;
    }
  }

  /** One attempt on the leaping key. */
  lemma LeapStep(b: Buckets, a: Attempt, size: int)
    requires BothSound(b) && b.requests == Bucket(0.0, 0.0, 0.0, 0) && size > 0
    requires b.tokens.capacity == size as real && Nano(b.tokens) == 1.0 && b.tokens.refill > 0.0
    ensures var (after, verdict) := Try(b, a);
      && after.requests == b.requests
      && (a.cost == size + 1 ==> after == b && verdict == AboveCapacity)
      && (a.cost == size && Refilled(b.tokens, a.now).tokens >= size as real ==>
            after.tokens == (if a.canceled then Refilled(b.tokens, a.now) else Consumed(Refilled(b.tokens, a.now), size as real))
            && verdict == (if a.canceled then Canceled else Granted))
  {
  }
}
