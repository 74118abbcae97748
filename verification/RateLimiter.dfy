/**
  The buckets of an API key as objects, and `take`: try, wait as told, try again, while other requests of the
  same key take from the same buckets.
 */
module RateLimiter {
  import opened Results
  import opened TokenBucket

  datatype TakeError = CapacityExceeded(estimatedTokens: int, capacity: int) | ContextDone

  /** One turn of the loop: what others attempted before it, the time then, and whether the caller gives up there or in the wait after it. */
  datatype Turn = Turn(others: seq<Attempt>, now: int, canceled: bool, leaves: bool)

  ghost predicate GrantedIn(b: Buckets, log: seq<Attempt>, i: nat)
    requires BothSound(b) && Positive(log) && i < |log|
  {
    Try(After(b, log[..i]), log[i]).1.Granted?
  }

  lemma EarlierVerdict(b: Buckets, log: seq<Attempt>, longer: seq<Attempt>, i: nat)
    requires BothSound(b) && Positive(log) && Positive(longer) && i < |log| && log <= longer
    ensures GrantedIn(b, longer, i) == GrantedIn(b, log, i)
  {
    assert log[..i] == longer[..i];
  }

  /** Attempts of others, one after the other. */
  function TryAll(b: Buckets, attempts: seq<Attempt>): (r: Buckets)
    requires BothSound(b) && Positive(attempts)
    ensures BothSound(r)
    decreases |attempts|
  {
    if attempts == [] then b
    else
      TryIsSound(b, attempts[0]);
      TryAll(Try(b, attempts[0]).0, attempts[1..])
  }

  /** take: attempt by attempt, until one settles it or the turns end with the context. */
  function TakeFrom(b: Buckets, cost: int, turns: seq<Turn>): (Buckets, Result<(), TakeError>)
    requires BothSound(b) && cost >= 1 && forall i :: 0 <= i < |turns| ==> Positive(turns[i].others)
    decreases |turns|
  {
    if turns == [] then (b, Err(ContextDone))
    else
      var now := TryAll(b, turns[0].others);
      var a := Attempt(turns[0].now, cost, turns[0].canceled);
      TryIsSound(now, a);
      var (after, verdict) := Try(now, a);
      match verdict
      case Granted => (after, Ok(()))
      case AboveCapacity => (after, Err(CapacityExceeded(cost, after.tokens.capacity.Floor)))
      case Canceled => (after, Err(ContextDone))
      case MustWait(_) => if turns[0].leaves then (after, Err(ContextDone)) else TakeFrom(after, cost, turns[1..])
  }

  class RateBucket {
    const capacity: real
    const refill: real
    var tokens: real
    var last: int

    constructor (capacity: int, period: int, now: int)
      requires period > 0
      ensures View() == NewBucket(capacity, period, now) && Sound(View())
    {
      this.capacity := if capacity <= 0 then 0.0 else capacity as real;
      tokens := if capacity <= 0 then 0.0 else capacity as real;
      refill := if capacity <= 0 then 0.0 else capacity as real / (period as real / SECOND);
      last := if capacity <= 0 then 0 else now;
      new;
      NewIsSound(capacity, period, now);
    }

    function View(): Bucket
      reads this
    {
      Bucket(capacity, tokens, refill, last)
    }

    method RefillAt(now: int)
      requires Sound(View())
      modifies this
      ensures View() == Refilled(old(View()), now) && Sound(View())
    {
      RefilledIsSound(View(), now);
      if capacity == 0.0 || now <= last { return; }
      tokens := Min(capacity, tokens + (now - last) as real * (refill / SECOND));
      last := now;
    }

    /** Refills, unless the cost is above what the bucket could ever hold. */
    method WaitDuration(now: int, cost: real) returns (wait: int, ok: bool)
      requires Sound(View())
      modifies this
      ensures ok <==> !On(old(View())) || cost <= capacity
      ensures View() == (if ok then Refilled(old(View()), now) else old(View())) && Sound(View())
      ensures wait == if ok then Wait(View(), cost) else 0
    {
      if capacity == 0.0 { return 0, true; }
      if cost > capacity { return 0, false; }
      RefillAt(now);
      if tokens >= cost { return 0, true; }
      var seconds := (cost - tokens) / refill;
      return (seconds * SECOND).Floor, true;
    }

    method Consume(cost: real)
      modifies this
      ensures View() == Consumed(old(View()), cost)
    {
      if capacity > 0.0 { tokens := tokens - cost; }
    }
  }

  class ApiKeyLimiter {
    const requests: RateBucket
    const tokens: RateBucket
    ghost const initial: Buckets
    ghost var log: seq<Attempt>

    function View(): Buckets
      reads requests, tokens
    {
      Buckets(requests.View(), tokens.View())
    }

    /** Everything that has ever happened to the buckets is an attempt of the log. */
    ghost predicate Valid()
      reads this, requests, tokens
    {
      && requests != tokens
      && BothSound(initial) && Positive(log)
      && View() == After(initial, log)
    }

    constructor (rpm: int, tpm: int, period: int, now: int)
      requires period > 0
      ensures Valid() && log == [] && View() == Buckets(NewBucket(rpm, period, now), NewBucket(tpm, period, now))
      ensures fresh(requests) && fresh(tokens)
    {
      requests := new RateBucket(rpm, period, now);
      tokens := new RateBucket(tpm, period, now);
      initial, log := Buckets(NewBucket(rpm, period, now), NewBucket(tpm, period, now)), [];
      new;
      NewIsSound(rpm, period, now);
      NewIsSound(tpm, period, now);
    }

    /** The critical section. */
    method Attempt(a: Attempt) returns (verdict: Verdict)
      requires Valid() && a.cost >= 1
      modifies this, requests, tokens
      ensures Valid() && log == old(log) + [a]
      ensures BothSound(old(View())) && (View(), verdict) == Try(old(View()), a)
    {
      ghost var before := View();
      assert (log + [a])[..|log|] == log;
      TryIsSound(before, a);
      log := log + [a];
      hide After;
      var requestWait, _ := requests.WaitDuration(a.now, 1.0);
      var tokenWait, tokenOK := tokens.WaitDuration(a.now, a.cost as real);
      if !tokenOK {
        verdict := AboveCapacity;
      } else if requestWait <= 0 && tokenWait <= 0 {
        if a.canceled {
          verdict := Canceled;
        } else {
          requests.Consume(1.0);
          tokens.Consume(a.cost as real);
          verdict := Granted;
        }
      } else {
        verdict := MustWait(Max(requestWait, tokenWait));
      }
    }

    method Others(attempts: seq<Attempt>)
      requires Valid() && Positive(attempts)
      modifies this, requests, tokens
      ensures Valid() && log == old(log) + attempts
      ensures BothSound(old(View())) && View() == TryAll(old(View()), attempts)
    {
      for i := 0 to |attempts|
        invariant Valid() && log == old(log) + attempts[..i]
        invariant BothSound(View()) && BothSound(old(View())) && TryAll(old(View()), attempts) == TryAll(View(), attempts[i..])
      {
        assert attempts[i..][1..] == attempts[i + 1..];
        assert attempts[..i + 1] == attempts[..i] + [attempts[i]];
        var _ := Attempt(attempts[i]);
      }
      assert attempts[..|attempts|] == attempts;
    }

    /** The attempts at `own` are this call's, in a log that others share, and only the last may be granted. */
    ghost predicate Own(own: seq<nat>, cost: int, granted: bool)
      reads this
    {
      && BothSound(initial) && Positive(log)
      && (forall k :: 0 <= k < |own| ==> own[k] < |log| && log[own[k]].cost == cost)
      && (forall k :: 0 <= k < |own| && GrantedIn(initial, log, own[k]) ==> granted && k == |own| - 1)
      && (granted ==> own != [] && GrantedIn(initial, log, own[|own| - 1]))
    }

    /** A call is charged exactly once when it returns without an error, by its last attempt, and never otherwise. */
    method Take(cost: int, turns: seq<Turn>) returns (r: Result<(), TakeError>, ghost own: seq<nat>)
      requires Valid() && cost >= 1
      requires forall i :: 0 <= i < |turns| ==> Positive(turns[i].others)
      modifies this, requests, tokens
      ensures Valid() && old(log) <= log
      ensures Own(own, cost, r.Ok?)
      ensures BothSound(old(View())) && (View(), r) == TakeFrom(old(View()), cost, turns)
      ensures r.Err? && r.error.CapacityExceeded? ==>
        tokens.capacity != 0.0 && cost as real > tokens.capacity && r.error == CapacityExceeded(cost, tokens.capacity.Floor)
    {
      own := [];
      for i := 0 to |turns|
        invariant Valid() && old(log) <= log && Own(own, cost, false)
        invariant BothSound(View()) && BothSound(old(View())) && TakeFrom(old(View()), cost, turns) == TakeFrom(View(), cost, turns[i..])
      {
        assert turns[i..][1..] == turns[i + 1..];
        var turn := turns[i];
        var verdict := NextTurn(turn, cost, own);
        own := own + [|log| - 1];
        match verdict
        case Granted => return Ok(()), own;
        case AboveCapacity => return Err(CapacityExceeded(cost, tokens.capacity.Floor)), own;
        case Canceled => return Err(ContextDone), own;
        case MustWait(_) => if turn.leaves { return Err(ContextDone), own; }
      }
      return Err(ContextDone), own;
    }

    method NextTurn(turn: Turn, cost: int, ghost own: seq<nat>) returns (verdict: Verdict)
      requires Valid() && cost >= 1 && Positive(turn.others) && Own(own, cost, false)
      modifies this, requests, tokens
      ensures Valid() && old(log) <= log && log != []
      ensures Own(own + [|log| - 1], cost, verdict.Granted?)
      ensures BothSound(old(View())) && BothSound(TryAll(old(View()), turn.others))
      ensures (View(), verdict) == Try(TryAll(old(View()), turn.others), TokenBucket.Attempt(turn.now, cost, turn.canceled))
      ensures verdict.AboveCapacity? ==> tokens.capacity != 0.0 && cost as real > tokens.capacity
    {
      ghost var before := log;
      Others(turn.others);
      ghost var between := log;
      ghost var was := View();
      verdict := Attempt(TokenBucket.Attempt(turn.now, cost, turn.canceled));
      hide After, Try;
      assert log[..|log| - 1] == between;
      assert GrantedIn(initial, log, |log| - 1) <==> verdict.Granted?;
      forall k | 0 <= k < |own| ensures log[own[k]].cost == cost && !GrantedIn(initial, log, own[k]) {
        EarlierVerdict(initial, before, log, own[k]);
      }
    }
  }

  /** Capacities never change, so what is refused for good is decided by the cost alone. */
  lemma TryKeepsCapacity(b: Buckets, a: Attempt)
    requires BothSound(b) && a.cost >= 1
    ensures BothSound(Try(b, a).0) && Try(b, a).0.tokens.capacity == b.tokens.capacity
  {
    TryIsSound(b, a);
  }

  lemma {:induction false} OthersKeepCapacity(b: Buckets, attempts: seq<Attempt>)
    requires BothSound(b) && Positive(attempts)
    ensures TryAll(b, attempts).tokens.capacity == b.tokens.capacity
    decreases |attempts|
  {
    if attempts != [] {
      TryKeepsCapacity(b, attempts[0]);
      OthersKeepCapacity(Try(b, attempts[0]).0, attempts[1..]);
    }
  }

  /** A cost above the capacity ends every call with that error, whatever others do, and no other cost ever does. */
  lemma {:induction false} TooCostlyExactly(b: Buckets, cost: int, turns: seq<Turn>)
    requires BothSound(b) && cost >= 1 && forall i :: 0 <= i < |turns| ==> Positive(turns[i].others)
    ensures On(b.tokens) && cost as real > b.tokens.capacity && turns != [] ==>
      TakeFrom(b, cost, turns).1 == Err(CapacityExceeded(cost, b.tokens.capacity.Floor))
    ensures TakeFrom(b, cost, turns).1.Err? && TakeFrom(b, cost, turns).1.error.CapacityExceeded? ==>
      On(b.tokens) && cost as real > b.tokens.capacity
    decreases |turns|
  {
    if turns != [] {
      var now, a := TryAll(b, turns[0].others), Attempt(turns[0].now, cost, turns[0].canceled);
      OthersKeepCapacity(b, turns[0].others);
      TryKeepsCapacity(now, a);
      RefusedExactly(now, a);
      hide Try;
      TooCostlyExactly(Try(now, a).0, cost, turns[1..]);
    }
  }
}
