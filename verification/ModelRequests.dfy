/**
  The model limiter's acquire and release as they execute, each a sequence of atomic sections of ModelLimiter's
  machine with the steps of other requests in between.
 */
module ModelRequests {
  import opened Results
  import opened ModelLimiter
  import opened Text
  import opened RateLimiter
  import T = TokenBucket
  import K = KeyedSlots

  datatype LimiterError = LimiterClosed | OwnerRequired | OwnerQueueFull | OwnerQueueTimeout | RateRefused(cause: TakeError) | WaitCanceled | OwnerRefused

  /** What clocks, contexts, the key's other takers and the owner resolver do during one call. */
  datatype Circumstances = Circumstances(
    ownerPatience: nat, ownerExpired: bool, turns: seq<Turn>, permitPatience: nat, permitExpired: bool, recheck: Option<LimiterError>)

  predicate PositiveTurns(turns: seq<Turn>) {
    forall i :: 0 <= i < |turns| ==> T.Positive(turns[i].others)
  }

  /** An estimate below one counts as one. */
  function Cost(estimated: int): int { if estimated < 1 then 1 else estimated }

  ghost predicate SameFor(l: Limiter, m: Limiter, p: nat) {
    && PhaseOf(m, p) == PhaseOf(l, p)
    && (p in l.slots.users ==> m.slots.users[p] == l.slots.users[p])
    && (p in m.stages <==> p in l.stages)
    && (p in l.stages ==> m.stages[p] == l.stages[p])
    && m.maxPermits == l.maxPermits && m.owners == l.owners && (l.closed ==> m.closed)
  }

  ghost predicate Gone(l: Limiter, p: nat) { p !in l.stages && p !in l.slots.users }

  predicate HoldsFor(l: Limiter, p: nat, owner: string) {
    PhaseOf(l, p) == Some(K.Holding) && l.slots.users[p].key == owner
  }

  lemma ClosedStays(l: Limiter, step: Step)
    requires Enabled(l, step)
    ensures l.closed ==> Apply(l, step).closed
  {
  }

  lemma LiveOrGone(l: Limiter, p: nat)
    requires Inv(l)
    ensures p !in l.stages ==> Gone(l, p)
    ensures p in l.stages ==> Fits(l.stages[p], PhaseOf(l, p))
    ensures p in l.slots.users ==> l.slots.users[p].entry in l.slots.heap
  {
    if p in l.slots.users { K.EntryIsKnown(l.slots, l.owners, p); }
    hide K.Inv;
  }

  /** What the sections before the slot is taken do to the fields. */
  lemma EntrancesAre(l: Limiter, p: nat)
    ensures p !in l.stages && !l.closed ==> Enabled(l, Begin(p)) && Apply(l, Begin(p)) == l.(stages := l.stages[p := Begun])
    ensures At(l, p, Begun) ==> Enabled(l, Refuse(p)) && Apply(l, Refuse(p)) == l.(stages := l.stages - {p})
    ensures At(l, p, Rated) ==> Enabled(l, Fail(p)) && Apply(l, Fail(p)) == l.(stages := l.stages[p := Unwinding])
  {
    hide K.Enter, K.Take, K.GiveUp, K.Drop, K.Leave, K.CanTake;
  }

  lemma TakePermitIs(l: Limiter, p: nat)
    requires At(l, p, Rated) && l.permits < l.maxPermits
    ensures Enabled(l, TakePermit(p)) && Apply(l, TakePermit(p)) == l.(permits := l.permits + 1, stages := l.stages[p := Permitted])
  {
    hide K.Enter, K.Take, K.GiveUp, K.Drop, K.Leave, K.CanTake;
  }

  lemma ChecksAre(l: Limiter, p: nat)
    ensures At(l, p, Permitted) && !l.closed ==> Enabled(l, Confirm(p)) && Apply(l, Confirm(p)) == l.(stages := l.stages[p := Confirmed])
    ensures At(l, p, Confirmed) ==> Enabled(l, Grant(p)) && Apply(l, Grant(p)) == l.(stages := l.stages[p := Granted])
  {
    hide K.Enter, K.Take, K.GiveUp, K.Drop, K.Leave, K.CanTake;
  }

  lemma GivePermitIs(l: Limiter, p: nat)
    requires HoldsPermit(l, p)
    ensures Enabled(l, GivePermit(p)) && Apply(l, GivePermit(p)) == l.(permits := l.permits - 1, stages := l.stages[p := Unwinding])
  {
    hide K.Enter, K.Take, K.GiveUp, K.Drop, K.Leave, K.CanTake;
  }

  lemma EnterIs(l: Limiter, p: nat, owner: string)
    requires Inv(l) && At(l, p, Begun)
    ensures owner in l.slots.entries ==> l.slots.entries[owner] in l.slots.heap
    ensures var entered := K.Enter(l.slots, l.owners, p, owner);
      entered.1 ==> Enabled(l, EnterOwner(p, owner)) && Apply(l, EnterOwner(p, owner)) == l.(slots := entered.0, stages := l.stages[p := Queued])
    ensures var entered := K.Enter(l.slots, l.owners, p, owner);
      if entered.1 then p in entered.0.users && entered.0.users[p].phase.Waiting? && entered.0.users[p].key == owner else entered.0 == l.slots
    ensures K.Enter(l.slots, l.owners, p, owner).1 <==> !QueueIsFull(l, owner)
    ensures !QueueIsFull(l, owner) ==> (K.CanTake(K.Enter(l.slots, l.owners, p, owner).0, l.owners, p) <==> SlotIsFree(l, owner))
  {
    assert K.Distinct(l.slots);
    K.RoomToEnter(l.slots, l.owners, p, owner);
    K.EnterKeepsInv(l.slots, l.owners, p, owner);
    hide K.Inv;
  }

  lemma GiveUpIs(l: Limiter, p: nat)
    requires Inv(l) && p in l.slots.users && At(l, p, Queued)
    ensures Enabled(l, OwnerTimeout(p)) && l.slots.users[p].phase.Waiting?
    ensures Apply(l, OwnerTimeout(p)) == l.(slots := K.GiveUp(l.slots, p), stages := l.stages[p := Unwinding])
    ensures p in K.GiveUp(l.slots, p).users && K.GiveUp(l.slots, p).users[p].phase.Leaving?
  {
    LiveOrGone(l, p);
    hide K.Enter, K.Take, K.Drop, K.Leave, K.CanTake, K.Inv;
  }

  lemma TakeIs(l: Limiter, p: nat)
    requires At(l, p, Queued) && K.CanTake(l.slots, l.owners, p)
    ensures Enabled(l, TakeOwner(p)) && Apply(l, TakeOwner(p)) == l.(slots := K.Take(l.slots, l.owners, p), stages := l.stages[p := Rated])
    ensures p in K.Take(l.slots, l.owners, p).users && K.Take(l.slots, l.owners, p).users[p] == l.slots.users[p].(phase := K.Holding)
  {
    hide K.Enter, K.GiveUp, K.Drop, K.Leave;
  }

  lemma DropIs(l: Limiter, p: nat)
    requires Inv(l) && At(l, p, Unwinding) && PhaseOf(l, p) == Some(K.Holding)
    ensures l.slots.users[p].entry in l.slots.heap && Enabled(l, DropOwner(p))
    ensures Apply(l, DropOwner(p)) == l.(slots := K.Drop(l.slots, p), stages := l.stages[p := Unwinding])
    ensures p in K.Drop(l.slots, p).users && K.Drop(l.slots, p).users[p].phase.Leaving?
  {
    LiveOrGone(l, p);
    hide K.Enter, K.Take, K.GiveUp, K.Leave, K.CanTake, K.Inv;
  }

  lemma LeaveIs(l: Limiter, p: nat)
    requires Inv(l) && At(l, p, Unwinding) && PhaseOf(l, p) == Some(K.Leaving)
    ensures l.slots.users[p].entry in l.slots.heap && Enabled(l, LeaveOwner(p))
    ensures Apply(l, LeaveOwner(p)) == l.(slots := K.Leave(l.slots, p), stages := l.stages - {p})
  {
    LiveOrGone(l, p);
    hide K.Enter, K.Take, K.GiveUp, K.Drop, K.CanTake, K.Inv;
  }

  ghost predicate SlotIsFree(l: Limiter, owner: string) {
    |K.HoldersOf(l.slots, owner)| < l.owners.slots
  }

  ghost predicate QueueIsFull(l: Limiter, owner: string) {
    l.owners.admitted.Some? && |K.UsersOf(l.slots, owner)| >= l.owners.admitted.value
  }

  /** What a call comes to that nobody disturbs: the first of its gates that is shut, if there is one. */
  ghost function Undisturbed(l: Limiter, owner: string, rate: Option<TakeError>, c: Circumstances): Result<(), LimiterError> {
    if l.closed then Err(LimiterClosed)
    else if TrimSpace(owner) == "" then Err(OwnerRequired)
    else if QueueIsFull(l, TrimSpace(owner)) then Err(OwnerQueueFull)
    else if !SlotIsFree(l, TrimSpace(owner)) || c.ownerExpired then Err(OwnerQueueTimeout)
    else if rate.Some? then Err(RateRefused(rate.value))
    else if l.permits >= l.maxPermits || c.permitExpired then Err(WaitCanceled)
    else if c.recheck.Some? then Err(c.recheck.value)
    else Ok(())
  }

  /** The owner's slot is had: nothing before the key's limiter refuses. */
  ghost predicate ReachesKey(l: Limiter, owner: string, c: Circumstances) {
    && !l.closed && TrimSpace(owner) != "" && !c.ownerExpired
    && SlotIsFree(l, TrimSpace(owner)) && !QueueIsFull(l, TrimSpace(owner))
  }

  /** What the key's limiter answers to the turns of this call. */
  ghost function RateAnswer(b: T.Buckets, estimated: int, turns: seq<Turn>): (T.Buckets, Result<(), TakeError>)
    requires T.BothSound(b) && PositiveTurns(turns)
  {
    TakeFrom(b, if estimated < 1 then 1 else estimated, turns)
  }

  ghost function ErrorIn(r: Result<(), TakeError>): Option<TakeError> {
    if r.Err? then Some(r.error) else None
  }

  class ModelRequestLimiter {
    const maxPermits: nat
    const limits: K.Limits
    var permits: int
    var closed: bool
    var slots: K.State
    var stages: map<nat, Stage>
    var others: seq<seq<Step>>
    ghost const initial: Limiter
    ghost var history: seq<Step>

    function View(): Limiter
      reads this
    {
      Limiter(maxPermits, limits, permits, closed, slots, stages)
    }

    ghost predicate Valid()
      reads this
    {
      Inv(initial) && Runs(initial, history, View())
    }

    constructor (maxConcurrent: int, ownerMax: nat, ownerQueue: int, others: seq<seq<Step>>)
      requires ownerMax > 0
      ensures Valid() && View() == initial == New(maxConcurrent, ownerMax, ownerQueue) && this.others == others
      ensures maxPermits == (if maxConcurrent >= 1 then maxConcurrent else 1) && limits.slots == ownerMax
      ensures limits.admitted == Some(if ownerQueue >= 0 then ownerMax + ownerQueue else ownerMax)
      ensures permits == 0 && !closed
    {
      maxPermits := if maxConcurrent <= 0 then 1 else maxConcurrent;
      limits := K.Limits(ownerMax, Some(ownerMax + if ownerQueue < 0 then 0 else ownerQueue));
      permits, closed, slots, stages := 0, false, K.EMPTY, map[];
      initial, history := New(maxConcurrent, ownerMax, ownerQueue), [];
      this.others := others;
      new;
      NewIsInv(maxConcurrent, ownerMax, ownerQueue);
    }

    /** An atomic section has ended: what it did to the fields was the step. */
    ghost method Record(was: Limiter, step: Step)
      requires Inv(initial) && Runs(initial, history, was) && Enabled(was, step) && View() == Apply(was, step)
      modifies this`history
      ensures Valid() && history == old(history) + [step] && Inv(View())
    {
      hide Inv, Enabled, Apply;
      RunsThen(initial, history, was, step);
      history := history + [step];
      RunsKeepInv(initial, history, View());
    }

    /** One atomic section on the fields: what it makes of them is the step. */
    method Commit(permits: int, slots: K.State, stages: map<nat, Stage>, ghost step: Step)
      requires Valid() && Enabled(View(), step)
      requires Apply(View(), step) == View().(permits := permits, slots := slots, stages := stages)
      modifies this`permits, this`slots, this`stages, this`history
      ensures Valid() && Inv(View()) && View() == old(View()).(permits := permits, slots := slots, stages := stages)
    {
      hide Inv, Runs, Enabled, Apply, K.Enter, K.Take, K.GiveUp, K.Drop, K.Leave;
      ghost var was := View();
      this.permits, this.slots, this.stages := permits, slots, stages;
      Record(was, step);
    }

    method Interleave(p: nat)
      requires Valid()
      modifies this
      ensures Valid() && Inv(View()) && SameFor(old(View()), View(), p)
      ensures old(others) == [] ==> others == [] && View() == old(View())
    {
      hide Apply, Enabled, Inv;
      RunsKeepInv(initial, history, View());
      var batch := if others == [] then [] else others[0];
      others := if others == [] then [] else others[1..];
      for i := 0 to |batch|
        invariant Valid() && Inv(View()) && SameFor(old(View()), View(), p)
        invariant old(others) == [] ==> others == [] && View() == old(View())
      {
        if Enabled(View(), batch[i]) && Actor(batch[i]) != Some(p) {
          Other(batch[i], p);
        }
      }
    }

    method Other(step: Step, p: nat)
      requires Valid() && Inv(View()) && Enabled(View(), step) && Actor(step) != Some(p)
      modifies this
      ensures Valid() && Inv(View()) && SameFor(old(View()), View(), p)
    {
      ghost var was := View();
      hide K.Enter, K.Take, K.GiveUp, K.Drop, K.Leave, Inv, Runs;
      OthersUnmoved(was, step, p);
      StepKeepsInv(was, step);
      ClosedStays(was, step);
      var next := Apply(View(), step);
      hide Apply, Enabled;
      permits, closed, slots, stages := next.permits, next.closed, next.slots, next.stages;
      Record(was, step);
    }

    /** Wakes the waiting and refuses the new; what is granted stays granted. */
    method Close()
      requires Valid()
      modifies this
      ensures Valid() && View() == old(View()).(closed := true)
    {
      ghost var was := View();
      closed := true;
      Record(was, ModelLimiter.Close);
    }

    /**
      AcquireRequest, with the limiter of its key if the key is limited at all. Slots and permits are given back
      on every failing path; what the key was charged is not, and `charged` says whether it was.
     */
    method AcquireRequest(p: nat, owner: string, key: ApiKeyLimiter?, estimated: int, c: Circumstances)
      returns (r: Result<(), LimiterError>, ghost own: seq<nat>, ghost charged: bool)
      requires Valid() && p !in stages && PositiveTurns(c.turns) && (key != null ==> key.Valid())
      modifies this, if key == null then {} else {key, key.requests, key.tokens}
      ensures Valid() && Inv(View())
      ensures r.Ok? ==> At(View(), p, Granted) && HoldsFor(View(), p, TrimSpace(owner)) && TrimSpace(owner) != ""
      ensures r.Err? ==> Gone(View(), p)
      ensures key != null ==> key.Valid() && old(key.log) <= key.log && key.Own(own, if estimated < 1 then 1 else estimated, charged) && (r.Ok? ==> charged)
      ensures key != null ==> T.BothSound(old(key.View()))
      ensures key != null ==> var answer := RateAnswer(old(key.View()), estimated, c.turns);
        (key.View() == old(key.View()) && !charged) || (key.View() == answer.0 && charged == answer.1.Ok?)
      ensures old(others) == [] ==>
        var rate := if key == null then None else ErrorIn(RateAnswer(old(key.View()), estimated, c.turns).1);
        r == Undisturbed(old(View()), owner, rate, c)
      ensures old(others) == [] && key != null ==>
        charged == (ReachesKey(old(View()), owner, c) && RateAnswer(old(key.View()), estimated, c.turns).1.Ok?)
      ensures old(closed) ==> r == Err(LimiterClosed) && View() == old(View()) && !charged
      ensures c.recheck.Some? || c.ownerExpired || c.permitExpired ==> r.Err?
    {
      own, charged := [], false;
      RunsKeepInv(initial, history, View());
      LiveOrGone(View(), p);
      if closed { return Err(LimiterClosed), own, charged; }
      hide Apply, Enabled, Inv, Runs, SlotIsFree, QueueIsFull, TakeFrom, TrimSpace;
      BeginRequest(p, TrimSpace(owner));
      r := AcquireOwner(p, TrimSpace(owner), c);
      if r.Err? {
        return Err(if closed then LimiterClosed else r.error), own, charged;
      }
      if key != null {
        r, own := PassRate(p, TrimSpace(owner), key, Cost(estimated), c.turns);
        charged := r.Ok?;
        if r.Err? { return; }
      }
      r := AcquirePermit(p, TrimSpace(owner), c);
    }

    /** The key's limiter, while the request holds its owner's slot. */
    method PassRate(p: nat, owner: string, key: ApiKeyLimiter, cost: int, turns: seq<Turn>) returns (r: Result<(), LimiterError>, ghost own: seq<nat>)
      requires Valid() && Inv(View()) && At(View(), p, Rated) && HoldsFor(View(), p, owner)
      requires key.Valid() && cost >= 1 && PositiveTurns(turns)
      modifies this, key, key.requests, key.tokens
      ensures Valid() && Inv(View())
      ensures if r.Ok? then At(View(), p, Rated) && HoldsFor(View(), p, owner) else Gone(View(), p)
      ensures old(others) == [] ==> others == [] && permits == old(permits) && closed == old(closed)
      ensures key.Valid() && old(key.log) <= key.log && key.Own(own, cost, r.Ok?)
      ensures T.BothSound(old(key.View()))
      ensures var answer := TakeFrom(old(key.View()), cost, turns);
        && key.View() == answer.0 && r.Ok? == answer.1.Ok?
        && (r.Err? && old(others) == [] && !old(closed) ==> r == Err(RateRefused(answer.1.error)))
    {
      hide Apply, Enabled, Inv, Runs, TakeFrom;
      var answer;
      answer, own := key.Take(cost, turns);
      Interleave(p);
      if answer.Err? {
        FailRated(p);
        ReleaseOwner(p);
        return Err(if closed then LimiterClosed else RateRefused(answer.error)), own;
      }
      return Ok(()), own;
    }

    method BeginRequest(p: nat, ghost owner: string)
      requires Valid() && Inv(View()) && p !in stages && !closed
      modifies this
      ensures Valid() && Inv(View()) && At(View(), p, Begun)
      ensures old(others) == [] ==> others == [] && permits == old(permits) && closed == old(closed)
      ensures old(others) == [] ==>
        (SlotIsFree(View(), owner) <==> SlotIsFree(old(View()), owner)) && (QueueIsFull(View(), owner) <==> QueueIsFull(old(View()), owner))
    {
      ghost var was := View();
      EntrancesAre(was, p);
      hide Apply, Enabled, Inv, Runs, K.Enter, K.Take, K.GiveUp, K.Drop, K.Leave, K.CanTake;
      Commit(permits, slots, stages[p := Begun], Begin(p));
      Interleave(p);
    }

    method RefuseBegun(p: nat)
      requires Valid() && Inv(View()) && At(View(), p, Begun)
      modifies this
      ensures Valid() && Inv(View()) && others == old(others) && permits == old(permits) && closed == old(closed) && Gone(View(), p)
    {
      ghost var was := View();
      EntrancesAre(was, p);
      hide Apply, Enabled, Inv, Runs, K.Enter, K.Take, K.GiveUp, K.Drop, K.Leave, K.CanTake;
      Commit(permits, slots, stages - {p}, Refuse(p));
      LiveOrGone(View(), p);
    }

    /** The owner's slot, with at most its queue's length of others waiting. */
    method AcquireOwner(p: nat, owner: string, c: Circumstances) returns (r: Result<(), LimiterError>)
      requires Valid() && Inv(View()) && At(View(), p, Begun)
      modifies this
      ensures Valid() && Inv(View())
      ensures old(others) == [] ==> others == [] && permits == old(permits) && closed == old(closed)
      ensures r == Err(OwnerRequired) <==> owner == ""
      ensures old(others) == [] && owner != "" ==>
        r == if QueueIsFull(old(View()), owner) then Err(OwnerQueueFull)
             else if !SlotIsFree(old(View()), owner) || c.ownerExpired then Err(OwnerQueueTimeout)
             else Ok(())
      ensures if r.Ok? then At(View(), p, Rated) && HoldsFor(View(), p, owner) && owner != "" && !c.ownerExpired else Gone(View(), p)
    {
      hide Apply, Enabled, Inv, Runs, SlotIsFree, QueueIsFull, K.CanTake;
      if owner == "" {
        RefuseBegun(p);
        return Err(OwnerRequired);
      }
      var entered := EnterQueue(p, owner);
      if !entered {
        RefuseBegun(p);
        return Err(OwnerQueueFull);
      }
      Interleave(p);
      var taken := WaitForSlot(p, owner, c.ownerPatience);
      if !taken {
        ReturnReference(p);
        return Err(OwnerQueueTimeout);
      }
      Interleave(p);
      if c.ownerExpired {
        FailRated(p);
        ReleaseOwner(p);
        return Err(OwnerQueueTimeout);
      }
      return Ok(());
    }

    method EnterQueue(p: nat, owner: string) returns (entered: bool)
      requires Valid() && Inv(View()) && At(View(), p, Begun)
      modifies this
      ensures Valid() && Inv(View()) && others == old(others) && permits == old(permits) && closed == old(closed)
      ensures entered <==> !QueueIsFull(old(View()), owner)
      ensures entered ==> (K.CanTake(slots, limits, p) <==> SlotIsFree(old(View()), owner))
      ensures if entered then At(View(), p, Queued) && Asks(p, owner) else View() == old(View())
    {
      hide Apply, Enabled, Inv, Runs, K.Enter, K.CanTake, SlotIsFree, QueueIsFull;
      EnterIs(View(), p, owner);
      var found := K.Enter(slots, limits, p, owner);
      entered := found.1;
      if entered { Commit(permits, found.0, stages[p := Queued], EnterOwner(p, owner)); }
    }

    predicate Asks(p: nat, owner: string)
      reads this
    {
      PhaseOf(View(), p) == Some(K.Waiting) && slots.users[p].key == owner
    }

    method WaitForSlot(p: nat, owner: string, patience: nat) returns (taken: bool)
      requires Valid() && Inv(View()) && At(View(), p, Queued) && Asks(p, owner)
      modifies this
      ensures Valid() && Inv(View())
      ensures old(others) == [] ==> others == [] && permits == old(permits) && closed == old(closed)
      ensures old(K.CanTake(slots, limits, p)) ==> taken
      ensures old(others) == [] ==> taken == old(K.CanTake(slots, limits, p))
      ensures if taken then At(View(), p, Rated) && HoldsFor(View(), p, owner) else At(View(), p, Unwinding) && PhaseOf(View(), p) == Some(K.Leaving)
    {
      hide Apply, Enabled, Inv, Runs, K.CanTake;
      var left := patience;
      while left > 0 && !K.CanTake(slots, limits, p)
        invariant Valid() && Inv(View()) && At(View(), p, Queued) && Asks(p, owner)
        invariant old(K.CanTake(slots, limits, p)) ==> K.CanTake(slots, limits, p)
        invariant old(others) == [] ==> others == [] && View() == old(View())
      {
        Interleave(p);
        left := left - 1;
      }
      taken := K.CanTake(slots, limits, p);
      if taken { TakeToken(p, owner); } else { GiveUpWaiting(p); }
    }

    method TakeToken(p: nat, owner: string)
      requires Valid() && At(View(), p, Queued) && Asks(p, owner) && K.CanTake(slots, limits, p)
      modifies this
      ensures Valid() && Inv(View()) && At(View(), p, Rated) && HoldsFor(View(), p, owner) && others == old(others) && permits == old(permits) && closed == old(closed)
    {
      ghost var was := View();
      TakeIs(was, p);
      hide Apply, Enabled, Inv, Runs, K.Enter, K.Take, K.GiveUp, K.Drop, K.Leave;
      Commit(permits, K.Take(slots, limits, p), stages[p := Rated], TakeOwner(p));
    }

    method GiveUpWaiting(p: nat)
      requires Valid() && Inv(View()) && At(View(), p, Queued) && p in slots.users
      modifies this
      ensures Valid() && Inv(View()) && others == old(others) && permits == old(permits) && closed == old(closed) && At(View(), p, Unwinding) && PhaseOf(View(), p) == Some(K.Leaving)
    {
      ghost var was := View();
      GiveUpIs(was, p);
      hide Apply, Enabled, Inv, Runs, K.Enter, K.Take, K.GiveUp, K.Drop, K.Leave, K.CanTake;
      Commit(permits, K.GiveUp(slots, p), stages[p := Unwinding], OwnerTimeout(p));
    }

    /** The rate limiter or an expired context ends the request while it holds its slot only. */
    method FailRated(p: nat)
      requires Valid() && Inv(View()) && At(View(), p, Rated)
      modifies this
      ensures Valid() && Inv(View()) && others == old(others) && permits == old(permits) && closed == old(closed) && At(View(), p, Unwinding) && PhaseOf(View(), p) == Some(K.Holding)
    {
      ghost var was := View();
      EntrancesAre(was, p);
      LiveOrGone(was, p);
      hide Apply, Enabled, Inv, Runs, K.Enter, K.Take, K.GiveUp, K.Drop, K.Leave, K.CanTake;
      Commit(permits, slots, stages[p := Unwinding], Fail(p));
    }

    /** The permit last; closed, expired or refused after the wait, it goes back before the slot does. */
    method AcquirePermit(p: nat, owner: string, c: Circumstances) returns (r: Result<(), LimiterError>)
      requires Valid() && Inv(View()) && At(View(), p, Rated) && HoldsFor(View(), p, owner)
      modifies this
      ensures Valid() && Inv(View())
      ensures old(others) == [] && !old(closed) ==>
        r == if old(permits) >= maxPermits || c.permitExpired then Err(WaitCanceled)
             else if c.recheck.Some? then Err(c.recheck.value)
             else Ok(())
      ensures r.Ok? ==> At(View(), p, Granted) && HoldsFor(View(), p, owner) && !c.permitExpired && c.recheck.None?
      ensures r.Err? ==> Gone(View(), p)
    {
      hide Apply, Enabled, Inv, Runs;
      var left := c.permitPatience;
      while left > 0 && permits >= maxPermits
        invariant Valid() && Inv(View()) && At(View(), p, Rated) && HoldsFor(View(), p, owner)
        invariant old(others) == [] ==> others == [] && permits == old(permits) && closed == old(closed)
      {
        Interleave(p);
        left := left - 1;
      }
      if permits >= maxPermits {
        FailRated(p);
        ReleaseOwner(p);
        return Err(if closed then LimiterClosed else WaitCanceled);
      }
      SendPermit(p, owner);
      if closed || c.permitExpired {
        GiveBack(p);
        return Err(if closed then LimiterClosed else WaitCanceled);
      }
      ConfirmOpen(p, owner);
      if c.recheck.Some? {
        GiveBack(p);
        return Err(c.recheck.value);
      }
      GrantConfirmed(p, owner);
      return Ok(());
    }

    method SendPermit(p: nat, owner: string)
      requires Valid() && Inv(View()) && At(View(), p, Rated) && HoldsFor(View(), p, owner) && permits < maxPermits
      modifies this
      ensures Valid() && Inv(View()) && At(View(), p, Permitted) && HoldsFor(View(), p, owner)
      ensures old(others) == [] ==> others == [] && closed == old(closed)
    {
      ghost var was := View();
      TakePermitIs(was, p);
      hide Apply, Enabled, Inv, Runs, K.Enter, K.Take, K.GiveUp, K.Drop, K.Leave, K.CanTake;
      Commit(permits + 1, slots, stages[p := Permitted], TakePermit(p));
      Interleave(p);
    }

    method ConfirmOpen(p: nat, owner: string)
      requires Valid() && Inv(View()) && At(View(), p, Permitted) && HoldsFor(View(), p, owner) && !closed
      modifies this
      ensures Valid() && Inv(View()) && At(View(), p, Confirmed) && HoldsFor(View(), p, owner)
      ensures old(others) == [] ==> others == [] && closed == old(closed)
    {
      ghost var was := View();
      ChecksAre(was, p);
      hide Apply, Enabled, Inv, Runs, K.Enter, K.Take, K.GiveUp, K.Drop, K.Leave, K.CanTake;
      Commit(permits, slots, stages[p := Confirmed], Confirm(p));
      Interleave(p);
    }

    method GrantConfirmed(p: nat, owner: string)
      requires Valid() && Inv(View()) && At(View(), p, Confirmed) && HoldsFor(View(), p, owner)
      modifies this
      ensures Valid() && Inv(View()) && At(View(), p, Granted) && HoldsFor(View(), p, owner)
    {
      ghost var was := View();
      ChecksAre(was, p);
      hide Apply, Enabled, Inv, Runs, K.Enter, K.Take, K.GiveUp, K.Drop, K.Leave, K.CanTake;
      Commit(permits, slots, stages[p := Granted], Grant(p));
    }

    /** Permit, slot, reference, in that order. */
    method GiveBack(p: nat)
      requires Valid() && Inv(View()) && HoldsPermit(View(), p)
      modifies this
      ensures Valid() && Inv(View()) && Gone(View(), p)
      ensures old(others) == [] ==> others == [] && closed == old(closed)
    {
      hide Apply, Enabled, Inv, Runs, HoldsPermit, Gone;
      ReturnPermit(p);
      Interleave(p);
      ReleaseOwner(p);
    }

    method ReturnPermit(p: nat)
      requires Valid() && Inv(View()) && HoldsPermit(View(), p)
      modifies this
      ensures Valid() && Inv(View()) && At(View(), p, Unwinding) && PhaseOf(View(), p) == Some(K.Holding)
      ensures others == old(others) && closed == old(closed)
    {
      ghost var was := View();
      GivePermitIs(was, p);
      LiveOrGone(was, p);
      assert PhaseOf(was, p) == Some(K.Holding);
      hide Apply, Enabled, Inv, Runs, K.Enter, K.Take, K.GiveUp, K.Drop, K.Leave, K.CanTake;
      Commit(permits - 1, slots, stages[p := Unwinding], GivePermit(p));
    }

    method ReleaseOwner(p: nat)
      requires Valid() && Inv(View()) && At(View(), p, Unwinding) && PhaseOf(View(), p) == Some(K.Holding)
      modifies this
      ensures Valid() && Inv(View()) && Gone(View(), p)
      ensures old(others) == [] ==> others == [] && permits == old(permits) && closed == old(closed)
    {
      hide Apply, Enabled, Inv, Runs;
      DropSlot(p);
      Interleave(p);
      ReturnReference(p);
    }

    method DropSlot(p: nat)
      requires Valid() && Inv(View()) && At(View(), p, Unwinding) && PhaseOf(View(), p) == Some(K.Holding)
      modifies this
      ensures Valid() && Inv(View()) && At(View(), p, Unwinding) && PhaseOf(View(), p) == Some(K.Leaving)
      ensures others == old(others) && permits == old(permits) && closed == old(closed)
    {
      hide Apply, Enabled, Inv, Runs, K.Enter, K.Take, K.GiveUp, K.Drop, K.Leave, K.CanTake;
      DropIs(View(), p);
      Commit(permits, K.Drop(slots, p), stages[p := Unwinding], DropOwner(p));
    }

    method ReturnReference(p: nat)
      requires Valid() && Inv(View()) && At(View(), p, Unwinding) && PhaseOf(View(), p) == Some(K.Leaving)
      modifies this
      ensures Valid() && Inv(View()) && others == old(others) && permits == old(permits) && closed == old(closed) && Gone(View(), p)
    {
      hide Apply, Enabled, Inv, Runs, K.Enter, K.Take, K.GiveUp, K.Drop, K.Leave, K.CanTake;
      LeaveIs(View(), p);
      Commit(permits, K.Leave(slots, p), stages - {p}, LeaveOwner(p));
      LiveOrGone(View(), p);
    }

    /** What a granted request calls when it is done; after the first call, nothing happens. */
    method Release(p: nat)
      requires Valid() && (p in stages ==> stages[p].Granted?)
      modifies this
      ensures Valid() && Inv(View()) && Gone(View(), p)
      ensures old(p !in stages) ==> View() == old(View())
    {
      RunsKeepInv(initial, history, View());
      LiveOrGone(View(), p);
      hide Apply, Enabled, Inv, Runs;
      if p in stages { GiveBack(p); }
    }
  }
}
