/**
  Admission of model requests: an owner's own slots first, then the rate of its key, then a permit of the whole
  process. A request that fails anywhere gives back what it took, and one that is granted does so on release.
 */
module ModelLimiter {
  import opened Results
  import opened Totals
  import K = KeyedSlots

  /** A request has begun once the limiter was seen open; it is confirmed once it was, holding its permit. */
  datatype Stage = Begun | Queued | Rated | Permitted | Confirmed | Granted | Unwinding
  {
    predicate HasPermit() { Permitted? || Confirmed? || Granted? }
    predicate Cleared() { Confirmed? || Granted? }
  }

  datatype Limiter = Limiter(maxPermits: nat, owners: K.Limits, permits: int, closed: bool, slots: K.State, stages: map<nat, Stage>)

  datatype Step =
    | Begin(p: nat)
    | Refuse(p: nat)
    | EnterOwner(p: nat, owner: string)
    | TakeOwner(p: nat)
    | OwnerTimeout(p: nat)
    | Fail(p: nat)
    | TakePermit(p: nat)
    | Confirm(p: nat)
    | Grant(p: nat)
    | GivePermit(p: nat)
    | DropOwner(p: nat)
    | LeaveOwner(p: nat)
    | Close

  /** Owner admission is on: wiring asks for an owner limit of at least one. */
  function New(maxConcurrent: int, ownerMax: nat, ownerQueue: int): (l: Limiter)
    requires ownerMax > 0
    ensures l.owners.slots == ownerMax && l.owners.admitted.Some?
    ensures l.owners.admitted.value == ownerMax + (if ownerQueue < 0 then 0 else ownerQueue)
  {
    var queue := if ownerQueue < 0 then 0 else ownerQueue;
    Limiter(if maxConcurrent <= 0 then 1 else maxConcurrent, K.Limits(ownerMax, Some(ownerMax + queue)), 0, false, K.EMPTY, map[])
  }

  function PhaseOf(l: Limiter, p: nat): Option<K.Phase> {
    if p in l.slots.users then Some(l.slots.users[p].phase) else None
  }

  predicate At(l: Limiter, p: nat, stage: Stage) { p in l.stages && l.stages[p] == stage }

  predicate SlotIs(l: Limiter, p: nat, phase: K.Phase) {
    PhaseOf(l, p) == Some(phase) && l.slots.users[p].entry in l.slots.heap
  }

  predicate Enabled(l: Limiter, step: Step) {
    match step
    case Begin(p) => p !in l.stages && !l.closed
    case Refuse(p) => At(l, p, Begun)
    case EnterOwner(p, owner) =>
      At(l, p, Begun) && p !in l.slots.users && (owner in l.slots.entries ==> l.slots.entries[owner] in l.slots.heap)
      && K.Enter(l.slots, l.owners, p, owner).1
    case TakeOwner(p) => At(l, p, Queued) && K.CanTake(l.slots, l.owners, p)
    case OwnerTimeout(p) => At(l, p, Queued) && SlotIs(l, p, K.Waiting)
    case Fail(p) => At(l, p, Rated)
    case TakePermit(p) => At(l, p, Rated) && l.permits < l.maxPermits
    case Confirm(p) => At(l, p, Permitted) && !l.closed
    case Grant(p) => At(l, p, Confirmed)
    case GivePermit(p) => p in l.stages && l.stages[p].HasPermit()
    case DropOwner(p) => At(l, p, Unwinding) && SlotIs(l, p, K.Holding)
    case LeaveOwner(p) => At(l, p, Unwinding) && SlotIs(l, p, K.Leaving)
    case Close => true
  }

  function Move(l: Limiter, p: nat, stage: Stage, slots: K.State): Limiter {
    l.(stages := l.stages[p := stage], slots := slots)
  }

  function Apply(l: Limiter, step: Step): Limiter
    requires Enabled(l, step)
  {
    match step
    case Begin(p) => Move(l, p, Begun, l.slots)
    case Refuse(p) => l.(stages := l.stages - {p})
    case EnterOwner(p, owner) => Move(l, p, Queued, K.Enter(l.slots, l.owners, p, owner).0)
    case TakeOwner(p) => Move(l, p, Rated, K.Take(l.slots, l.owners, p))
    case OwnerTimeout(p) => Move(l, p, Unwinding, K.GiveUp(l.slots, p))
    case Fail(p) => Move(l, p, Unwinding, l.slots)
    case TakePermit(p) => Move(l, p, Permitted, l.slots).(permits := l.permits + 1)
    case Confirm(p) => Move(l, p, Confirmed, l.slots)
    case Grant(p) => Move(l, p, Granted, l.slots)
    case GivePermit(p) => Move(l, p, Unwinding, l.slots).(permits := l.permits - 1)
    case DropOwner(p) => Move(l, p, Unwinding, K.Drop(l.slots, p))
    case LeaveOwner(p) => l.(slots := K.Leave(l.slots, p), stages := l.stages - {p})
    case Close => l.(closed := true)
  }

  ghost predicate Runs(l: Limiter, steps: seq<Step>, m: Limiter)
    decreases |steps|
  {
    if steps == [] then l == m
    else Enabled(l, steps[0]) && Runs(Apply(l, steps[0]), steps[1..], m)
  }

  // ---------------------------------------------------------------------------------------------
  // The invariant of every run
  // ---------------------------------------------------------------------------------------------

  ghost function PermitHolders(l: Limiter): set<nat> {
    set p | p in l.stages && HoldsPermit(l, p)
  }

  predicate Fits(stage: Stage, phase: Option<K.Phase>) {
    match stage
    case Begun => phase.None?
    case Queued => phase == Some(K.Waiting)
    case Rated | Permitted | Confirmed | Granted => phase == Some(K.Holding)
    case Unwinding => phase.Some? && !phase.value.Waiting?
  }

  ghost predicate Placed(l: Limiter) {
    && l.slots.users.Keys <= l.stages.Keys
    && (forall p :: p in l.stages ==> Fits(l.stages[p], PhaseOf(l, p)))
  }

  ghost predicate Conserved(l: Limiter) {
    l.permits == |PermitHolders(l)| <= l.maxPermits && 0 < l.maxPermits
  }

  predicate Admitting(limits: K.Limits) { limits.slots > 0 && (limits.admitted.Some? ==> limits.admitted.value > 0) }

  ghost predicate Inv(l: Limiter) {
    Conserved(l) && Placed(l) && Admitting(l.owners) && K.Inv(l.slots, l.owners)
  }

  lemma NewIsInv(maxConcurrent: int, ownerMax: nat, ownerQueue: int)
    requires ownerMax > 0
    ensures Inv(New(maxConcurrent, ownerMax, ownerQueue))
  {
  }

  lemma SlotsKeepInv(l: Limiter, step: Step)
    requires K.Inv(l.slots, l.owners) && Admitting(l.owners) && Enabled(l, step)
    ensures K.Inv(Apply(l, step).slots, l.owners)
  {
    hide K.Inv;
    match step
    case EnterOwner(p, owner) => K.EnterKeepsInv(l.slots, l.owners, p, owner);
    case TakeOwner(p) => K.TakeKeepsInv(l.slots, l.owners, p);
    case OwnerTimeout(p) => K.GiveUpKeepsInv(l.slots, l.owners, p);
    case DropOwner(p) => K.DropKeepsInv(l.slots, l.owners, p);
    case LeaveOwner(p) => K.LeaveKeepsInv(l.slots, l.owners, p);
    case Begin(_) | Refuse(_) | Fail(_) | TakePermit(_) | Confirm(_) | Grant(_) | GivePermit(_) | Close =>
  }

  function Actor(step: Step): Option<nat> {
    if step.Close? then None else Some(step.p)
  }

  lemma OwnChange(l: Limiter, step: Step)
    requires Enabled(l, step) && Actor(step).Some?
    ensures PhaseOf(Apply(l, step), step.p) == (match step
        case EnterOwner(_, _) => Some(K.Waiting)
        case TakeOwner(_) => Some(K.Holding)
        case OwnerTimeout(_) => Some(K.Leaving)
        case DropOwner(_) => Some(K.Leaving)
        case LeaveOwner(_) => None
        case _ => PhaseOf(l, step.p))
  {
  }

  lemma OthersUnmoved(l: Limiter, step: Step, q: nat)
    requires Enabled(l, step) && Actor(step) != Some(q)
    ensures PhaseOf(Apply(l, step), q) == PhaseOf(l, q)
    ensures q in l.slots.users ==> Apply(l, step).slots.users[q] == l.slots.users[q]
    ensures q in Apply(l, step).stages <==> q in l.stages
    ensures q in l.stages ==> Apply(l, step).stages[q] == l.stages[q]
  {
  }

  lemma StaysPlaced(l: Limiter, step: Step)
    requires Placed(l) && Enabled(l, step)
    ensures Placed(Apply(l, step))
  {
    var m := Apply(l, step);
    if step != Close { OwnChange(l, step); }
    forall q ensures q in m.stages ==> Fits(m.stages[q], PhaseOf(m, q)) {
      if Actor(step) != Some(q) { OthersUnmoved(l, step, q); }
      hide K.Enter, K.Take, K.GiveUp, K.Drop, K.Leave;
    }
    forall q | q in m.slots.users ensures q in m.stages {
      if Actor(step) != Some(q) { OthersUnmoved(l, step, q); }
      assert PhaseOf(m, q).Some?;
      hide K.Enter, K.Take, K.GiveUp, K.Drop, K.Leave;
    }
  }

  predicate HoldsPermit(l: Limiter, p: nat) { p in l.stages && l.stages[p].HasPermit() }

  function One(holds: bool): int { if holds then 1 else 0 }

  lemma OthersHoldTheSame(l: Limiter, m: Limiter, p: nat, q: nat)
    requires l.stages - {p} == m.stages - {p} && q != p
    ensures HoldsPermit(l, q) == HoldsPermit(m, q)
  {
    var a, b := l.stages - {p}, m.stages - {p};
    assert q in l.stages <==> q in a;
    assert q in m.stages <==> q in b;
    if q in a { assert a[q] == l.stages[q] && b[q] == m.stages[q]; }
  }

  lemma WithOrWithout(l: Limiter, p: nat)
    ensures |PermitHolders(l)| == |PermitHolders(l) - {p}| + One(HoldsPermit(l, p))
  {
    var rest := PermitHolders(l) - {p};
    assert PermitHolders(l) == if HoldsPermit(l, p) then rest + {p} else rest;
  }

  /** One request's change of stage counts for one permit at most. */
  lemma OneStageChanges(l: Limiter, m: Limiter, p: nat)
    requires l.stages - {p} == m.stages - {p}
    ensures |PermitHolders(m)| - One(HoldsPermit(m, p)) == |PermitHolders(l)| - One(HoldsPermit(l, p))
  {
    forall q: nat | q != p ensures HoldsPermit(l, q) == HoldsPermit(m, q) { OthersHoldTheSame(l, m, p, q); }
    WithOrWithout(l, p);
    WithOrWithout(m, p);
    assert PermitHolders(m) - {p} == PermitHolders(l) - {p} by {
      forall q ensures q in PermitHolders(m) - {p} <==> q in PermitHolders(l) - {p} {
        assert q in PermitHolders(l) <==> HoldsPermit(l, q);
        assert q in PermitHolders(m) <==> HoldsPermit(m, q);
      }
    }
  }

  lemma StaysConserved(l: Limiter, step: Step)
    requires Conserved(l) && Enabled(l, step)
    ensures Conserved(Apply(l, step))
  {
    hide K.Enter, K.Take, K.GiveUp, K.Drop, K.Leave, K.CanTake, PermitHolders;
    var m := Apply(l, step);
    if step.Close? {
      SameHolders(l, m);
    } else {
      assert l.stages - {step.p} == m.stages - {step.p};
      OneStageChanges(l, m, step.p);
    }
  }

  lemma SameHolders(l: Limiter, m: Limiter)
    requires l.stages == m.stages
    ensures PermitHolders(l) == PermitHolders(m)
  {
  }

  lemma StepKeepsInv(l: Limiter, step: Step)
    requires Inv(l) && Enabled(l, step)
    ensures Inv(Apply(l, step)) && Apply(l, step).owners == l.owners && Apply(l, step).maxPermits == l.maxPermits
  {
    SlotsKeepInv(l, step);
    StaysConserved(l, step);
    StaysPlaced(l, step);
    hide K.Inv, Conserved, Placed;
  }

  lemma {:induction false} RunsKeepInv(l: Limiter, steps: seq<Step>, m: Limiter)
    requires Inv(l) && Runs(l, steps, m)
    ensures Inv(m) && m.owners == l.owners && m.maxPermits == l.maxPermits
    decreases |steps|
  {
    hide Inv, Enabled, Apply;
    if steps != [] {
      StepKeepsInv(l, steps[0]);
      RunsKeepInv(Apply(l, steps[0]), steps[1..], m);
    }
  }

  lemma {:induction false} RunsThen(l: Limiter, steps: seq<Step>, m: Limiter, step: Step)
    requires Runs(l, steps, m) && Enabled(m, step)
    ensures Runs(l, steps + [step], Apply(m, step))
    decreases |steps|
  {
    hide Enabled, Apply;
    if steps == [] {
      assert Runs(Apply(m, step), [], Apply(m, step));
    } else {
      assert (steps + [step])[1..] == steps[1..] + [step];
      RunsThen(Apply(l, steps[0]), steps[1..], m, step);
    }
  }

  // ---------------------------------------------------------------------------------------------
  // What it gives
  // ---------------------------------------------------------------------------------------------

  /** The requests of one owner that hold a permit of the process. */
  function PermitsOf(l: Limiter, owner: string): set<nat> {
    set p | p in l.stages && l.stages[p].HasPermit() && p in l.slots.users && l.slots.users[p].key == owner
  }

  /** Over every run: an owner's slots and queue are bounded, permits are exactly the requests holding one, and bounded. */
  lemma OwnersAreBounded(maxConcurrent: int, ownerMax: nat, ownerQueue: int, steps: seq<Step>, l: Limiter, owner: string)
    requires ownerMax > 0 && Runs(New(maxConcurrent, ownerMax, ownerQueue), steps, l)
    ensures |K.HoldersOf(l.slots, owner)| <= ownerMax
    ensures |K.UsersOf(l.slots, owner)| <= ownerMax + (if ownerQueue < 0 then 0 else ownerQueue)
    ensures owner in l.slots.entries <==> K.UsersOf(l.slots, owner) != {}
    ensures l.permits == |PermitHolders(l)| <= (if maxConcurrent <= 0 then 1 else maxConcurrent)
  {
    NewIsInv(maxConcurrent, ownerMax, ownerQueue);
    RunsKeepInv(New(maxConcurrent, ownerMax, ownerQueue), steps, l);
    K.KeyIsBounded(l.slots, l.owners, owner);
  }

  /** With fewer owner slots than permits, whatever one owner does leaves a permit it does not hold. */
  lemma NoOwnerHoldsEveryPermit(maxConcurrent: int, ownerMax: nat, ownerQueue: int, steps: seq<Step>, l: Limiter, owner: string)
    requires 0 < ownerMax < maxConcurrent && Runs(New(maxConcurrent, ownerMax, ownerQueue), steps, l)
    ensures |PermitsOf(l, owner)| <= ownerMax < l.maxPermits
    ensures (forall p :: p in l.slots.users ==> l.slots.users[p].key == owner) ==> l.permits < l.maxPermits
  {
    NewIsInv(maxConcurrent, ownerMax, ownerQueue);
    RunsKeepInv(New(maxConcurrent, ownerMax, ownerQueue), steps, l);
    OwnersAreBounded(maxConcurrent, ownerMax, ownerQueue, steps, l, owner);
    PermitsAreHeldSlots(l, owner);
    if forall p :: p in l.slots.users ==> l.slots.users[p].key == owner {
      AllPermitsOf(l, owner);
    }
  }

  lemma PermitsAreHeldSlots(l: Limiter, owner: string)
    requires Inv(l)
    ensures |PermitsOf(l, owner)| <= |K.HoldersOf(l.slots, owner)|
  {
    hide K.Inv;
    forall p | p in PermitsOf(l, owner) ensures p in K.HoldersOf(l.slots, owner) {
      assert Fits(l.stages[p], PhaseOf(l, p));
    }
    SubsetSize(PermitsOf(l, owner), K.HoldersOf(l.slots, owner));
  }

  lemma AllPermitsOf(l: Limiter, owner: string)
    requires Inv(l) && forall p :: p in l.slots.users ==> l.slots.users[p].key == owner
    ensures PermitHolders(l) == PermitsOf(l, owner)
  {
    hide K.Inv;
    forall p | p in PermitHolders(l) ensures p in PermitsOf(l, owner) {
      assert Fits(l.stages[p], PhaseOf(l, p));
    }
  }

  /** A step that gives something back or makes use of what is free. */
  predicate Moves(l: Limiter, step: Step) {
    Enabled(l, step) && (step.TakeOwner? || step.TakePermit? || step.GivePermit? || step.DropOwner?)
  }

  /** A request that waits, for a slot or a permit, never waits for nothing: somebody inside can go on. */
  lemma NoDeadlock(l: Limiter, p: nat)
    requires Inv(l) && (At(l, p, Queued) || At(l, p, Rated))
    ensures exists step: Step :: Moves(l, step)
  {
    K.EntryIsKnown(l.slots, l.owners, p);
    if At(l, p, Rated) {
      HolderMoves(l, p);
    } else {
      var owner := l.slots.users[p].key;
      if K.HoldersOf(l.slots, owner) == {} {
        K.FreeSlot(l.slots, l.owners, p);
        hide K.Inv;
        assert Moves(l, TakeOwner(p));
      } else {
        var q :| q in K.HoldersOf(l.slots, owner);
        hide K.Inv, Enabled, Fits;
        HolderMoves(l, q);
      }
    }
  }

  lemma HolderMoves(l: Limiter, q: nat)
    requires Inv(l) && PhaseOf(l, q) == Some(K.Holding)
    ensures exists step: Step :: Moves(l, step)
  {
    K.EntryIsKnown(l.slots, l.owners, q);
    hide K.Inv, K.Enter, K.Take, K.GiveUp, K.Drop, K.Leave, K.CanTake;
    assert Fits(l.stages[q], PhaseOf(l, q));
    if At(l, q, Rated) { PermitMoves(l, q); }
    else if At(l, q, Unwinding) { assert Moves(l, DropOwner(q)); }
    else { assert Moves(l, GivePermit(q)); }
  }

  lemma PermitMoves(l: Limiter, p: nat)
    requires Inv(l) && At(l, p, Rated)
    ensures exists step: Step :: Moves(l, step)
  {
    hide K.Inv, K.Enter, K.Take, K.GiveUp, K.Drop, K.Leave, K.CanTake;
    if l.permits < l.maxPermits {
      assert Moves(l, TakePermit(p));
    } else {
      var q :| q in PermitHolders(l);
      assert Moves(l, GivePermit(q));
    }
  }

  ghost function Cleared(l: Limiter): set<nat> {
    set p | p in l.stages && l.stages[p].Cleared()
  }

  /** After Close no request is cleared that was not before: only those already past the last check are granted. */
  lemma {:induction false} CloseGrantsNobody(l: Limiter, steps: seq<Step>, m: Limiter)
    requires l.closed && Runs(l, steps, m)
    ensures m.closed && Cleared(m) <= Cleared(l) && m.stages.Keys <= l.stages.Keys
    decreases |steps|
  {
    if steps != [] {
      var next := Apply(l, steps[0]);
      CloseStep(l, steps[0]);
      hide Enabled, Apply, Cleared;
      CloseGrantsNobody(next, steps[1..], m);
    }
  }

  lemma CloseStep(l: Limiter, step: Step)
    requires l.closed && Enabled(l, step)
    ensures Apply(l, step).closed && Cleared(Apply(l, step)) <= Cleared(l) && Apply(l, step).stages.Keys <= l.stages.Keys
  {
    hide K.Enter, K.Take, K.GiveUp, K.Drop, K.Leave, K.CanTake;
  }
}
