/**
  Admission of runs: a reservation takes a place in the queue, becomes the one writer of its conversation, and
  then takes one of the active slots. Whatever happens, the three are given back in the opposite order.
 */
module RunController {
  import opened Results
  import opened Totals
  import K = KeyedSlots

  datatype Stage = Idle | Acquiring | AwaitingSlot | Active | Unwinding

  /** The channels' lengths, the wait group, the writers, and how far each reservation has come. */
  datatype Controller = Controller(
    maxActive: nat, maxPending: nat, capacity: int, pending: int, active: int, closing: bool,
    writers: K.State, reserved: set<nat>, stages: map<nat, Stage>)

  /** One writer per conversation, and no bound on how many wait for it. */
  const WRITER := K.Limits(1, None)

  datatype Step =
    | Reserve(p: nat)
    | Acquire(p: nat, conversation: string)
    | TakeWriter(p: nat)
    | WriterTimeout(p: nat)
    | TakeSlot(p: nat)
    | SlotTimeout(p: nat)
    | Finish(p: nat)
    | DropWriter(p: nat)
    | LeaveWriter(p: nat)
    | Cancel(p: nat)
    | BeginClose
  {
    /** A step of a run already admitted, which only ever brings it nearer its end. */
    predicate Progresses() { !Reserve? && !BeginClose? }

    predicate TimesOut() { WriterTimeout? || SlotTimeout? }
  }

  function New(maxConcurrent: int, queueSize: int): Controller {
    var most := if maxConcurrent <= 0 then 1 else maxConcurrent;
    var queue := if queueSize < 0 then 0 else queueSize;
    Controller(most, most + queue, 0, 0, 0, false, K.EMPTY, {}, map[])
  }

  predicate At(c: Controller, p: nat, stage: Stage) { p in c.stages && c.stages[p] == stage }

  /** What a reservation is doing with its writer, if it has one. */
  function PhaseOf(c: Controller, p: nat): Option<K.Phase> {
    if p in c.writers.users then Some(c.writers.users[p].phase) else None
  }

  predicate WriterIs(c: Controller, p: nat, phase: K.Phase) {
    PhaseOf(c, p) == Some(phase) && c.writers.users[p].entry in c.writers.heap
  }

  /** The reservation has not been started, or its Start or run has given everything else back. */
  predicate MayCancel(c: Controller, p: nat) {
    At(c, p, Idle) || (At(c, p, Unwinding) && p !in c.writers.users)
  }

  /** When a step can be taken; Cancel as the commands call it, never while its own Start is under way. */
  predicate Enabled(c: Controller, step: Step) {
    match step
    case Reserve(p) => p !in c.stages && p !in c.reserved && !c.closing && c.capacity < c.maxPending
    case Acquire(p, conversation) =>
      At(c, p, Idle) && conversation != "" && p !in c.writers.users
      && (conversation in c.writers.entries ==> c.writers.entries[conversation] in c.writers.heap)
    case TakeWriter(p) => At(c, p, Acquiring) && K.CanTake(c.writers, WRITER, p)
    case WriterTimeout(p) => At(c, p, Acquiring) && WriterIs(c, p, K.Waiting)
    case TakeSlot(p) => At(c, p, AwaitingSlot) && c.active < c.maxActive
    case SlotTimeout(p) => At(c, p, AwaitingSlot)
    case Finish(p) => At(c, p, Active)
    case DropWriter(p) => At(c, p, Unwinding) && WriterIs(c, p, K.Holding)
    case LeaveWriter(p) => At(c, p, Unwinding) && WriterIs(c, p, K.Leaving)
    case Cancel(p) => MayCancel(c, p)
    case BeginClose => true
  }

  function Move(c: Controller, p: nat, stage: Stage, writers: K.State): Controller {
    c.(stages := c.stages[p := stage], writers := writers)
  }

  function Apply(c: Controller, step: Step): Controller
    requires Enabled(c, step)
  {
    match step
    case Reserve(p) => c.(capacity := c.capacity + 1, pending := c.pending + 1, reserved := c.reserved + {p}, stages := c.stages[p := Idle])
    case Acquire(p, conversation) => Move(c, p, Acquiring, K.Enter(c.writers, WRITER, p, conversation).0)
    case TakeWriter(p) => Move(c, p, AwaitingSlot, K.Take(c.writers, WRITER, p))
    case WriterTimeout(p) => Move(c, p, Unwinding, K.GiveUp(c.writers, p))
    case TakeSlot(p) => Move(c, p, Active, c.writers).(active := c.active + 1)
    case SlotTimeout(p) => Move(c, p, Unwinding, c.writers)
    case Finish(p) => Move(c, p, Unwinding, c.writers).(active := c.active - 1)
    case DropWriter(p) => Move(c, p, Unwinding, K.Drop(c.writers, p))
    case LeaveWriter(p) => Move(c, p, Unwinding, K.Leave(c.writers, p))
    case Cancel(p) => CancelAnytime(c, p)
    case BeginClose => c.(closing := true)
  }

  /** Reservation.Cancel, once per reservation and whenever it is called. */
  function CancelAnytime(c: Controller, p: nat): Controller {
    var given := if p in c.reserved then 1 else 0;
    c.(capacity := c.capacity - given, pending := c.pending - given, reserved := c.reserved - {p},
       stages := if MayCancel(c, p) then c.stages - {p} else c.stages)
  }

  ghost predicate Runs(c: Controller, steps: seq<Step>, d: Controller)
    decreases |steps|
  {
    if steps == [] then c == d
    else Enabled(c, steps[0]) && Runs(Apply(c, steps[0]), steps[1..], d)
  }

  // ---------------------------------------------------------------------------------------------
  // The invariant of every run
  // ---------------------------------------------------------------------------------------------

  ghost function ActiveRuns(c: Controller): set<nat> {
    set p | p in c.stages && c.stages[p].Active?
  }

  /** Where a reservation stands with the writers, stage by stage. */
  predicate Fits(stage: Stage, phase: Option<K.Phase>) {
    match stage
    case Idle => phase.None?
    case Acquiring => phase == Some(K.Waiting)
    case AwaitingSlot | Active => phase == Some(K.Holding)
    case Unwinding => phase != Some(K.Waiting)
  }

  ghost predicate Placed(c: Controller) {
    && c.writers.users.Keys <= c.stages.Keys
    && (forall p :: p in c.stages ==> Fits(c.stages[p], PhaseOf(c, p)))
  }

  ghost predicate Conserved(c: Controller) {
    && c.reserved == c.stages.Keys
    && c.capacity == c.pending == |c.stages.Keys| <= c.maxPending
    && c.active == |ActiveRuns(c)| <= c.maxActive <= c.maxPending && 0 < c.maxActive
  }

  ghost predicate Inv(c: Controller) {
    Conserved(c) && Placed(c) && K.Inv(c.writers, WRITER)
  }

  lemma NewIsInv(maxConcurrent: int, queueSize: int)
    ensures Inv(New(maxConcurrent, queueSize))
  {
  }

  /** The writers' side of a step: their invariant holds, and only the step's own reservation changed phase. */
  lemma WritersKeepInv(c: Controller, step: Step)
    requires K.Inv(c.writers, WRITER) && Enabled(c, step)
    ensures K.Inv(Apply(c, step).writers, WRITER)
  {
    hide K.Inv;
    match step
    case Acquire(p, conversation) => K.EnterKeepsInv(c.writers, WRITER, p, conversation);
    case TakeWriter(p) => K.TakeKeepsInv(c.writers, WRITER, p);
    case WriterTimeout(p) => K.GiveUpKeepsInv(c.writers, WRITER, p);
    case DropWriter(p) => K.DropKeepsInv(c.writers, WRITER, p);
    case LeaveWriter(p) => K.LeaveKeepsInv(c.writers, WRITER, p);
    case Reserve(_) | TakeSlot(_) | SlotTimeout(_) | Finish(_) | Cancel(_) | BeginClose =>
  }

  function Actor(step: Step): Option<nat> {
    if step.BeginClose? then None else Some(step.p)
  }

  /** What a step does to its own reservation. */
  lemma OwnChange(c: Controller, step: Step)
    requires Enabled(c, step) && Actor(step).Some?
    ensures var d, p := Apply(c, step), step.p;
      && PhaseOf(d, p) == (match step
        case Acquire(_, _) => Some(K.Waiting)
        case TakeWriter(_) => Some(K.Holding)
        case WriterTimeout(_) => Some(K.Leaving)
        case DropWriter(_) => Some(K.Leaving)
        case LeaveWriter(_) => None
        case _ => PhaseOf(c, p))
  {
  }

  lemma OthersUnmoved(c: Controller, step: Step, q: nat)
    requires Enabled(c, step) && Actor(step) != Some(q)
    ensures PhaseOf(Apply(c, step), q) == PhaseOf(c, q)
    ensures q in c.writers.users ==> Apply(c, step).writers.users[q] == c.writers.users[q]
    ensures q in Apply(c, step).stages <==> q in c.stages
    ensures q in c.stages ==> Apply(c, step).stages[q] == c.stages[q]
  {
  }

  lemma StaysPlaced(c: Controller, step: Step)
    requires Placed(c) && Enabled(c, step)
    ensures Placed(Apply(c, step))
  {
    var d := Apply(c, step);
    if step != BeginClose { OwnChange(c, step); }
    forall q ensures q in d.stages ==> Fits(d.stages[q], PhaseOf(d, q)) {
      if Actor(step) != Some(q) { OthersUnmoved(c, step, q); }
      hide K.Enter, K.Take, K.GiveUp, K.Drop, K.Leave;
    }
    forall q | q in d.writers.users ensures q in d.stages {
      if Actor(step) != Some(q) { OthersUnmoved(c, step, q); }
      assert PhaseOf(d, q).Some?;
      hide K.Enter, K.Take, K.GiveUp, K.Drop, K.Leave;
    }
  }

  function One(active: bool): int { if active then 1 else 0 }

  lemma OneStageChanges(c: Controller, d: Controller, p: nat)
    requires p in c.stages && p in d.stages && d.stages == c.stages[p := d.stages[p]]
    ensures d.stages.Keys == c.stages.Keys
    ensures |ActiveRuns(d)| - One(d.stages[p].Active?) == |ActiveRuns(c)| - One(c.stages[p].Active?)
  {
    var others := ActiveRuns(c) - {p};
    assert ActiveRuns(c) == if c.stages[p].Active? then others + {p} else others;
    assert ActiveRuns(d) == if d.stages[p].Active? then others + {p} else others;
  }

  lemma OneStageEndsOrBegins(c: Controller, d: Controller, p: nat)
    requires p in d.stages && c.stages == d.stages - {p} && !d.stages[p].Active?
    ensures d.stages.Keys == c.stages.Keys + {p} && p !in c.stages && c.stages.Keys == d.stages.Keys - {p}
    ensures |d.stages.Keys| == |c.stages.Keys| + 1
    ensures |ActiveRuns(d)| == |ActiveRuns(c)|
  {
    assert d.stages.Keys == c.stages.Keys + {p};
    assert ActiveRuns(d) == ActiveRuns(c);
  }

  lemma MoveStaysConserved(c: Controller, d: Controller, p: nat)
    requires Conserved(c) && p in c.stages && p in d.stages && d.stages == c.stages[p := d.stages[p]]
    requires d == c.(stages := d.stages, writers := d.writers, active := d.active)
    requires d.active - One(d.stages[p].Active?) == c.active - One(c.stages[p].Active?) && (d.active <= c.active || d.active <= d.maxActive)
    ensures Conserved(d)
  {
    hide ActiveRuns;
    OneStageChanges(c, d, p);
  }

  /** One reservation apart, two states are conserved together. */
  lemma OnePlaceApart(c: Controller, d: Controller, p: nat)
    requires p in d.stages && c.stages == d.stages - {p} && !d.stages[p].Active?
    requires p in d.reserved && c.reserved == d.reserved - {p}
    requires c.maxActive == d.maxActive && c.maxPending == d.maxPending && c.active == d.active
    requires d.capacity == c.capacity + 1 && d.pending == c.pending + 1 && c.capacity < c.maxPending
    ensures Conserved(c) <==> Conserved(d)
  {
    hide ActiveRuns;
    OneStageEndsOrBegins(c, d, p);
    assert c.reserved == c.stages.Keys <==> d.reserved == d.stages.Keys;
  }

  lemma PlacesStayConserved(c: Controller, step: Step)
    requires Conserved(c) && Enabled(c, step) && (step.Reserve? || step.Cancel?)
    ensures Conserved(Apply(c, step))
  {
    assert c.reserved == c.stages.Keys && c.capacity <= c.maxPending && |c.stages.Keys| == c.capacity;
    hide K.Enter, K.Take, K.GiveUp, K.Drop, K.Leave, K.CanTake, Conserved;
    var d, p := Apply(c, step), step.p;
    if step.Reserve? {
      assert d.stages == c.stages[p := Idle];
      assert d.stages - {p} == c.stages;
      assert d.reserved - {p} == c.reserved;
      OnePlaceApart(c, d, p);
    } else {
      assert p in c.stages.Keys;
      OnePlaceApart(d, c, p);
    }
  }

  lemma StaysConserved(c: Controller, step: Step)
    requires Conserved(c) && Enabled(c, step)
    ensures Conserved(Apply(c, step))
  {
    hide K.Enter, K.Take, K.GiveUp, K.Drop, K.Leave, K.CanTake, ActiveRuns;
    if step.BeginClose? {
      SameActive(c, Apply(c, step));
    } else {
      hide Conserved;
      if step.Reserve? || step.Cancel? { PlacesStayConserved(c, step); } else { MoveStaysConserved(c, Apply(c, step), step.p); }
    }
  }

  lemma SameActive(c: Controller, d: Controller)
    requires c.stages == d.stages
    ensures ActiveRuns(c) == ActiveRuns(d)
  {
  }

  lemma StepKeepsInv(c: Controller, step: Step)
    requires Inv(c) && Enabled(c, step)
    ensures Inv(Apply(c, step))
  {
    WritersKeepInv(c, step);
    StaysConserved(c, step);
    StaysPlaced(c, step);
  }

  lemma {:induction false} RunsThen(c: Controller, steps: seq<Step>, d: Controller, step: Step)
    requires Runs(c, steps, d) && Enabled(d, step)
    ensures Runs(c, steps + [step], Apply(d, step))
    decreases |steps|
  {
    if steps == [] {
      assert Runs(Apply(d, step), [], Apply(d, step));
    } else {
      assert (steps + [step])[1..] == steps[1..] + [step];
      RunsThen(Apply(c, steps[0]), steps[1..], d, step);
    }
  }

  lemma {:induction false} RunsKeepInv(c: Controller, steps: seq<Step>, d: Controller)
    requires Inv(c) && Runs(c, steps, d)
    ensures Inv(d)
    decreases |steps|
  {
    if steps != [] {
      StepKeepsInv(c, steps[0]);
      RunsKeepInv(Apply(c, steps[0]), steps[1..], d);
    }
  }

  // ---------------------------------------------------------------------------------------------
  // Safety
  // ---------------------------------------------------------------------------------------------

  predicate Owns(c: Controller, p: nat, conversation: string) {
    PhaseOf(c, p) == Some(K.Holding) && c.writers.users[p].key == conversation
  }

  /** Over every run, a conversation has one owner, and active runs own distinct conversations. */
  lemma SingleWriter(maxConcurrent: int, queueSize: int, steps: seq<Step>, c: Controller, p: nat, q: nat, conversation: string)
    requires Runs(New(maxConcurrent, queueSize), steps, c)
    requires Owns(c, p, conversation) && Owns(c, q, conversation)
    ensures p == q
  {
    NewIsInv(maxConcurrent, queueSize);
    RunsKeepInv(New(maxConcurrent, queueSize), steps, c);
    K.SingleHolder(c.writers, WRITER, p, q);
  }

  lemma ActiveOwns(c: Controller, p: nat)
    requires Inv(c) && At(c, p, Active)
    ensures p in c.writers.users && Owns(c, p, c.writers.users[p].key)
  {
    hide K.Inv;
  }

  lemma ApplyKeepsBounds(c: Controller, step: Step)
    requires Enabled(c, step)
    ensures Apply(c, step).maxActive == c.maxActive && Apply(c, step).maxPending == c.maxPending
    ensures c.closing ==> Apply(c, step).closing
  {
  }

  lemma {:induction false} RunsKeepBounds(c: Controller, steps: seq<Step>, d: Controller)
    requires Runs(c, steps, d)
    ensures d.maxActive == c.maxActive && d.maxPending == c.maxPending && (c.closing ==> d.closing)
    decreases |steps|
  {
    if steps != [] {
      RunsKeepBounds(Apply(c, steps[0]), steps[1..], d);
    }
  }

  /** Places taken, reservations waited for and reservations alive are one number, and both bounds hold. */
  lemma CountsAgree(maxConcurrent: int, queueSize: int, steps: seq<Step>, c: Controller)
    requires Runs(New(maxConcurrent, queueSize), steps, c)
    ensures c.capacity == c.pending == |c.reserved| == |c.stages|
    ensures c.capacity <= (if maxConcurrent <= 0 then 1 else maxConcurrent) + (if queueSize < 0 then 0 else queueSize)
    ensures 0 <= c.active == |ActiveRuns(c)| <= (if maxConcurrent <= 0 then 1 else maxConcurrent)
  {
    NewIsInv(maxConcurrent, queueSize);
    RunsKeepInv(New(maxConcurrent, queueSize), steps, c);
    RunsKeepBounds(New(maxConcurrent, queueSize), steps, c);
    KeysSize(c.stages);
  }

  lemma KeysSize<V>(m: map<nat, V>)
    ensures |m| == |m.Keys|
  {
  }

  // ---------------------------------------------------------------------------------------------
  // Progress
  // ---------------------------------------------------------------------------------------------

  /** How many steps a reservation still has before it at most. */
  function Weight(stage: Stage, phase: Option<K.Phase>): int {
    match stage
    case Idle => 7
    case Acquiring => 6
    case AwaitingSlot => 5
    case Active => 4
    case Unwinding => if phase == Some(K.Holding) then 3 else if phase.Some? then 2 else 1
  }

  function Weights(c: Controller): map<nat, int> {
    map p | p in c.stages :: Weight(c.stages[p], PhaseOf(c, p))
  }

  ghost function Rank(c: Controller): int {
    Total(Weights(c))
  }

  lemma OthersKeepWeights(c: Controller, step: Step)
    requires Enabled(c, step) && step.Progresses()
    ensures Weights(Apply(c, step)) - {step.p} == Weights(c) - {step.p}
  {
    var d, p := Apply(c, step), step.p;
    forall q | q != p ensures q in c.stages <==> q in d.stages
      ensures q in c.stages ==> Weights(d)[q] == Weights(c)[q] {
      OthersUnmoved(c, step, q);
      hide Apply, Enabled, Weight;
    }
    hide Apply, Enabled, Weight;
    assert (Weights(d) - {p}).Keys == (Weights(c) - {p}).Keys;
  }

  lemma StepLowersRank(c: Controller, step: Step)
    requires Inv(c) && Enabled(c, step) && step.Progresses()
    ensures Rank(Apply(c, step)) < Rank(c)
  {
    var d, p := Apply(c, step), step.p;
    OwnWeightFalls(c, step);
    OthersKeepWeights(c, step);
    hide Apply, Inv, Enabled, Weight;
    TotalWithout(Weights(c), p);
    if p in d.stages { TotalWithout(Weights(d), p); } else { assert Weights(d) - {p} == Weights(d); }
  }

  lemma OwnWeightFalls(c: Controller, step: Step)
    requires Inv(c) && Enabled(c, step) && step.Progresses()
    ensures step.p in c.stages && Weight(c.stages[step.p], PhaseOf(c, step.p)) > 0
    ensures var d := Apply(c, step);
      step.p in d.stages ==> Weight(d.stages[step.p], PhaseOf(d, step.p)) < Weight(c.stages[step.p], PhaseOf(c, step.p))
  {
    hide K.Enter, K.Take, K.GiveUp, K.Drop, K.Leave, K.CanTake, K.Inv;
    OwnChange(c, step);
  }

  lemma {:induction false} RankIsBounded(m: map<nat, int>)
    requires forall p :: p in m ==> 0 <= m[p] <= 7
    ensures 0 <= Total(m) <= 7 * |m|
    decreases |m|
  {
    if m != map[] {
      var p :| p in m;
      var rest := m - {p};
      TotalWithout(m, p);
      assert m == rest[p := m[p]];
      assert |m| == |rest| + 1;
      RankIsBounded(rest);
    }
  }

  lemma RankWithin(c: Controller)
    ensures 0 <= Rank(c) <= 7 * |c.stages|
  {
    RankIsBounded(Weights(c));
    assert Weights(c).Keys == c.stages.Keys;
    KeysSize(c.stages);
    KeysSize(Weights(c));
  }

  ghost predicate AllProgress(steps: seq<Step>) {
    forall i :: 0 <= i < |steps| ==> steps[i].Progresses()
  }

  /** Nothing goes round in circles: without new reservations, at most seven steps are left per reservation. */
  lemma {:induction false} RunsAreBounded(c: Controller, steps: seq<Step>, d: Controller)
    requires Inv(c) && Runs(c, steps, d) && AllProgress(steps)
    ensures |steps| + Rank(d) <= Rank(c) <= 7 * c.pending
    decreases |steps|
  {
    RankWithin(c);
    KeysSize(c.stages);
    if steps != [] {
      assert steps[0].Progresses();
      StepLowersRank(c, steps[0]);
      StepKeepsInv(c, steps[0]);
      RunsAreBounded(Apply(c, steps[0]), steps[1..], d);
    }
  }

  predicate Waits(c: Controller, p: nat) { At(c, p, Acquiring) || At(c, p, AwaitingSlot) }

  /** While one waits, a run under way can take a step that is neither a timeout nor a new call. */
  lemma NoDeadlock(c: Controller, p: nat)
    requires Inv(c) && Waits(c, p)
    ensures exists step: Step ::
      Enabled(c, step) && step.Progresses() && !step.TimesOut() && c.stages[step.p] != Idle
  {
    K.EntryIsKnown(c.writers, WRITER, p);
    if At(c, p, AwaitingSlot) {
      SlotMoves(c, p);
    } else {
      var key := c.writers.users[p].key;
      if K.HoldersOf(c.writers, key) == {} {
        K.FreeSlot(c.writers, WRITER, p);
        assert Enabled(c, TakeWriter(p));
      } else {
        var q :| q in K.HoldersOf(c.writers, key);
        K.EntryIsKnown(c.writers, WRITER, q);
        hide K.Inv;
        assert PhaseOf(c, q) == Some(K.Holding);
        if At(c, q, AwaitingSlot) { SlotMoves(c, q); }
        else if At(c, q, Active) { assert Enabled(c, Finish(q)); }
        else { assert Enabled(c, DropWriter(q)); }
      }
    }
  }

  lemma SlotMoves(c: Controller, p: nat)
    requires Inv(c) && At(c, p, AwaitingSlot)
    ensures exists step: Step ::
      Enabled(c, step) && step.Progresses() && !step.TimesOut() && c.stages[step.p] != Idle
  {
    hide K.Inv;
    if c.active < c.maxActive {
      assert Enabled(c, TakeSlot(p));
    } else {
      var q :| q in ActiveRuns(c);
      assert Enabled(c, Finish(q));
    }
  }

  /** A reservation always has its own next step or is waiting. */
  lemma OwnStep(c: Controller, p: nat)
    requires Inv(c) && p in c.stages && !Waits(c, p)
    ensures exists step: Step :: Enabled(c, step) && step.Progresses() && !step.TimesOut()
  {
    hide K.Enter, K.Take, K.GiveUp, K.Drop, K.Leave, K.CanTake;
    if p in c.writers.users { K.EntryIsKnown(c.writers, WRITER, p); }
    hide K.Inv;
    if At(c, p, Active) { assert Enabled(c, Finish(p)); }
    else if At(c, p, Idle) || p !in c.writers.users { assert Enabled(c, Cancel(p)); }
    else if PhaseOf(c, p) == Some(K.Holding) { assert Enabled(c, DropWriter(p)); }
    else { assert Enabled(c, LeaveWriter(p)); }
  }

  // ---------------------------------------------------------------------------------------------
  // Shutting down
  // ---------------------------------------------------------------------------------------------

  predicate Drained(c: Controller) {
    c.pending == 0 && c.active == 0 && c.stages == map[] && c.writers.entries == map[] && c.writers.users == map[]
  }

  /** The wait group is at zero exactly when nothing is left: no run, no reservation, no writer entry. */
  lemma ZeroIsDrained(c: Controller)
    requires Inv(c)
    ensures c.pending == 0 <==> Drained(c)
  {
    if c.pending == 0 {
      assert c.stages.Keys == {};
      assert c.writers.users.Keys == {};
      K.EmptyExactly(c.writers, WRITER);
      assert ActiveRuns(c) == {};
    }
  }

  /** Once CloseAndWait has returned without an error, nothing is or ever will be active again. */
  lemma {:induction false} DrainedForGood(c: Controller, steps: seq<Step>, d: Controller)
    requires Inv(c) && c.closing && c.pending == 0 && Runs(c, steps, d)
    ensures d.closing && Drained(d)
    decreases |steps|
  {
    ZeroIsDrained(c);
    if steps != [] {
      StepKeepsInv(c, steps[0]);
      hide K.Inv;
      assert steps[0] == BeginClose;
      DrainedForGood(Apply(c, steps[0]), steps[1..], d);
    }
  }

  /** After closing, a run that cannot go on has drained, and no run goes on for more than seven steps a reservation. */
  lemma ClosingDrains(c: Controller, steps: seq<Step>, d: Controller)
    requires Inv(c) && c.closing && Runs(c, steps, d) && AllProgress(steps)
    requires forall step: Step :: step.Progresses() && !step.TimesOut() ==> !Enabled(d, step)
    ensures |steps| <= 7 * c.pending && Drained(d)
  {
    RunsAreBounded(c, steps, d);
    RankWithin(d);
    RunsKeepInv(c, steps, d);
    if p :| p in d.stages {
      if Waits(d, p) { NoDeadlock(d, p); } else { OwnStep(d, p); }
    } else {
      assert d.stages.Keys == {};
      ZeroIsDrained(d);
    }
  }

  /** Cancel keeps the counts exactly when it is not called during the reservation's own Start or run. */
  lemma CancelKeepsExactly(c: Controller, p: nat)
    requires Inv(c) && p in c.stages
    ensures Inv(CancelAnytime(c, p)) <==> Enabled(c, Cancel(p))
  {
    if Enabled(c, Cancel(p)) { StepKeepsInv(c, Cancel(p)); }
  }

  const EARLY := [Reserve(0), Acquire(0, "c"), TakeWriter(0), TakeSlot(0)]

  lemma EarlyCancelHidesARun() returns (c: Controller)
    ensures Runs(New(1, 0), EARLY, c) && Inv(c)
    ensures CancelAnytime(c, 0).pending == 0 && CancelAnytime(c, 0).active == 1 && Owns(CancelAnytime(c, 0), 0, "c")
  {
    var c0 := New(1, 0);
    var c1 := Apply(c0, Reserve(0));
    var c2 := Apply(c1, Acquire(0, "c"));
    var c3 := Apply(c2, TakeWriter(0));
    c := Apply(c3, TakeSlot(0));
    assert Runs(c, [], c);
    assert Runs(c3, [TakeSlot(0)], c);
    assert Runs(c2, [TakeWriter(0), TakeSlot(0)], c);
    assert Runs(c1, [Acquire(0, "c"), TakeWriter(0), TakeSlot(0)], c);
    NewIsInv(1, 0);
    RunsKeepInv(c0, EARLY, c);
  }
}
