/**
  The internal-state checkpoint provider (internal/checkpoint) over the store contract it runs on
  (internal/store/checkpoint_records.go, postgres_checkpoints.go).

  Each operation is modelled twice. The methods of `Provider` do what the source does, one store
  write at a time, and may be interrupted at any write. The write programs (`RecordProgram`,
  `StageProgram`) say which writes those are, so that every interruption is a prefix of a program.
 */
module Checkpoint {
  import opened Results
  import Text

  const INTERNAL_STATE_PROVIDER := "internal_state_v1"

  /** A SHA-256 digest: injective, and never equal to the empty string. */
  datatype Digest = NoDigest | DigestOf(text: string)

  datatype StageStatus =
    | Prepared
    | Executing
    | Committed
    | NeedsReconciliation
    | Compensated
    | OtherStatus(name: string)

  datatype EventKind =
    | StageStarted
    | StageCompleted
    | StageFailed
    | StageCanceled
    | CheckpointCaptured
    | CheckpointRestored
    | CompensationStarted
    | CompensationCompleted
    | CompensationFailed
    | OtherKind(name: string)
  {
    predicate IsTerminal() { StageCompleted? || StageFailed? || StageCanceled? }

    predicate IsTransition() { StageStarted? || IsTerminal() }
  }

  /** `about` is the checkpoint an audit event describes in its payload. */
  datatype RunEvent = RunEvent(kind: EventKind, stage: string, sequence: int, output: string, error: string,
                               about: Option<StageCheckpoint>)

  datatype StageCheckpoint = StageCheckpoint(
    provider: string, stage: string, status: StageStatus, inputHash: Digest, outputHash: Digest,
    snapshotHash: Digest, toolsHash: Digest, cursor: int, error: string)

  datatype EffectStatus =
    | EffectPrepared
    | EffectExecuting
    | EffectCommitted
    | EffectFailed
    | EffectCompensated
    | EffectNeedsReconciliation
    | EffectReconciling

  datatype ToolEffect = ToolEffect(stage: string, status: EffectStatus)

  datatype Snapshot = Snapshot(body: string, tools: string)

  datatype Run = Run(snapshot: Option<Snapshot>)

  datatype Step = Step(id: string, input: string, output: string, error: string)

  datatype StoreError = Unavailable | ImmutableStateChanged | CursorMovedBack | InvalidTransition | Incomplete

  function Message(e: StoreError): string {
    match e
    case Unavailable => "store unavailable"
    case ImmutableStateChanged => "checkpoint immutable state changed"
    case CursorMovedBack => "checkpoint event cursor cannot move backwards"
    case InvalidTransition => "invalid checkpoint status transition"
    case Incomplete => "checkpoint requires provider, stage, status and state hashes"
  }

  datatype Failure =
    | UnsupportedEvent
    | RunNotFound
    | SnapshotRequired
    | AlreadyHasCheckpoint
    | StoreFailed(cause: StoreError)
    | Stale(stage: string)
    | ReconciliationNeeded(stage: string)
    | UnknownStatus(stage: string)

  // ---------------------------------------------------------------------------------------------
  // The durable state
  // ---------------------------------------------------------------------------------------------

  /** What survives an interruption: one run's event log and its checkpoints by stage. */
  datatype Disk = Disk(events: seq<RunEvent>, checkpoints: map<string, StageCheckpoint>)

  function LastSequence(events: seq<RunEvent>): int {
    if events == [] then 0 else events[|events| - 1].sequence
  }

  ghost predicate Ordered(events: seq<RunEvent>) {
    && (forall i :: 0 <= i < |events| ==> events[i].sequence >= 1)
    && (forall i, j :: 0 <= i < j < |events| ==> events[i].sequence < events[j].sequence)
  }

  /** The log is numbered in order and no checkpoint points beyond its end. */
  ghost predicate WellFormed(d: Disk) {
    && Ordered(d.events)
    && (forall s :: s in d.checkpoints ==> d.checkpoints[s].stage == s)
    && (forall s :: s in d.checkpoints ==> 0 <= d.checkpoints[s].cursor <= LastSequence(d.events))
  }

  predicate TransitionAllowed(current: StageStatus, next: StageStatus) {
    current == next ||
    match current
    case Prepared => next.Executing? || next.NeedsReconciliation?
    case Executing => next.Committed? || next.NeedsReconciliation?
    case NeedsReconciliation => next.Compensated?
    case _ => false
  }

  /** ValidateStageCheckpoint followed by ValidateCheckpointUpdate. */
  function SaveError(checkpoints: map<string, StageCheckpoint>, next: StageCheckpoint): Option<StoreError> {
    if Text.TrimSpace(next.provider) == "" || Text.TrimSpace(next.stage) == "" then Some(Incomplete)
    else if next.status == OtherStatus("") || next.inputHash.NoDigest? || next.snapshotHash.NoDigest? || next.toolsHash.NoDigest?
    then Some(Incomplete)
    else if next.stage !in checkpoints then None
    else
      var existing := checkpoints[next.stage];
      if existing.provider != next.provider || existing.inputHash != next.inputHash
         || existing.snapshotHash != next.snapshotHash || existing.toolsHash != next.toolsHash then Some(ImmutableStateChanged)
      else if next.cursor < existing.cursor then Some(CursorMovedBack)
      else if !TransitionAllowed(existing.status, next.status) then Some(InvalidTransition)
      else None
  }

  datatype Write = Append(event: RunEvent) | Save(checkpoint: StageCheckpoint)

  /** One durable write. Appending numbers the event; saving upserts by stage unless it is refused. */
  function Perform(d: Disk, w: Write): Option<Disk> {
    match w
    case Append(e) => Some(d.(events := d.events + [e.(sequence := LastSequence(d.events) + 1)]))
    case Save(c) =>
      if SaveError(d.checkpoints, c).None? then Some(d.(checkpoints := d.checkpoints[c.stage := c])) else None
  }

  /** The disk after a list of writes; None as soon as one of them would be refused. */
  function PerformAll(d: Disk, ws: seq<Write>): Option<Disk> {
    if ws == [] then Some(d)
    else
      match PerformAll(d, ws[..|ws| - 1])
      case None => None
      case Some(before) => Perform(before, ws[|ws| - 1])
  }

  // ---------------------------------------------------------------------------------------------
  // What the log and the effect journal say about a stage
  // ---------------------------------------------------------------------------------------------

  predicate TerminalOf(e: RunEvent, stage: string, cursor: int) {
    e.sequence > cursor && e.stage == stage && e.kind.IsTerminal()
  }

  /** The first terminal event of the stage after the cursor. */
  function TerminalAfter(events: seq<RunEvent>, stage: string, cursor: int): Option<RunEvent> {
    if events == [] then None
    else if TerminalOf(events[0], stage, cursor) then Some(events[0])
    else TerminalAfter(events[1..], stage, cursor)
  }

  /** The stage's last start, if no terminal event follows it. */
  function OpenStart(events: seq<RunEvent>, stage: string): Option<RunEvent> {
    if events == [] then None
    else
      var last := events[|events| - 1];
      if last.stage == stage && last.kind.StageStarted? then Some(last)
      else if last.stage == stage && last.kind.IsTerminal() then None
      else OpenStart(events[..|events| - 1], stage)
  }

  predicate Settled(effect: ToolEffect) { effect.status.EffectCommitted? || effect.status.EffectCompensated? }

  predicate HasCommittedEffect(effects: seq<ToolEffect>, stage: string) {
    exists e :: e in effects && e.stage == stage && e.status.EffectCommitted?
  }

  predicate HasUncertainEffect(effects: seq<ToolEffect>, stage: string) {
    exists e :: e in effects && e.stage == stage && !Settled(e)
  }

  // ---------------------------------------------------------------------------------------------
  // Recording a stage transition, as a write program
  // ---------------------------------------------------------------------------------------------

  function StageEvent(step: Step, kind: EventKind): RunEvent {
    RunEvent(kind, step.id, 0, step.output, step.error, None)
  }

  function AuditEvent(kind: EventKind, c: StageCheckpoint): RunEvent {
    RunEvent(kind, c.stage, 0, "", "", Some(c))
  }

  function BaseCheckpoint(d: Disk, step: Step, snapshot: Snapshot): StageCheckpoint {
    StageCheckpoint(INTERNAL_STATE_PROVIDER, step.id, Prepared, DigestOf(step.input), NoDigest,
                    DigestOf(snapshot.body), DigestOf(snapshot.tools), LastSequence(d.events), "")
  }

  /** The checkpoint a transition ends in, once its stage event has the given sequence. */
  function SettledCheckpoint(base: StageCheckpoint, step: Step, kind: EventKind, sequence: int): StageCheckpoint
    requires kind.IsTransition()
  {
    match kind
    case StageStarted => base.(cursor := sequence, status := Executing)
    case StageCompleted => base.(cursor := sequence, status := Committed, outputHash := DigestOf(step.output))
    case _ => base.(cursor := sequence, status := NeedsReconciliation, error := Text.TrimSpace(step.error))
  }

  /** The writes before the transition's own event: none if a terminal meets an existing checkpoint. */
  function OpeningProgram(d: Disk, step: Step, kind: EventKind, snapshot: Snapshot): seq<Write>
    requires kind.IsTransition()
  {
    var base := BaseCheckpoint(d, step, snapshot);
    if kind.StageStarted? then [Save(base)]
    else if step.id in d.checkpoints then []
    else
      match OpenStart(d.events, step.id)
      case Some(open) =>
        [Save(base.(cursor := open.sequence)), Save(base.(cursor := open.sequence, status := Executing))]
      case None =>
        [Save(base), Append(StageEvent(step, StageStarted)), Save(base.(cursor := base.cursor + 1, status := Executing))]
  }

  /** The sequence the transition's own event will get. */
  function TransitionSequence(d: Disk, step: Step, kind: EventKind): int {
    if kind.StageStarted? || step.id in d.checkpoints || OpenStart(d.events, step.id).Some?
    then LastSequence(d.events) + 1
    else LastSequence(d.events) + 2
  }

  function Closing(base: StageCheckpoint, step: Step, kind: EventKind, sequence: int): seq<Write>
    requires kind.IsTransition()
  {
    var settled := SettledCheckpoint(base, step, kind, sequence);
    [Append(StageEvent(step, kind)), Save(settled), Append(AuditEvent(CheckpointCaptured, settled))]
  }

  function ClosingProgram(d: Disk, step: Step, kind: EventKind, snapshot: Snapshot): seq<Write>
    requires kind.IsTransition()
  {
    Closing(BaseCheckpoint(d, step, snapshot), step, kind, TransitionSequence(d, step, kind))
  }

  /** All the writes of one recording, in order. */
  function RecordProgram(d: Disk, step: Step, kind: EventKind, snapshot: Snapshot): seq<Write>
    requires kind.IsTransition()
  {
    OpeningProgram(d, step, kind, snapshot) + ClosingProgram(d, step, kind, snapshot)
  }

  /** The answer of a recording that writes nothing, if there is one. */
  function RecordRefusal(d: Disk, run: Option<Run>, step: Step, kind: EventKind): Option<Failure> {
    if !kind.IsTransition() then Some(UnsupportedEvent)
    else if run.None? then Some(RunNotFound)
    else if run.value.snapshot.None? then Some(SnapshotRequired)
    else if kind.StageStarted? && step.id in d.checkpoints then Some(AlreadyHasCheckpoint)
    else None
  }

  // ---------------------------------------------------------------------------------------------
  // Planning and applying a restore
  // ---------------------------------------------------------------------------------------------

  datatype StageRestore = StageRestore(checkpoint: StageCheckpoint, terminal: Option<RunEvent>)

  /** planStageRestore: what to do with one stage, or why it cannot be resumed. */
  function PlanStage(item: StageCheckpoint, events: seq<RunEvent>, effects: seq<ToolEffect>): Result<StageRestore, Failure> {
    var terminal :=
      if item.status.Prepared? || item.status.Executing? then TerminalAfter(events, item.stage, item.cursor) else None;
    var status :=
      if terminal.None? then item.status
      else if terminal.value.kind.StageCompleted? then Committed
      else NeedsReconciliation;
    if terminal.Some? && status.Committed? && HasUncertainEffect(effects, item.stage) then Err(ReconciliationNeeded(item.stage))
    else if !status.Committed? && HasCommittedEffect(effects, item.stage) then Err(ReconciliationNeeded(item.stage))
    else
      match status
      case Committed => Ok(StageRestore(item, terminal))
      case Compensated => Ok(StageRestore(item, terminal))
      case OtherStatus(_) => Err(UnknownStatus(item.stage))
      case _ =>
        if HasUncertainEffect(effects, item.stage) then Err(ReconciliationNeeded(item.stage)) else Ok(StageRestore(item, terminal))
  }

  predicate IsStale(item: StageCheckpoint, snapshot: Snapshot) {
    item.provider != INTERNAL_STATE_PROVIDER || item.snapshotHash != DigestOf(snapshot.body) || item.toolsHash != DigestOf(snapshot.tools)
  }

  function PlanItem(item: StageCheckpoint, snapshot: Snapshot, events: seq<RunEvent>, effects: seq<ToolEffect>): Result<StageRestore, Failure> {
    if IsStale(item, snapshot) then Err(Stale(item.stage)) else PlanStage(item, events, effects)
  }

  /** A restore is accepted when every checkpoint can be planned. */
  ghost predicate Accepted(d: Disk, effects: seq<ToolEffect>, snapshot: Snapshot) {
    forall s :: s in d.checkpoints ==> PlanItem(d.checkpoints[s], snapshot, d.events, effects).Ok?
  }

  /** A plan: every checkpoint once, in any order, each with its own decision. */
  ghost predicate IsPlan(plan: seq<StageRestore>, d: Disk, effects: seq<ToolEffect>, snapshot: Snapshot) {
    && (forall i :: 0 <= i < |plan| ==>
          && plan[i].checkpoint.stage in d.checkpoints
          && plan[i].checkpoint == d.checkpoints[plan[i].checkpoint.stage]
          && PlanItem(plan[i].checkpoint, snapshot, d.events, effects) == Ok(plan[i]))
    && (forall i, j :: 0 <= i < j < |plan| ==> plan[i].checkpoint.stage != plan[j].checkpoint.stage)
    && (forall s :: s in d.checkpoints ==> exists i :: 0 <= i < |plan| && plan[i].checkpoint.stage == s)
  }

  /** The saves that bring a checkpoint in line with a terminal event found in the log. */
  function ReconcileSaves(item: StageCheckpoint, terminal: RunEvent): seq<StageCheckpoint> {
    var next := item.(cursor := terminal.sequence);
    if terminal.kind.StageCompleted? then
      var committed := next.(status := Committed, outputHash := DigestOf(terminal.output), error := "");
      if item.status.Prepared? then [next.(status := Executing), committed] else [committed]
    else [next.(status := NeedsReconciliation, error := terminal.error)]
  }

  const ABANDONED := "interrupted stage abandoned during resume"

  function CompensationSaves(item: StageCheckpoint): seq<StageCheckpoint> {
    if item.status.NeedsReconciliation? then [item.(status := Compensated)]
    else
      var abandoned := item.(status := NeedsReconciliation, error := ABANDONED);
      [abandoned, abandoned.(status := Compensated)]
  }

  /** The checkpoint once its logged terminal, if any, has been applied. */
  function Reconciled(a: StageRestore): StageCheckpoint {
    if a.terminal.None? then a.checkpoint
    else
      var saves := ReconcileSaves(a.checkpoint, a.terminal.value);
      saves[|saves| - 1]
  }

  /** Every value the restore saves for one stage, in order. */
  function StageSaves(a: StageRestore): seq<StageCheckpoint> {
    var item := Reconciled(a);
    (if a.terminal.None? then [] else ReconcileSaves(a.checkpoint, a.terminal.value))
    + (if item.status.Committed? || item.status.Compensated? then [] else CompensationSaves(item))
  }

  /** The checkpoint after the first j of those saves. */
  function AfterSaves(a: StageRestore, j: nat): StageCheckpoint
    requires j <= |StageSaves(a)|
  {
    if j == 0 then a.checkpoint else StageSaves(a)[j - 1]
  }

  /** The checkpoint a completed restore leaves for the stage. */
  function Outcome(a: StageRestore): StageCheckpoint {
    AfterSaves(a, |StageSaves(a)|)
  }

  lemma OutcomeIs(a: StageRestore)
    ensures var item := Reconciled(a);
      Outcome(a) == if item.status.Committed? || item.status.Compensated? then item
                    else item.(status := Compensated, error := if item.status.NeedsReconciliation? then item.error else ABANDONED)
  {
  }

  function SavesAsWrites(saves: seq<StageCheckpoint>): seq<Write> {
    seq(|saves|, i requires 0 <= i < |saves| => Save(saves[i]))
  }

  function CompensationProgram(item: StageCheckpoint): seq<Write> {
    var saves := CompensationSaves(item);
    [Append(AuditEvent(CompensationStarted, item))] + SavesAsWrites(saves)
    + [Append(AuditEvent(CompensationCompleted, saves[|saves| - 1]))]
  }

  /** What follows once the checkpoint agrees with the log. */
  function SettlingProgram(a: StageRestore): seq<Write> {
    var item := Reconciled(a);
    if item.status.Committed? then [Append(AuditEvent(CheckpointRestored, item))]
    else if item.status.Compensated? then []
    else CompensationProgram(item)
  }

  /** One stage's part of a restore: its saves, and the audit events around them. */
  function StageProgram(a: StageRestore): seq<Write> {
    (if a.terminal.None? then [] else SavesAsWrites(ReconcileSaves(a.checkpoint, a.terminal.value))) + SettlingProgram(a)
  }

  /** What planning guarantees of an action, and applying it relies on. */
  predicate Applicable(a: StageRestore) {
    && (a.terminal.Some? ==> a.terminal.value.kind.IsTerminal() && (a.checkpoint.status.Prepared? || a.checkpoint.status.Executing?))
    && !Reconciled(a).status.OtherStatus?
  }

  function RestoreProgram(plan: seq<StageRestore>): seq<Write> {
    if plan == [] then [] else RestoreProgram(plan[..|plan| - 1]) + StageProgram(plan[|plan| - 1])
  }

  /** The stages a completed restore reports, in plan order. */
  function StagesEndingIn(plan: seq<StageRestore>, committed: bool): seq<string> {
    if plan == [] then []
    else
      var last := plan[|plan| - 1];
      StagesEndingIn(plan[..|plan| - 1], committed)
      + if Outcome(last).status.Committed? == committed then [last.checkpoint.stage] else []
  }
}
