/**
  What the provider's checkpoints say: of the step that was recorded, of the log they were reconciled with and
  of each other over time, told without the programs that write them.
 */
module CheckpointMeaning {
  import opened Results
  import opened Checkpoint
  import opened CheckpointProvider
  import opened CheckpointRecovery
  import Text

  // ---------------------------------------------------------------------------------------------
  // Checkpoints only move forward
  // ---------------------------------------------------------------------------------------------

  /** How a stored checkpoint may have changed: what it was made for stays, and its progress is never undone. */
  ghost predicate Forward(now: StageCheckpoint, later: StageCheckpoint) {
    && later.provider == now.provider && later.inputHash == now.inputHash
    && later.snapshotHash == now.snapshotHash && later.toolsHash == now.toolsHash
    && later.cursor >= now.cursor
    && (now.status.Committed? || now.status.Compensated? || now.status.OtherStatus? ==> later.status == now.status)
    && (now.status.NeedsReconciliation? ==> later.status.NeedsReconciliation? || later.status.Compensated?)
    && (now.status.Executing? ==> !later.status.Prepared? && !later.status.OtherStatus?)
    && (now.status.Prepared? ==> !later.status.OtherStatus?)
  }

  /** A save is taken exactly if it is complete and leads the stored checkpoint one step further, or none. */
  lemma SavedExactly(d: Disk, c: StageCheckpoint)
    ensures Perform(d, Save(c)).Some? <==>
      && Text.TrimSpace(c.provider) != "" && Text.TrimSpace(c.stage) != "" && c.status != OtherStatus("")
      && c.inputHash != NoDigest && c.snapshotHash != NoDigest && c.toolsHash != NoDigest
      && (c.stage in d.checkpoints ==> NextTo(d.checkpoints[c.stage], c))
    ensures Perform(d, Save(c)).Some? ==> Perform(d, Save(c)).value == Disk(d.events, d.checkpoints[c.stage := c])
  {
  }

  ghost predicate NextTo(now: StageCheckpoint, next: StageCheckpoint) {
    && next.provider == now.provider && next.inputHash == now.inputHash
    && next.snapshotHash == now.snapshotHash && next.toolsHash == now.toolsHash && now.cursor <= next.cursor
    && (|| next.status == now.status
        || (now.status.Prepared? && next.status.Executing?)
        || (now.status.Executing? && next.status.Committed?)
        || ((now.status.Prepared? || now.status.Executing?) && next.status.NeedsReconciliation?)
        || (now.status.NeedsReconciliation? && next.status.Compensated?))
  }

  /** Over any writes whatsoever. */
  lemma {:induction false} WritesMoveForward(d: Disk, ws: seq<Write>, after: Disk, s: string)
    requires PerformAll(d, ws) == Some(after) && s in d.checkpoints
    ensures s in after.checkpoints && Forward(d.checkpoints[s], after.checkpoints[s])
  {
    if ws != [] {
      var before := PerformAll(d, ws[..|ws| - 1]).value;
      WritesMoveForward(d, ws[..|ws| - 1], before, s);
      match ws[|ws| - 1]
      case Append(_) =>
      case Save(c) =>
        SavedExactly(before, c);
    }
  }

  // ---------------------------------------------------------------------------------------------
  // What a restore leaves of a stage
  // ---------------------------------------------------------------------------------------------

  /** The checkpoint of an accepted stage whose log shows, or does not show, how it ended. */
  lemma RestoredExactly(a: StageRestore, snapshot: Snapshot, events: seq<RunEvent>, effects: seq<ToolEffect>)
    requires PlanItem(a.checkpoint, snapshot, events, effects) == Ok(a)
    ensures var item := a.checkpoint;
      && (item.status.Committed? || item.status.Compensated? ==> Outcome(a) == item)
      && (item.status.NeedsReconciliation? ==> Outcome(a) == item.(status := Compensated))
      && (item.status.Prepared? || item.status.Executing? ==>
            && ((forall i :: !FirstEnd(events, item.stage, item.cursor, i)) ==>
                  Outcome(a) == item.(status := Compensated, error := "interrupted stage abandoned during resume"))
            && (forall i :: FirstEnd(events, item.stage, item.cursor, i) ==> Outcome(a) == EndedBy(item, events[i])))
  {
    var item := a.checkpoint;
    TerminalAfterExactly(events, item.stage, item.cursor);
    OutcomeIs(a);
    assert forall i, j :: FirstEnd(events, item.stage, item.cursor, i) && FirstEnd(events, item.stage, item.cursor, j) ==> i == j;
  }

  /** A stage ended by a logged event: committed with its output, or compensated with its error. */
  ghost function EndedBy(item: StageCheckpoint, e: RunEvent): StageCheckpoint {
    if e.kind.StageCompleted?
    then StageCheckpoint(item.provider, item.stage, Committed, item.inputHash, DigestOf(e.output), item.snapshotHash, item.toolsHash, e.sequence, "")
    else StageCheckpoint(item.provider, item.stage, Compensated, item.inputHash, item.outputHash, item.snapshotHash, item.toolsHash, e.sequence, e.error)
  }

  /** The report of a restore that succeeds is what the store then says of every stage, each stage named once. */
  lemma ReportIsTrue(d: Disk, plan: seq<StageRestore>, effects: seq<ToolEffect>, snapshot: Snapshot, report: RestoreReport, after: Disk)
    requires Sound(d) && IsPlan(plan, d, effects, snapshot) && PerformAll(d, RestoreProgram(plan)) == Some(after)
    requires Tells(report, plan)
    ensures |report.committed| + |report.compensated| == |after.checkpoints|
    ensures forall s :: s in report.committed <==> s in after.checkpoints && after.checkpoints[s].status.Committed?
    ensures forall s :: s in report.compensated <==> s in after.checkpoints && after.checkpoints[s].status.Compensated?
  {
    hide PlanItem, RestoreProgram, PerformAll, Sound, SameStages, Outcome;
    WholeRestore(d, plan, effects, snapshot);
    PlanSize(plan, d, effects, snapshot);
    forall i | 0 <= i < |plan|
      ensures after.checkpoints[plan[i].checkpoint.stage].status.Committed? <==> EndsCommitted(plan[i])
      ensures plan[i].checkpoint.stage in d.checkpoints
    {
      PlannedIsApplicable(plan[i], snapshot, d.events, effects);
      EndsAsPlanned(plan[i]);
    }
    assert after.checkpoints.Keys == d.checkpoints.Keys;
    forall s | s in d.checkpoints
      ensures s in report.committed <==> after.checkpoints[s].status.Committed?
      ensures s in report.compensated <==> after.checkpoints[s].status.Compensated?
    {
      var i :| 0 <= i < |plan| && plan[i].checkpoint.stage == s;
    }
  }

  lemma PlanSize(plan: seq<StageRestore>, d: Disk, effects: seq<ToolEffect>, snapshot: Snapshot)
    requires IsPlan(plan, d, effects, snapshot)
    ensures |plan| == |d.checkpoints|
  {
    hide PlanItem;
    var stages := StagesOf(plan);
    assert stages == d.checkpoints.Keys;
  }

  lemma {:induction false} StagesOf(plan: seq<StageRestore>) returns (stages: set<string>)
    requires forall i, j :: 0 <= i < j < |plan| ==> plan[i].checkpoint.stage != plan[j].checkpoint.stage
    ensures |stages| == |plan| && forall s :: s in stages <==> exists i :: 0 <= i < |plan| && plan[i].checkpoint.stage == s
  {
    stages := {};
    if plan != [] {
      var n := |plan| - 1;
      var rest := StagesOf(plan[..n]);
      stages := rest + {plan[n].checkpoint.stage};
      assert forall s :: s in rest <==> exists i :: 0 <= i < n && plan[..n][i].checkpoint.stage == s;
    }
  }

  /** The event reports the stage's checkpoint as it stands, and as settled only with the stage's last write. */
  ghost predicate Reports(e: RunEvent, now: StageCheckpoint, last: bool) {
    && e.stage == now.stage && e.about == Some(now)
    && (e.kind.CheckpointRestored? || e.kind.CompensationStarted? || e.kind.CompensationCompleted?)
    && (e.kind.CheckpointRestored? <==> now.status.Committed?)
    && (e.kind.CompensationCompleted? <==> now.status.Compensated?)
    && (e.kind.CheckpointRestored? || e.kind.CompensationCompleted? ==> last)
  }

  /** Every audit event of a restore describes the checkpoint as it is stored at that moment. */
  lemma AuditIsTrue(d: Disk, a: StageRestore, m: nat, now: Disk)
    requires Sound(d) && Grounded(a, d.events)
    requires a.checkpoint.stage in d.checkpoints && d.checkpoints[a.checkpoint.stage] == a.checkpoint
    requires m < |StageProgram(a)| && StageProgram(a)[m].Append? && PerformAll(d, StageProgram(a)[..m]) == Some(now)
    ensures a.checkpoint.stage in now.checkpoints
    ensures Reports(StageProgram(a)[m].event, now.checkpoints[a.checkpoint.stage], m == |StageProgram(a)| - 1)
  {
    hide PerformAll, Perform, Sound, StageProgram, AfterSaves, StageSaves, Applicable, Reports;
    StagePrefix(d, a, m);
    AuditWrite(a, m);
  }

  lemma AuditWrite(a: StageRestore, m: nat)
    requires Applicable(a) && m < |StageProgram(a)| && StageProgram(a)[m].Append?
    ensures Reports(StageProgram(a)[m].event, AfterSaves(a, SavesDone(a, m)), m == |StageProgram(a)| - 1)
  {
  }

  /** The write announces that the stage is to be compensated. */
  predicate Announces(w: Write, stage: string) {
    w.Append? && w.event.kind.CompensationStarted? && w.event.stage == stage
  }

  /** A restore says of every stage how it ended, unless it had been compensated before, and announces every compensation. */
  lemma EveryEndIsReported(a: StageRestore, m: nat)
    requires Applicable(a)
    ensures StageProgram(a) == [] <==> a.checkpoint.status.Compensated?
    ensures StageProgram(a) != [] ==> StageProgram(a)[|StageProgram(a)| - 1].Append?
    ensures m < |StageProgram(a)| && StageProgram(a)[m].Save? && StageProgram(a)[m].checkpoint.status.Compensated? ==>
      exists j :: 0 <= j < m && Announces(StageProgram(a)[j], a.checkpoint.stage)
  {
    var j := ReconcileCount(a);
    if m < |StageProgram(a)| && StageProgram(a)[m].Save? && StageProgram(a)[m].checkpoint.status.Compensated? {
      assert j < m && Announces(StageProgram(a)[j], a.checkpoint.stage);
    }
  }

  // ---------------------------------------------------------------------------------------------
  // A recording cut off and restored, against the same recording carried out
  // ---------------------------------------------------------------------------------------------

  /** Of a recording of n writes, the first k were performed on one disk and all on another. */
  ghost predicate CutAndWhole(d: Disk, step: Step, kind: EventKind, snapshot: Snapshot, k: nat, cut: Disk, whole: Disk) {
    && WellFormed(d) && Untouched(d, step.id) && RecordRefusal(d, Some(Run(Some(snapshot))), step, kind).None?
    && k <= |RecordProgram(d, step, kind, snapshot)|
    && PerformAll(d, RecordProgram(d, step, kind, snapshot)[..k]) == Some(cut)
    && PerformAll(d, RecordProgram(d, step, kind, snapshot)) == Some(whole)
  }

  lemma ThreeLast(d: Disk, step: Step, kind: EventKind, snapshot: Snapshot)
    requires kind.IsTransition()
    ensures |ClosingProgram(d, step, kind, snapshot)| == 3
    ensures ClosingProgram(d, step, kind, snapshot)[0] == Append(StageEvent(step, kind))
  {
  }

  /** Nothing is logged of a stage before it has a checkpoint: at every cut, the first event finds one saved. */
  lemma CheckpointBeforeLog(d: Disk, step: Step, kind: EventKind, snapshot: Snapshot, k: nat, cut: Disk)
    requires WellFormed(d) && Untouched(d, step.id) && RecordRefusal(d, Some(Run(Some(snapshot))), step, kind).None?
    requires k <= |RecordProgram(d, step, kind, snapshot)|
    requires PerformAll(d, RecordProgram(d, step, kind, snapshot)[..k]) == Some(cut)
    ensures |cut.events| > |d.events| ==> step.id in cut.checkpoints
  {
    hide OpeningProgram, ClosingProgram, PerformAll, Ordered;
    var opening := OpeningProgram(d, step, kind, snapshot);
    assert opening[..|opening|] == opening;
    var middle := SplitRecording(d, step, kind, snapshot, k, cut);
    if k <= |opening| {
      OpeningCut(d, step, kind, snapshot, k, cut);
    } else {
      OpeningCut(d, step, kind, snapshot, |opening|, middle);
      WritesMoveForward(middle, ClosingProgram(d, step, kind, snapshot)[..k - |opening|], cut, step.id);
    }
  }

  /** A cut right behind the stage's end: the log has it, the checkpoint as it was opened does not. */
  lemma CutBehindTheEnd(d: Disk, step: Step, kind: EventKind, snapshot: Snapshot, k: nat, cut: Disk, whole: Disk) returns (i: nat)
    requires kind.IsTerminal() && CutAndWhole(d, step, kind, snapshot, k, cut, whole)
    requires k == |RecordProgram(d, step, kind, snapshot)| - 2
    ensures step.id in cut.checkpoints && step.id in whole.checkpoints && i < |cut.events|
    ensures var c, w := cut.checkpoints[step.id], whole.checkpoints[step.id];
      && c.stage == step.id && (c.status.Prepared? || c.status.Executing?)
      && FirstEnd(cut.events, step.id, c.cursor, i)
      && cut.events[i].kind == kind && cut.events[i].output == step.output && cut.events[i].error == step.error
      && Describes(w, step, kind, snapshot, cut.events[i].sequence) && Forward(c, w)
  {
    hide OpeningProgram, ClosingProgram, PerformAll, Perform, Forward, Describes, WellFormed, Untouched, RecordRefusal, Ordered, TransitionSequence;
    var opening, closing := OpeningProgram(d, step, kind, snapshot), ClosingProgram(d, step, kind, snapshot);
    var n := |opening| + 3;
    ThreeLast(d, step, kind, snapshot);
    assert RecordProgram(d, step, kind, snapshot)[..n] == RecordProgram(d, step, kind, snapshot);
    assert opening[..|opening|] == opening && closing[..3] == closing;
    var middle := SplitRecording(d, step, kind, snapshot, k, cut);
    var same := SplitRecording(d, step, kind, snapshot, n, whole);
    OpeningCut(d, step, kind, snapshot, |opening|, middle);
    var d1, d2 := ThreeWrites(middle, closing, 3, whole);
    var e1, e2 := ThreeWrites(middle, closing, 1, cut);
    RecordedInFull(d, step, kind, snapshot, whole);
    i := EndsOpen(middle, step, kind, cut);
    assert cut.checkpoints == middle.checkpoints by { AppendedOnly(middle, StageEvent(step, kind), cut); }
    WritesMoveForward(middle, closing, whole, step.id);
  }

  lemma AppendedOnly(d: Disk, e: RunEvent, after: Disk)
    requires Perform(d, Append(e)) == Some(after)
    ensures after.checkpoints == d.checkpoints && after.events == d.events + [e.(sequence := LastSequence(d.events) + 1)]
  {
  }

  lemma EndsOpen(middle: Disk, step: Step, kind: EventKind, cut: Disk) returns (i: nat)
    requires OpenAt(middle, step.id) && kind.IsTerminal() && Perform(middle, Append(StageEvent(step, kind))) == Some(cut)
    ensures i == |middle.events| < |cut.events| && step.id in middle.checkpoints
    ensures FirstEnd(cut.events, step.id, middle.checkpoints[step.id].cursor, i)
    ensures cut.events[i] == StageEvent(step, kind).(sequence := LastSequence(middle.events) + 1)
    ensures middle.checkpoints[step.id].stage == step.id
    ensures middle.checkpoints[step.id].status.Prepared? || middle.checkpoints[step.id].status.Executing?
  {
    hide Ordered;
    i := |middle.events|;
    TerminalAfterExactly(middle.events, step.id, middle.checkpoints[step.id].cursor);
    assert forall j :: 0 <= j < i ==> cut.events[j] == middle.events[j];
  }

  /** The last write of a recording only logs; the checkpoint has been saved before. */
  lemma SavedBeforeTheLast(d: Disk, step: Step, kind: EventKind, snapshot: Snapshot, k: nat, cut: Disk, whole: Disk)
    requires CutAndWhole(d, step, kind, snapshot, k, cut, whole) && k >= |RecordProgram(d, step, kind, snapshot)| - 1
    ensures cut.checkpoints == whole.checkpoints
  {
    hide OpeningProgram, PerformAll;
    var program := RecordProgram(d, step, kind, snapshot);
    assert program[..|program|] == program;
    if k < |program| {
      OneMoreWrite(d, program, k);
    }
  }

  /**
    The recorder and the restore agree on completions: cut a recording off anywhere once it has logged the
    stage's completion, restore, and the stage's checkpoint is, in every field, the one the recording carried
    out would have left.
   */
  lemma CompletionEndsTheSame(d: Disk, step: Step, snapshot: Snapshot, k: nat, cut: Disk, whole: Disk,
                              current: Snapshot, effects: seq<ToolEffect>, a: StageRestore)
    requires CutAndWhole(d, step, StageCompleted, snapshot, k, cut, whole)
    requires k >= |RecordProgram(d, step, StageCompleted, snapshot)| - 2
    requires step.id in cut.checkpoints && PlanItem(cut.checkpoints[step.id], current, cut.events, effects) == Ok(a)
    ensures step.id in whole.checkpoints && Outcome(a) == whole.checkpoints[step.id]
  {
    PlanKeepsItem(cut.checkpoints[step.id], current, cut.events, effects, a);
    hide PlanItem, CutAndWhole, Outcome, RecordProgram;
    RestoredExactly(a, current, cut.events, effects);
    if k == |RecordProgram(d, step, StageCompleted, snapshot)| - 2 {
      var i := CutBehindTheEnd(d, step, StageCompleted, snapshot, k, cut, whole);
    } else {
      SavedBeforeTheLast(d, step, StageCompleted, snapshot, k, cut, whole);
      WholeDescribes(d, step, StageCompleted, snapshot, k, cut, whole);
    }
  }

  lemma WholeDescribes(d: Disk, step: Step, kind: EventKind, snapshot: Snapshot, k: nat, cut: Disk, whole: Disk)
    requires CutAndWhole(d, step, kind, snapshot, k, cut, whole)
    ensures step.id in whole.checkpoints && Describes(whole.checkpoints[step.id], step, kind, snapshot, whole.checkpoints[step.id].cursor)
  {
    hide RecordProgram, PerformAll;
    RecordedInFull(d, step, kind, snapshot, whole);
  }

  /**
    On failures and cancellations they do not agree: the recorder trims the error that it saves, the restore
    takes it from the log as it stands. After a restore of either disk the stage is compensated, and the two
    notes are the same exactly if there was nothing to trim.
   */
  lemma FailureKeepsItsErrorExactly(d: Disk, step: Step, kind: EventKind, snapshot: Snapshot, k: nat, cut: Disk, whole: Disk,
                                    current: Snapshot, effects: seq<ToolEffect>, a: StageRestore, b: StageRestore)
    requires CutAndWhole(d, step, kind, snapshot, k, cut, whole) && (kind.StageFailed? || kind.StageCanceled?)
    requires k == |RecordProgram(d, step, kind, snapshot)| - 2
    requires step.id in cut.checkpoints && PlanItem(cut.checkpoints[step.id], current, cut.events, effects) == Ok(a)
    requires step.id in whole.checkpoints && PlanItem(whole.checkpoints[step.id], current, whole.events, effects) == Ok(b)
    ensures Outcome(a).status.Compensated? && Outcome(b).status.Compensated? && Outcome(a).cursor == Outcome(b).cursor
    ensures Outcome(a).error == Outcome(b).error <==> Text.TrimSpace(step.error) == step.error
  {
    PlanKeepsItem(cut.checkpoints[step.id], current, cut.events, effects, a);
    PlanKeepsItem(whole.checkpoints[step.id], current, whole.events, effects, b);
    hide PlanItem, CutAndWhole, Outcome, RecordProgram;
    RestoredExactly(a, current, cut.events, effects);
    RestoredExactly(b, current, whole.events, effects);
    var i := CutBehindTheEnd(d, step, kind, snapshot, k, cut, whole);
  }
}
