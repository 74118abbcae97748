/**
  Whole histories of a run's checkpoints: recordings and restores cut anywhere, in any order, together with
  the other writers of the log. They keep the invariant under which every restore can be repeated.
 */
module CheckpointHistory {
  import opened Results
  import opened Checkpoint
  import opened CheckpointProvider
  import opened CheckpointRecovery

  /**
    A recording, cut after k writes. The callers record a completion only after the recording of the start
    has succeeded, or without one: never over a checkpoint still Prepared.
   */
  ghost predicate Recording(d: Disk, step: Step, kind: EventKind, snapshot: Snapshot, k: nat, after: Disk) {
    && RecordRefusal(d, Some(Run(Some(snapshot))), step, kind).None?
    && (kind.StageCompleted? && step.id in d.checkpoints ==> !d.checkpoints[step.id].status.Prepared?)
    && k <= |RecordProgram(d, step, kind, snapshot)|
    && PerformAll(d, RecordProgram(d, step, kind, snapshot)[..k]) == Some(after)
  }

  /** A restore, cut after k writes. */
  ghost predicate Restoring(d: Disk, plan: seq<StageRestore>, effects: seq<ToolEffect>, snapshot: Snapshot, k: nat, note: seq<Write>, after: Disk) {
    IsPlan(plan, d, effects, snapshot) && IsCut(d, plan, k, note, after)
  }

  /** Any other event: audit records, and the failures a cold start appends for stages left open. */
  ghost predicate OtherEvent(d: Disk, e: RunEvent, after: Disk) {
    !e.kind.StageCompleted? && Perform(d, Append(e)) == Some(after)
  }

  /** A claimed clarification reopens the exact stage it had interrupted, past the end of the log. */
  ghost predicate Reopening(d: Disk, stage: string, after: Disk) {
    && stage in d.checkpoints && (d.checkpoints[stage].status.Executing? || d.checkpoints[stage].status.NeedsReconciliation?)
    && after == d.(checkpoints := d.checkpoints[stage :=
         d.checkpoints[stage].(status := Executing, error := "", cursor := LastSequence(d.events))])
  }

  ghost predicate Next(d: Disk, after: Disk) {
    || (exists step, kind, snapshot, k :: Recording(d, step, kind, snapshot, k, after))
    || (exists plan, effects, snapshot, k, note :: Restoring(d, plan, effects, snapshot, k, note, after))
    || (exists e :: OtherEvent(d, e, after))
    || (exists stage :: Reopening(d, stage, after))
  }

  ghost predicate IsHistory(history: seq<Disk>) {
    && history != [] && history[0] == Disk([], map[])
    && forall i :: 0 <= i < |history| - 1 ==> Next(history[i], history[i + 1])
  }

  ghost predicate Inv(d: Disk) {
    Sound(d) && NoLateCompletion(d)
  }

  /** What makes a write keep the invariant. */
  ghost predicate Careful(d: Disk, w: Write) {
    match w
    case Append(e) => e.kind.StageCompleted? && e.stage in d.checkpoints ==> !d.checkpoints[e.stage].status.Prepared?
    case Save(c) =>
      && 0 <= c.cursor <= LastSequence(d.events)
      && (c.status.Prepared? ==> c.cursor == LastSequence(d.events) || TerminalAfter(d.events, c.stage, c.cursor).None?)
  }

  lemma CarefulKeepsInv(d: Disk, w: Write, after: Disk)
    requires Inv(d) && Careful(d, w) && Perform(d, w) == Some(after)
    ensures Inv(after)
  {
    match w
    case Append(e) =>
      AuditKeepsSound(d, e);
      var numbered := e.(sequence := LastSequence(d.events) + 1);
      forall s | s in after.checkpoints ensures !LateCompletion(after.checkpoints[s], after.events) {
        TerminalAfterAppend(d.events, numbered, s, d.checkpoints[s].cursor);
      }
    case Save(c) =>
      assert Complete(c);
      SaveKeepsSound(d, c);
      OrderedIsBounded(d.events);
      if c.cursor == LastSequence(d.events) { NoTerminalPastTheEnd(d.events, c.stage, c.cursor); }
  }

  lemma OpeningKeepsInv(d: Disk, step: Step, kind: EventKind, snapshot: Snapshot, m: nat, after: Disk)
    requires Inv(d) && RecordRefusal(d, Some(Run(Some(snapshot))), step, kind).None?
    requires m <= |OpeningProgram(d, step, kind, snapshot)|
    requires PerformAll(d, OpeningProgram(d, step, kind, snapshot)[..m]) == Some(after)
    ensures Inv(after)
    ensures m == |OpeningProgram(d, step, kind, snapshot)| ==>
      && LastSequence(after.events) + 1 == TransitionSequence(d, step, kind)
      && (kind.IsTerminal() && step.id !in d.checkpoints ==> step.id in after.checkpoints && after.checkpoints[step.id].status.Executing?)
      && (step.id in d.checkpoints ==> after == d)
  {
    hide SaveError, Inv, PerformAll, OpenStart, Perform;
    var ws := OpeningProgram(d, step, kind, snapshot);
    LogEnd(d);
    if step.id in d.checkpoints {
      assert ws[..m] == [];
      NoWrites(d);
    } else if kind.StageStarted? || OpenStart(d.events, step.id).Some? {
      if OpenStart(d.events, step.id).Some? { OpenStartIsOpen(d.events, step.id); }
      TwoCarefulWrites(d, ws, m, after);
    } else {
      FreshKeepsInv(d, step, kind, snapshot, m, after);
    }
  }

  lemma NoWrites(d: Disk)
    ensures PerformAll(d, []) == Some(d)
  {
  }

  lemma LogEnd(d: Disk)
    requires Inv(d)
    ensures Ordered(d.events) && LastSequence(d.events) >= 0
  {
  }

  /** At most two saves, each careful about the log it was computed from. */
  lemma TwoCarefulWrites(d: Disk, ws: seq<Write>, m: nat, after: Disk)
    requires Inv(d) && m <= |ws| <= 2 && PerformAll(d, ws[..m]) == Some(after)
    requires forall i :: 0 <= i < |ws| ==> ws[i].Save? && Careful(d, ws[i])
    ensures Inv(after) && after.events == d.events
    ensures m > 0 ==> ws[m - 1].checkpoint.stage in after.checkpoints && after.checkpoints[ws[m - 1].checkpoint.stage] == ws[m - 1].checkpoint
  {
    hide SaveError, Inv;
    if m > 0 {
      OneMoreWrite(d, ws, m - 1);
      var before := PerformAll(d, ws[..m - 1]).value;
      TwoCarefulWrites(d, ws, m - 1, before);
      CarefulKeepsInv(before, ws[m - 1], after);
    }
  }

  lemma FreshKeepsInv(d: Disk, step: Step, kind: EventKind, snapshot: Snapshot, m: nat, after: Disk)
    requires Inv(d) && kind.IsTerminal() && step.id !in d.checkpoints && OpenStart(d.events, step.id).None?
    requires m <= 3 && PerformAll(d, OpeningProgram(d, step, kind, snapshot)[..m]) == Some(after)
    ensures Inv(after)
    ensures m == 3 ==>
      && LastSequence(after.events) == LastSequence(d.events) + 1
      && step.id in after.checkpoints && after.checkpoints[step.id].status.Executing?
  {
    hide SaveError, Inv, PerformAll, OpenStart;
    var ws := OpeningProgram(d, step, kind, snapshot);
    LogEnd(d);
    var d1, d2 := ThreeWrites(d, ws, m, after);
    if m >= 1 { CarefulKeepsInv(d, ws[0], d1); }
    if m >= 2 { CarefulKeepsInv(d1, ws[1], d2); }
    if m >= 3 { CarefulKeepsInv(d2, ws[2], after); }
  }

  lemma ClosingKeepsInv(d: Disk, step: Step, kind: EventKind, base: StageCheckpoint, m: nat, after: Disk)
    requires Inv(d) && kind.IsTransition() && m <= 3
    requires kind.StageCompleted? && step.id in d.checkpoints ==> !d.checkpoints[step.id].status.Prepared?
    requires PerformAll(d, Closing(base, step, kind, LastSequence(d.events) + 1)[..m]) == Some(after)
    ensures Inv(after)
  {
    hide SaveError, Inv, PerformAll;
    var ws := Closing(base, step, kind, LastSequence(d.events) + 1);
    LogEnd(d);
    var d1, d2 := ThreeWrites(d, ws, m, after);
    if m >= 1 { CarefulKeepsInv(d, ws[0], d1); }
    if m >= 2 { CarefulKeepsInv(d1, ws[1], d2); }
    if m >= 3 { CarefulKeepsInv(d2, ws[2], after); }
  }

  lemma RecordingKeepsInv(d: Disk, step: Step, kind: EventKind, snapshot: Snapshot, k: nat, after: Disk)
    requires Inv(d) && Recording(d, step, kind, snapshot, k, after)
    ensures Inv(after)
  {
    hide Inv, OpeningProgram, PerformAll, Closing;
    var middle := SplitRecording(d, step, kind, snapshot, k, after);
    var opening := OpeningProgram(d, step, kind, snapshot);
    assert opening[..|opening|] == opening;
    if k <= |opening| {
      OpeningKeepsInv(d, step, kind, snapshot, k, after);
    } else {
      OpeningKeepsInv(d, step, kind, snapshot, |opening|, middle);
      ClosingLength(BaseCheckpoint(d, step, snapshot), step, kind, TransitionSequence(d, step, kind));
      ClosingKeepsInv(middle, step, kind, BaseCheckpoint(d, step, snapshot), k - |opening|, after);
    }
  }

  lemma ClosingLength(base: StageCheckpoint, step: Step, kind: EventKind, sequence: int)
    requires kind.IsTransition()
    ensures |Closing(base, step, kind, sequence)| == 3
  {
  }

  lemma RestoringKeepsInv(d: Disk, plan: seq<StageRestore>, effects: seq<ToolEffect>, snapshot: Snapshot, k: nat, note: seq<Write>, after: Disk)
    requires Inv(d) && Restoring(d, plan, effects, snapshot, k, note, after)
    ensures Inv(after)
  {
    PlanIsPlansFor(d, plan, effects, snapshot);
    hide PlansFor, PlanItem, CutCheckpoints, RestoreProgram, PerformAll, Sound, StageSaves, AfterSaves;
    CutIs(d, plan, k, note, after, effects, snapshot);
    forall s | s in after.checkpoints ensures !LateCompletion(after.checkpoints[s], after.events) {
      CutHasSameStages(d, plan, k, s);
      var i, j := FindCut(d, plan, k, s, effects, snapshot);
      PreparedIsUntouched(plan[i], j);
      SameTerminals(d.events, after.events, s, after.checkpoints[s].cursor);
    }
  }

  /** No save of a restore leaves a stage Prepared. */
  lemma PreparedIsUntouched(a: StageRestore, j: nat)
    requires j <= |StageSaves(a)|
    ensures AfterSaves(a, j).stage == a.checkpoint.stage
    ensures AfterSaves(a, j).status.Prepared? ==> AfterSaves(a, j) == a.checkpoint
  {
  }

  lemma ReopeningKeepsInv(d: Disk, stage: string, after: Disk)
    requires Inv(d) && Reopening(d, stage, after)
    ensures Inv(after)
  {
    LogEnd(d);
    SaveKeepsSound(d, after.checkpoints[stage]);
  }

  lemma NextKeepsInv(d: Disk, after: Disk)
    requires Inv(d) && Next(d, after)
    ensures Inv(after)
  {
    hide Inv, Recording, Restoring, Reopening, Perform;
    if step, kind, snapshot, k :| Recording(d, step, kind, snapshot, k, after) {
      RecordingKeepsInv(d, step, kind, snapshot, k, after);
    } else if plan, effects, snapshot, k, note :| Restoring(d, plan, effects, snapshot, k, note, after) {
      RestoringKeepsInv(d, plan, effects, snapshot, k, note, after);
    } else if e :| OtherEvent(d, e, after) {
      CarefulKeepsInv(d, Append(e), after);
    } else {
      var stage :| Reopening(d, stage, after);
      ReopeningKeepsInv(d, stage, after);
    }
  }

  /** In every history, whatever was cut where, no Prepared checkpoint has a completion after it. */
  lemma {:induction false} HistoriesKeepInv(history: seq<Disk>, n: nat)
    requires IsHistory(history) && n < |history|
    ensures Sound(history[n]) && NoLateCompletion(history[n])
  {
    hide Next;
    if n > 0 {
      HistoriesKeepInv(history, n - 1);
      assert Next(history[n - 1], history[n - 1 + 1]);
      NextKeepsInv(history[n - 1], history[n]);
    }
  }

  /**
    At every point of every history an accepted restore may be cut anywhere and run again: it is accepted
    again, none of its writes is refused, and it leaves the checkpoints an uninterrupted restore would have left.
   */
  lemma EveryRestoreIsRepeatable(history: seq<Disk>, n: nat, plan: seq<StageRestore>, effects: seq<ToolEffect>, snapshot: Snapshot,
                                 k: nat, note: seq<Write>, after: Disk, again: seq<StageRestore>)
    requires IsHistory(history) && n < |history|
    requires IsPlan(plan, history[n], effects, snapshot) && IsCut(history[n], plan, k, note, after)
    requires IsPlan(again, after, effects, snapshot)
    ensures Accepted(after, effects, snapshot)
    ensures var whole, rerun := PerformAll(history[n], RestoreProgram(plan)), PerformAll(after, RestoreProgram(again));
      whole.Some? && rerun.Some? && rerun.value.checkpoints == whole.value.checkpoints
  {
    hide *;
    HistoriesKeepInv(history, n);
    RestoreIsIdempotent(history[n], plan, k, note, after, again, effects, snapshot);
  }
}
