/**
  Crash consistency of the checkpoint provider: what a restore makes of an interrupted recording, what a
  second restore makes of an interrupted first one, and the invariant that the callers keep.
 */
module CheckpointRecovery {
  import opened Results
  import opened Checkpoint
  import opened CheckpointProvider

  // ---------------------------------------------------------------------------------------------
  // The log grows at its end
  // ---------------------------------------------------------------------------------------------

  lemma {:induction false} TerminalAfterAppend(events: seq<RunEvent>, e: RunEvent, stage: string, cursor: int)
    ensures TerminalAfter(events + [e], stage, cursor) ==
      if TerminalAfter(events, stage, cursor).Some? then TerminalAfter(events, stage, cursor)
      else if TerminalOf(e, stage, cursor) then Some(e) else None
  {
    if events == [] {
      assert ([e])[1..] == [];
    } else {
      assert (events + [e])[1..] == events[1..] + [e];
      TerminalAfterAppend(events[1..], e, stage, cursor);
    }
  }

  lemma {:induction false} NoTerminalPastTheEnd(events: seq<RunEvent>, stage: string, cursor: int)
    requires forall i :: 0 <= i < |events| ==> events[i].sequence <= cursor
    ensures TerminalAfter(events, stage, cursor).None?
  {
    if events != [] {
      NoTerminalPastTheEnd(events[1..], stage, cursor);
    }
  }

  lemma OrderedIsBounded(events: seq<RunEvent>)
    requires Ordered(events)
    ensures forall i :: 0 <= i < |events| ==> events[i].sequence <= LastSequence(events)
    ensures LastSequence(events) >= 0
  {
  }

  /** An open start has no terminal event after it. */
  lemma {:induction false} OpenStartIsOpen(events: seq<RunEvent>, stage: string)
    requires Ordered(events) && OpenStart(events, stage).Some?
    ensures var open := OpenStart(events, stage).value;
      1 <= open.sequence <= LastSequence(events) && TerminalAfter(events, stage, open.sequence).None?
  {
    var last := events[|events| - 1];
    var rest := events[..|events| - 1];
    assert events == rest + [last];
    if last.stage == stage && last.kind.StageStarted? {
      NoTerminalPastTheEnd(events, stage, last.sequence);
    } else {
      OpenStartIsOpen(rest, stage);
      TerminalAfterAppend(rest, last, stage, OpenStart(events, stage).value.sequence);
    }
  }

  // ---------------------------------------------------------------------------------------------
  // One stage
  // ---------------------------------------------------------------------------------------------

  /** A saved checkpoint has all the fields the store insists on. */
  predicate Complete(c: StageCheckpoint) { SaveError(map[], c).None? }

  ghost predicate Sound(d: Disk) {
    WellFormed(d) && forall s :: s in d.checkpoints ==> Complete(d.checkpoints[s])
  }

  /** In every accepted plan, each save of a stage is one the store takes. */
  lemma NextSaveIsTaken(a: StageRestore, j: nat, checkpoints: map<string, StageCheckpoint>)
    requires Applicable(a) && Complete(a.checkpoint)
    requires a.terminal.Some? ==> a.terminal.value.sequence > a.checkpoint.cursor
    requires j < |StageSaves(a)|
    requires a.checkpoint.stage in checkpoints && checkpoints[a.checkpoint.stage] == AfterSaves(a, j)
    ensures SaveError(checkpoints, StageSaves(a)[j]).None?
    ensures StageSaves(a)[j].stage == a.checkpoint.stage
    ensures StageSaves(a)[j].provider == a.checkpoint.provider && StageSaves(a)[j].inputHash == a.checkpoint.inputHash
    ensures StageSaves(a)[j].snapshotHash == a.checkpoint.snapshotHash && StageSaves(a)[j].toolsHash == a.checkpoint.toolsHash
    ensures Complete(StageSaves(a)[j])
  {
  }

  /**
    A restore newly compensates a stage only if every tool effect of the stage has been compensated, and
    commits a stage from the log only if every effect is committed or compensated.
   */
  lemma EffectsAreSettled(a: StageRestore, snapshot: Snapshot, events: seq<RunEvent>, effects: seq<ToolEffect>, e: ToolEffect)
    requires PlanItem(a.checkpoint, snapshot, events, effects) == Ok(a)
    requires e in effects && e.stage == a.checkpoint.stage
    ensures Outcome(a).status.Compensated? && !a.checkpoint.status.Compensated? ==> e.status.EffectCompensated?
    ensures Outcome(a).status.Committed? && !a.checkpoint.status.Committed? ==> Settled(e)
    ensures !Outcome(a).status.Committed? ==> !e.status.EffectCommitted?
  {
    OutcomeIs(a);
  }

  /** An accepted plan ends every stage, and says beforehand in which of the two final states. */
  lemma PlanPredicts(a: StageRestore, snapshot: Snapshot, events: seq<RunEvent>, effects: seq<ToolEffect>)
    requires PlanItem(a.checkpoint, snapshot, events, effects) == Ok(a)
    ensures Outcome(a).status.Committed? || Outcome(a).status.Compensated?
    ensures Outcome(a).status.Committed? <==>
      || a.checkpoint.status.Committed?
      || (a.terminal.Some? && a.terminal.value.kind.StageCompleted?)
  {
    PlannedIsApplicable(a, snapshot, events, effects);
    OutcomeIs(a);
  }

  /** Whether an effect lets its stage end as the log and the checkpoint say it should. */
  predicate Fits(item: StageCheckpoint, events: seq<RunEvent>, e: ToolEffect) {
    var terminal := TerminalAfter(events, item.stage, item.cursor);
    var unfinished := item.status.Prepared? || item.status.Executing?;
    if item.status.Committed? then true
    else if unfinished && terminal.Some? && terminal.value.kind.StageCompleted? then e.status.EffectCommitted? || e.status.EffectCompensated?
    else if item.status.Compensated? then !e.status.EffectCommitted?
    else e.status.EffectCompensated?
  }

  /**
    A checkpoint is accepted exactly when this provider made it for the run's present snapshot and tools, its
    status is known, and all effects of its stage fit.
   */
  lemma AcceptedExactly(item: StageCheckpoint, snapshot: Snapshot, events: seq<RunEvent>, effects: seq<ToolEffect>)
    ensures PlanItem(item, snapshot, events, effects).Ok? <==>
      && item.provider == INTERNAL_STATE_PROVIDER
      && item.snapshotHash == DigestOf(snapshot.body) && item.toolsHash == DigestOf(snapshot.tools)
      && !item.status.OtherStatus?
      && forall e :: e in effects && e.stage == item.stage ==> Fits(item, events, e)
  {
  }

  /** The same log as far as stages are concerned: only other events were added. */
  ghost predicate SameStages(events: seq<RunEvent>, later: seq<RunEvent>) {
    && events <= later
    && forall i :: |events| <= i < |later| ==> !later[i].kind.IsTransition()
  }

  lemma {:induction false} SameTerminals(events: seq<RunEvent>, later: seq<RunEvent>, stage: string, cursor: int)
    requires SameStages(events, later)
    ensures TerminalAfter(later, stage, cursor) == TerminalAfter(events, stage, cursor)
    decreases |later|
  {
    if |later| == |events| {
      assert later == events;
    } else {
      var rest := later[..|later| - 1];
      assert later == rest + [later[|later| - 1]];
      SameTerminals(events, rest, stage, cursor);
      TerminalAfterAppend(rest, later[|later| - 1], stage, cursor);
    }
  }

  /**
    A Prepared checkpoint whose stage already completed is first moved to Executing with the completion's own
    sequence as cursor. Interrupted there, a second restore no longer finds that completion.
   */
  ghost predicate LateCompletion(item: StageCheckpoint, events: seq<RunEvent>) {
    && item.status.Prepared?
    && TerminalAfter(events, item.stage, item.cursor).Some?
    && TerminalAfter(events, item.stage, item.cursor).value.kind.StageCompleted?
  }

  /** A late completion is lost unless yet another completion follows it. */
  ghost predicate LosesCompletion(item: StageCheckpoint, events: seq<RunEvent>) {
    && LateCompletion(item, events)
    && var next := TerminalAfter(events, item.stage, TerminalAfter(events, item.stage, item.cursor).value.sequence);
       next.None? || !next.value.kind.StageCompleted?
  }

  /** Planning again after any number of a stage's saves leads to the same final checkpoint. */
  lemma ReplanStage(a: StageRestore, j: nat, snapshot: Snapshot, events: seq<RunEvent>, later: seq<RunEvent>, effects: seq<ToolEffect>)
    requires PlanItem(a.checkpoint, snapshot, events, effects) == Ok(a)
    requires j <= |StageSaves(a)| && SameStages(events, later)
    requires !LateCompletion(a.checkpoint, events) || j != 1
    ensures var again := PlanItem(AfterSaves(a, j), snapshot, later, effects);
      again.Ok? && again.value.checkpoint == AfterSaves(a, j) && Outcome(again.value) == Outcome(a)
  {
    hide TerminalAfter, HasCommittedEffect, HasUncertainEffect, SameStages;
    var item := AfterSaves(a, j);
    SameTerminals(events, later, item.stage, item.cursor);
    PlannedIsApplicable(a, snapshot, events, effects);
    OutcomeIs(a);
    var again := PlanItem(item, snapshot, later, effects);
    assert again.Ok?;
    OutcomeIs(again.value);
  }

  /** Interrupted exactly between the two saves, a late completion is restored only if another one follows. */
  lemma ReplanLateCompletion(a: StageRestore, snapshot: Snapshot, events: seq<RunEvent>, later: seq<RunEvent>, effects: seq<ToolEffect>)
    requires PlanItem(a.checkpoint, snapshot, events, effects) == Ok(a)
    requires LateCompletion(a.checkpoint, events) && SameStages(events, later)
    ensures |StageSaves(a)| == 2 && Outcome(a).status.Committed?
    ensures var again := PlanItem(AfterSaves(a, 1), snapshot, later, effects);
      LosesCompletion(a.checkpoint, events) <==> !(again.Ok? && Outcome(again.value).status.Committed?)
  {
    var item := AfterSaves(a, 1);
    SameTerminals(events, later, item.stage, item.cursor);
    PlannedIsApplicable(a, snapshot, events, effects);
    OutcomeIs(a);
    var again := PlanItem(item, snapshot, later, effects);
    if again.Ok? { PlanPredicts(again.value, snapshot, later, effects); }
  }

  // ---------------------------------------------------------------------------------------------
  // A whole restore, cut anywhere
  // ---------------------------------------------------------------------------------------------

  function ReconcileCount(a: StageRestore): nat {
    if a.terminal.None? then 0 else |ReconcileSaves(a.checkpoint, a.terminal.value)|
  }

  /** How many of the stage's saves are among the first m writes of its program. */
  function SavesDone(a: StageRestore, m: nat): (j: nat)
    ensures j <= |StageSaves(a)|
  {
    if m <= ReconcileCount(a) then m else if m - 1 <= |StageSaves(a)| then m - 1 else |StageSaves(a)|
  }

  /** Every write of a stage's program is an audit event or the stage's next save. */
  lemma StageWrite(a: StageRestore, m: nat)
    requires m < |StageProgram(a)|
    ensures StageProgram(a)[m].Append? ==>
      !StageProgram(a)[m].event.kind.IsTransition() && SavesDone(a, m + 1) == SavesDone(a, m)
    ensures StageProgram(a)[m].Save? ==>
      SavesDone(a, m) < |StageSaves(a)| && SavesDone(a, m + 1) == SavesDone(a, m) + 1
      && StageProgram(a)[m].checkpoint == StageSaves(a)[SavesDone(a, m)]
    ensures SavesDone(a, |StageProgram(a)|) == |StageSaves(a)|
  {
  }

  /** The terminal an action applies is one of the log's, past the checkpoint's cursor. */
  ghost predicate Grounded(a: StageRestore, events: seq<RunEvent>) {
    && Applicable(a)
    && (a.terminal.Some? ==> a.terminal.value in events && a.terminal.value.sequence > a.checkpoint.cursor)
  }

  lemma GroundedIsStable(a: StageRestore, events: seq<RunEvent>, later: seq<RunEvent>)
    requires Grounded(a, events) && events <= later
    ensures Grounded(a, later)
  {
    if a.terminal.Some? {
      var i :| 0 <= i < |events| && events[i] == a.terminal.value;
      assert later[i] == events[i];
    }
  }

  /** The disk once the first m writes of a stage's program have been performed. */
  ghost predicate StageAt(d: Disk, a: StageRestore, m: nat, after: Disk) {
    && Sound(after) && SameStages(d.events, after.events)
    && after.checkpoints == d.checkpoints[a.checkpoint.stage := AfterSaves(a, SavesDone(a, m))]
  }

  lemma StageStep(d: Disk, a: StageRestore, m: nat, before: Disk)
    requires Grounded(a, d.events) && Complete(a.checkpoint) && 0 <= a.checkpoint.cursor <= LastSequence(before.events)
    requires m < |StageProgram(a)| && StageAt(d, a, m, before)
    ensures Perform(before, StageProgram(a)[m]).Some?
    ensures StageAt(d, a, m + 1, Perform(before, StageProgram(a)[m]).value)
  {
    hide StageProgram, StageSaves, Applicable, SaveError, SavesDone;
    StageWrite(a, m);
    var j := SavesDone(a, m);
    match StageProgram(a)[m]
    case Append(e) =>
      AuditKeepsSound(before, e);
    case Save(c) =>
      GroundedIsStable(a, d.events, before.events);
      NextSaveIsTaken(a, j, before.checkpoints);
      SavedCursor(a, j);
      OrderedIsBounded(before.events);
      SaveKeepsSound(before, c);
      assert AfterSaves(a, j + 1) == StageSaves(a)[j];
  }

  lemma {:induction false} StagePrefix(d: Disk, a: StageRestore, m: nat)
    requires Sound(d) && Grounded(a, d.events)
    requires a.checkpoint.stage in d.checkpoints && d.checkpoints[a.checkpoint.stage] == a.checkpoint
    requires m <= |StageProgram(a)|
    ensures PerformAll(d, StageProgram(a)[..m]).Some? && StageAt(d, a, m, PerformAll(d, StageProgram(a)[..m]).value)
  {
    hide StageProgram, StageSaves, Applicable, SaveError, Perform;
    if m > 0 {
      StagePrefix(d, a, m - 1);
      var before := PerformAll(d, StageProgram(a)[..m - 1]).value;
      assert StageProgram(a)[..m][..m - 1] == StageProgram(a)[..m - 1];
      LogGrows(d.events, before.events);
      StageStep(d, a, m - 1, before);
    }
  }

  lemma LogGrows(events: seq<RunEvent>, later: seq<RunEvent>)
    requires Ordered(later) && events <= later
    ensures LastSequence(events) <= LastSequence(later)
  {
    OrderedIsBounded(later);
    if events != [] { assert later[|events| - 1] == events[|events| - 1]; }
  }

  lemma AuditKeepsSound(d: Disk, e: RunEvent)
    requires Sound(d)
    ensures Perform(d, Append(e)).Some? && Sound(Perform(d, Append(e)).value)
  {
  }

  lemma SaveKeepsSound(d: Disk, c: StageCheckpoint)
    requires Sound(d) && Complete(c) && 0 <= c.cursor <= LastSequence(d.events)
    ensures Sound(d.(checkpoints := d.checkpoints[c.stage := c]))
  {
    hide Complete, Ordered;
  }

  lemma SavedCursor(a: StageRestore, j: nat)
    requires j < |StageSaves(a)|
    ensures StageSaves(a)[j].cursor == a.checkpoint.cursor
      || (a.terminal.Some? && StageSaves(a)[j].cursor == a.terminal.value.sequence)
  {
  }

  /** Some of a disk's checkpoints, each once, each with its own decision. */
  ghost predicate PlansFor(plan: seq<StageRestore>, d: Disk, effects: seq<ToolEffect>, snapshot: Snapshot) {
    && (forall i :: 0 <= i < |plan| ==>
          && plan[i].checkpoint.stage in d.checkpoints
          && plan[i].checkpoint == d.checkpoints[plan[i].checkpoint.stage]
          && PlanItem(plan[i].checkpoint, snapshot, d.events, effects) == Ok(plan[i]))
    && (forall i, j :: 0 <= i < j < |plan| ==> plan[i].checkpoint.stage != plan[j].checkpoint.stage)
  }

  /** The checkpoints once the first k writes of a plan's program have been performed. */
  ghost function CutCheckpoints(d: Disk, plan: seq<StageRestore>, k: nat): map<string, StageCheckpoint> {
    if plan == [] then d.checkpoints
    else
      var init, last := plan[..|plan| - 1], plan[|plan| - 1];
      var done := |RestoreProgram(init)|;
      if k <= done then CutCheckpoints(d, init, k)
      else CutCheckpoints(d, init, done)[last.checkpoint.stage := AfterSaves(last, SavesDone(last, k - done))]
  }

  lemma PlannedIsGrounded(d: Disk, a: StageRestore, snapshot: Snapshot, effects: seq<ToolEffect>)
    requires PlanItem(a.checkpoint, snapshot, d.events, effects) == Ok(a)
    ensures Grounded(a, d.events)
  {
    PlannedIsApplicable(a, snapshot, d.events, effects);
    TerminalAfterIsOne(d.events, a.checkpoint.stage, a.checkpoint.cursor);
  }

  /** Stages outside the plan keep their checkpoint. */
  lemma {:induction false} CutKeepsOthers(d: Disk, plan: seq<StageRestore>, k: nat, s: string)
    requires forall i :: 0 <= i < |plan| ==> plan[i].checkpoint.stage != s
    ensures s in CutCheckpoints(d, plan, k) <==> s in d.checkpoints
    ensures s in d.checkpoints ==> CutCheckpoints(d, plan, k)[s] == d.checkpoints[s]
  {
    if plan != [] {
      var init := plan[..|plan| - 1];
      CutKeepsOthers(d, init, k, s);
      CutKeepsOthers(d, init, |RestoreProgram(init)|, s);
    }
  }

  /** A restore's writes are never refused by the store, wherever it is cut. */
  lemma {:induction false} RestorePrefix(d: Disk, plan: seq<StageRestore>, k: nat, effects: seq<ToolEffect>, snapshot: Snapshot)
    requires Sound(d) && PlansFor(plan, d, effects, snapshot) && k <= |RestoreProgram(plan)|
    ensures var after := PerformAll(d, RestoreProgram(plan)[..k]);
      after.Some? && Sound(after.value) && SameStages(d.events, after.value.events)
      && after.value.checkpoints == CutCheckpoints(d, plan, k)
  {
    hide StageProgram, StageSaves, Applicable, SaveError, PlanItem, Perform, SavesDone;
    if plan != [] {
      var n := |plan| - 1;
      var init, last := plan[..n], plan[n];
      var done := RestoreProgram(init);
      assert RestoreProgram(plan) == done + StageProgram(last);
      if k <= |done| {
        RestorePrefix(d, init, k, effects, snapshot);
        assert RestoreProgram(plan)[..k] == done[..k];
      } else {
        RestorePrefix(d, init, |done|, effects, snapshot);
        assert done[..|done|] == done;
        var middle, m := PerformAll(d, done).value, k - |done|;
        CutKeepsOthers(d, init, |done|, last.checkpoint.stage);
        PlannedIsGrounded(d, last, snapshot, effects);
        GroundedIsStable(last, d.events, middle.events);
        StagePrefix(middle, last, m);
        assert RestoreProgram(plan)[..k] == done + StageProgram(last)[..m];
        PerformBoth(d, done, StageProgram(last)[..m]);
      }
    }
  }

  /** Every planned stage is somewhere on its way, and at its end once the whole program has been performed. */
  lemma {:induction false} CutIsOnPath(d: Disk, plan: seq<StageRestore>, k: nat, i: nat) returns (j: nat)
    requires i < |plan| && k <= |RestoreProgram(plan)|
    requires plan[i].checkpoint.stage in d.checkpoints && d.checkpoints[plan[i].checkpoint.stage] == plan[i].checkpoint
    requires forall a, b :: 0 <= a < b < |plan| ==> plan[a].checkpoint.stage != plan[b].checkpoint.stage
    ensures j <= |StageSaves(plan[i])|
    ensures plan[i].checkpoint.stage in CutCheckpoints(d, plan, k)
    ensures CutCheckpoints(d, plan, k)[plan[i].checkpoint.stage] == AfterSaves(plan[i], j)
    ensures k == |RestoreProgram(plan)| ==> j == |StageSaves(plan[i])|
  {
    hide StageProgram, StageSaves, SavesDone, AfterSaves;
    var n := |plan| - 1;
    var init, last := plan[..n], plan[n];
    var done := |RestoreProgram(init)|;
    assert |RestoreProgram(plan)| == done + |StageProgram(last)|;
    StageProgramNonEmptyOrDone(last);
    if i < n {
      j := CutIsOnPath(d, init, if k <= done then k else done, i);
      assert init[i] == plan[i];
    } else {
      CutKeepsOthers(d, init, if k <= done then k else done, last.checkpoint.stage);
      NothingSaved(last);
      j := if k <= done then 0 else SavesDone(last, k - done);
    }
  }

  lemma NothingSaved(a: StageRestore)
    ensures AfterSaves(a, 0) == a.checkpoint
  {
  }

  lemma StageProgramNonEmptyOrDone(a: StageRestore)
    ensures StageProgram(a) == [] ==> StageSaves(a) == []
    ensures SavesDone(a, |StageProgram(a)|) == |StageSaves(a)|
  {
  }

  /** A disk an interrupted restore can leave, as `Provider.RestoreRun` promises. */
  ghost predicate IsCut(d: Disk, plan: seq<StageRestore>, k: nat, note: seq<Write>, after: Disk) {
    && k <= |RestoreProgram(plan)| && IsNote(note)
    && PerformAll(d, RestoreProgram(plan)[..k] + note) == Some(after)
  }

  lemma CutIs(d: Disk, plan: seq<StageRestore>, k: nat, note: seq<Write>, after: Disk, effects: seq<ToolEffect>, snapshot: Snapshot)
    requires Sound(d) && PlansFor(plan, d, effects, snapshot) && IsCut(d, plan, k, note, after)
    ensures Sound(after) && SameStages(d.events, after.events) && after.checkpoints == CutCheckpoints(d, plan, k)
  {
    hide StageProgram, Applicable, SaveError, PlanItem, CutCheckpoints;
    RestorePrefix(d, plan, k, effects, snapshot);
    PerformBoth(d, RestoreProgram(plan)[..k], note);
    if note != [] {
      assert note[..0] == [];
      AuditKeepsSound(PerformAll(d, RestoreProgram(plan)[..k]).value, note[0].event);
    }
  }

  /** The stage of a checkpoint in a complete plan, and how far an interrupted restore took it. */
  lemma FindCut(d: Disk, plan: seq<StageRestore>, k: nat, s: string, effects: seq<ToolEffect>, snapshot: Snapshot) returns (i: nat, j: nat)
    requires IsPlan(plan, d, effects, snapshot) && s in d.checkpoints && k <= |RestoreProgram(plan)|
    ensures i < |plan| && plan[i].checkpoint.stage == s && j <= |StageSaves(plan[i])|
    ensures s in CutCheckpoints(d, plan, k) && CutCheckpoints(d, plan, k)[s] == AfterSaves(plan[i], j)
    ensures k == |RestoreProgram(plan)| ==> j == |StageSaves(plan[i])|
  {
    hide CutCheckpoints, StageSaves, PlanItem;
    i :| 0 <= i < |plan| && plan[i].checkpoint.stage == s;
    j := CutIsOnPath(d, plan, k, i);
  }

  lemma CutHasSameStages(d: Disk, plan: seq<StageRestore>, k: nat, s: string)
    requires forall i :: 0 <= i < |plan| ==> plan[i].checkpoint.stage in d.checkpoints
    requires s in CutCheckpoints(d, plan, k)
    ensures s in d.checkpoints
  {
    if s !in d.checkpoints { CutKeepsOthers(d, plan, k, s); }
  }

  ghost predicate NoLateCompletion(d: Disk) {
    forall s :: s in d.checkpoints ==> !LateCompletion(d.checkpoints[s], d.events)
  }

  /** A restore interrupted at any write is accepted again, with the same prediction for every stage. */
  lemma CutIsAccepted(d: Disk, plan: seq<StageRestore>, k: nat, note: seq<Write>, after: Disk, effects: seq<ToolEffect>, snapshot: Snapshot, s: string)
    requires Sound(d) && IsPlan(plan, d, effects, snapshot) && IsCut(d, plan, k, note, after)
    requires NoLateCompletion(d) && s in after.checkpoints
    ensures s in d.checkpoints
    ensures var first := PlanItem(d.checkpoints[s], snapshot, d.events, effects);
      var again := PlanItem(after.checkpoints[s], snapshot, after.events, effects);
      first.Ok? && again.Ok? && again.value.checkpoint == after.checkpoints[s] && Outcome(again.value) == Outcome(first.value)
  {
    hide RestoreProgram, PlanItem, LateCompletion, StageSaves;
    CutIs(d, plan, k, note, after, effects, snapshot);
    CutHasSameStages(d, plan, k, s);
    var i, j := FindCut(d, plan, k, s, effects, snapshot);
    ReplanStage(plan[i], j, snapshot, d.events, after.events, effects);
  }

  /** The checkpoint a restore of this disk is to leave for each stage. */
  ghost function Predicted(d: Disk, effects: seq<ToolEffect>, snapshot: Snapshot): map<string, StageCheckpoint> {
    map s | s in d.checkpoints :: PredictedFor(d.checkpoints[s], d.events, effects, snapshot)
  }

  ghost function PredictedFor(item: StageCheckpoint, events: seq<RunEvent>, effects: seq<ToolEffect>, snapshot: Snapshot): StageCheckpoint {
    match PlanItem(item, snapshot, events, effects)
    case Ok(a) => Outcome(a)
    case Err(_) => item
  }

  /** A restore that is not interrupted leaves every stage in the final state its plan predicted. */
  lemma WholeRestore(d: Disk, plan: seq<StageRestore>, effects: seq<ToolEffect>, snapshot: Snapshot)
    requires Sound(d) && IsPlan(plan, d, effects, snapshot)
    ensures var after := PerformAll(d, RestoreProgram(plan));
      && after.Some? && Sound(after.value) && SameStages(d.events, after.value.events)
      && after.value.checkpoints == Predicted(d, effects, snapshot)
      && forall s :: s in d.checkpoints ==> after.value.checkpoints[s].status.Committed? || after.value.checkpoints[s].status.Compensated?
  {
    hide PlanItem, CutCheckpoints, RestoreProgram, StageSaves, Perform, PerformAll, Sound, SameStages;
    var k := |RestoreProgram(plan)|;
    assert RestoreProgram(plan)[..k] == RestoreProgram(plan);
    RestorePrefix(d, plan, k, effects, snapshot);
    var after := PerformAll(d, RestoreProgram(plan)).value;
    forall s | s in after.checkpoints ensures s in d.checkpoints {
      CutHasSameStages(d, plan, k, s);
    }
    forall s | s in d.checkpoints
      ensures s in after.checkpoints && after.checkpoints[s] == Predicted(d, effects, snapshot)[s]
      ensures after.checkpoints[s].status.Committed? || after.checkpoints[s].status.Compensated?
    {
      var i, j := FindCut(d, plan, k, s, effects, snapshot);
      PlanPredicts(plan[i], snapshot, d.events, effects);
    }
  }

  /**
    Idempotence of a restore: interrupt it anywhere, run it again to the end, in any order of stages, and
    every checkpoint is the one the uninterrupted restore leaves.
   */
  lemma RestoreIsIdempotent(d: Disk, plan: seq<StageRestore>, k: nat, note: seq<Write>, after: Disk,
                            again: seq<StageRestore>, effects: seq<ToolEffect>, snapshot: Snapshot)
    requires Sound(d) && IsPlan(plan, d, effects, snapshot) && IsCut(d, plan, k, note, after) && NoLateCompletion(d)
    ensures Accepted(after, effects, snapshot)
    ensures IsPlan(again, after, effects, snapshot) ==>
      var whole, rerun := PerformAll(d, RestoreProgram(plan)), PerformAll(after, RestoreProgram(again));
      whole.Some? && rerun.Some? && rerun.value.checkpoints == whole.value.checkpoints
  {
    SamePrediction(d, plan, k, note, after, effects, snapshot);
    hide PlanItem, RestoreProgram, PerformAll, IsPlan, IsCut, Predicted;
    if IsPlan(again, after, effects, snapshot) {
      CutIs(d, plan, k, note, after, effects, snapshot) by { PlanIsPlansFor(d, plan, effects, snapshot); }
      WholeRestore(d, plan, effects, snapshot);
      WholeRestore(after, again, effects, snapshot);
    }
  }

  lemma PlanIsPlansFor(d: Disk, plan: seq<StageRestore>, effects: seq<ToolEffect>, snapshot: Snapshot)
    requires IsPlan(plan, d, effects, snapshot)
    ensures PlansFor(plan, d, effects, snapshot)
  {
  }

  lemma SamePrediction(d: Disk, plan: seq<StageRestore>, k: nat, note: seq<Write>, after: Disk, effects: seq<ToolEffect>, snapshot: Snapshot)
    requires Sound(d) && IsPlan(plan, d, effects, snapshot) && IsCut(d, plan, k, note, after) && NoLateCompletion(d)
    ensures Accepted(after, effects, snapshot) && Predicted(after, effects, snapshot) == Predicted(d, effects, snapshot)
  {
    hide RestoreProgram, PlanItem, LateCompletion, StageSaves, Outcome, CutCheckpoints, PerformAll, Sound, SameStages, AfterSaves;
    CutIs(d, plan, k, note, after, effects, snapshot);
    forall s | s in after.checkpoints
      ensures s in d.checkpoints && PlanItem(after.checkpoints[s], snapshot, after.events, effects).Ok?
      ensures Predicted(after, effects, snapshot)[s] == Predicted(d, effects, snapshot)[s]
    {
      CutIsAccepted(d, plan, k, note, after, effects, snapshot, s);
    }
    forall s | s in d.checkpoints ensures s in after.checkpoints {
      var i, j := FindCut(d, plan, k, s, effects, snapshot);
    }
  }

  /** The disk is accepted again, and every stage still ends in the status predicted before. */
  ghost predicate KeepsStatuses(d: Disk, after: Disk, effects: seq<ToolEffect>, snapshot: Snapshot) {
    && Accepted(after, effects, snapshot)
    && forall s :: s in d.checkpoints ==>
         s in after.checkpoints
         && PredictedFor(after.checkpoints[s], after.events, effects, snapshot).status
            == PredictedFor(d.checkpoints[s], d.events, effects, snapshot).status
  }

  /** Wherever the restore is interrupted, running it again ends every stage in the predicted status. */
  ghost predicate Repeatable(d: Disk, plan: seq<StageRestore>, effects: seq<ToolEffect>, snapshot: Snapshot) {
    forall k, note, after :: IsCut(d, plan, k, note, after) ==> KeepsStatuses(d, after, effects, snapshot)
  }

  /** Exactly the plans without a completion to lose can be repeated. */
  lemma RepeatableExactly(d: Disk, plan: seq<StageRestore>, effects: seq<ToolEffect>, snapshot: Snapshot)
    requires Sound(d) && IsPlan(plan, d, effects, snapshot)
    ensures Repeatable(d, plan, effects, snapshot) <==> forall s :: s in d.checkpoints ==> !LosesCompletion(d.checkpoints[s], d.events)
  {
    hide LosesCompletion, IsPlan, IsCut, KeepsStatuses;
    if s :| s in d.checkpoints && LosesCompletion(d.checkpoints[s], d.events) {
      LostCompletion(d, plan, s, effects, snapshot);
    } else {
      forall k, note, after | IsCut(d, plan, k, note, after) ensures KeepsStatuses(d, after, effects, snapshot) {
        CutKeepsStatuses(d, plan, k, note, after, effects, snapshot);
      }
    }
  }

  lemma CutKeepsStatuses(d: Disk, plan: seq<StageRestore>, k: nat, note: seq<Write>, after: Disk, effects: seq<ToolEffect>, snapshot: Snapshot)
    requires Sound(d) && IsPlan(plan, d, effects, snapshot) && IsCut(d, plan, k, note, after)
    requires forall s :: s in d.checkpoints ==> !LosesCompletion(d.checkpoints[s], d.events)
    ensures KeepsStatuses(d, after, effects, snapshot)
  {
    hide LosesCompletion, PlanItem, RestoreProgram, PredictedFor, CutCheckpoints;
    CutIs(d, plan, k, note, after, effects, snapshot);
    forall s | s in after.checkpoints ensures s in d.checkpoints {
      CutHasSameStages(d, plan, k, s);
    }
    forall s | s in d.checkpoints
      ensures s in after.checkpoints && PlanItem(after.checkpoints[s], snapshot, after.events, effects).Ok?
      ensures PredictedFor(after.checkpoints[s], after.events, effects, snapshot).status
        == PredictedFor(d.checkpoints[s], d.events, effects, snapshot).status
    {
      KeptCompletion(d, plan, k, note, after, s, effects, snapshot);
    }
  }

  lemma KeptCompletion(d: Disk, plan: seq<StageRestore>, k: nat, note: seq<Write>, after: Disk, s: string,
                       effects: seq<ToolEffect>, snapshot: Snapshot)
    requires Sound(d) && IsPlan(plan, d, effects, snapshot) && IsCut(d, plan, k, note, after)
    requires s in d.checkpoints && !LosesCompletion(d.checkpoints[s], d.events)
    ensures s in after.checkpoints && PlanItem(after.checkpoints[s], snapshot, after.events, effects).Ok?
    ensures PredictedFor(after.checkpoints[s], after.events, effects, snapshot).status
      == PredictedFor(d.checkpoints[s], d.events, effects, snapshot).status
  {
    hide RestoreProgram, PlanItem, LateCompletion, LosesCompletion, StageSaves, CutCheckpoints;
    CutIs(d, plan, k, note, after, effects, snapshot);
    var i, j := FindCut(d, plan, k, s, effects, snapshot);
    if LateCompletion(d.checkpoints[s], d.events) && j == 1 {
      ReplanLateCompletion(plan[i], snapshot, d.events, after.events, effects);
    } else {
      ReplanStage(plan[i], j, snapshot, d.events, after.events, effects);
    }
  }

  lemma {:induction false} CutOfPrefix(d: Disk, plan: seq<StageRestore>, i: nat, k: nat)
    requires i <= |plan| && k <= |RestoreProgram(plan[..i])|
    ensures k <= |RestoreProgram(plan)| && CutCheckpoints(d, plan, k) == CutCheckpoints(d, plan[..i], k)
    decreases |plan|
  {
    hide StageProgram, SavesDone;
    if i == |plan| {
      assert plan[..i] == plan;
    } else {
      var init := plan[..|plan| - 1];
      assert init[..i] == plan[..i];
      CutOfPrefix(d, init, i, k);
    }
  }

  ghost predicate Holds(checkpoints: map<string, StageCheckpoint>, stage: string, c: StageCheckpoint) {
    stage in checkpoints && checkpoints[stage] == c
  }

  /** The interruption that loses a completion: right after the first of its two saves. */
  lemma LostCut(d: Disk, plan: seq<StageRestore>, i: nat, effects: seq<ToolEffect>, snapshot: Snapshot, k: nat, first: StageCheckpoint)
    returns (after: Disk)
    requires Sound(d) && PlansFor(plan, d, effects, snapshot) && i < |plan|
    requires k <= |RestoreProgram(plan)| && Holds(CutCheckpoints(d, plan, k), plan[i].checkpoint.stage, first)
    ensures IsCut(d, plan, k, [], after) && SameStages(d.events, after.events)
    ensures Holds(after.checkpoints, plan[i].checkpoint.stage, first)
  {
    hide PlanItem, PerformAll, Perform, CutCheckpoints, SaveError, RestoreProgram, Sound, SameStages, PlansFor;
    RestorePrefix(d, plan, k, effects, snapshot);
    assert RestoreProgram(plan)[..k] + [] == RestoreProgram(plan)[..k];
    after := PerformAll(d, RestoreProgram(plan)[..k]).value;
  }

  /** The stage of the plan's last action after the first m writes of that action. */
  lemma CutOfLast(d: Disk, plan: seq<StageRestore>, m: nat, c: StageCheckpoint)
    requires plan != [] && 0 < m <= |StageProgram(plan[|plan| - 1])|
    requires c == AfterSaves(plan[|plan| - 1], SavesDone(plan[|plan| - 1], m))
    ensures |RestoreProgram(plan[..|plan| - 1])| + m <= |RestoreProgram(plan)|
    ensures Holds(CutCheckpoints(d, plan, |RestoreProgram(plan[..|plan| - 1])| + m), plan[|plan| - 1].checkpoint.stage, c)
  {
    hide StageProgram, SavesDone, AfterSaves;
  }

  /** The stage of the i-th action after the first m writes of that action. */
  lemma CutInside(d: Disk, plan: seq<StageRestore>, i: nat, m: nat, c: StageCheckpoint) returns (k: nat)
    requires i < |plan| && 0 < m <= |StageProgram(plan[i])| && c == AfterSaves(plan[i], SavesDone(plan[i], m))
    ensures k <= |RestoreProgram(plan)| && Holds(CutCheckpoints(d, plan, k), plan[i].checkpoint.stage, c)
  {
    hide StageProgram, SavesDone, AfterSaves, CutCheckpoints, RestoreProgram;
    var prefix := plan[..i + 1];
    k := |RestoreProgram(plan[..i])| + m;
    assert prefix[..|prefix| - 1] == plan[..i];
    CutOfLast(d, prefix, m, c);
    CutOfPrefix(d, plan, i + 1, k);
  }

  lemma FirstSave(a: StageRestore, d: Disk, effects: seq<ToolEffect>, snapshot: Snapshot)
    requires PlanItem(a.checkpoint, snapshot, d.events, effects) == Ok(a) && LateCompletion(a.checkpoint, d.events)
    ensures |StageProgram(a)| > 1 && SavesDone(a, 1) == 1
  {
  }

  lemma LosesIsLate(item: StageCheckpoint, events: seq<RunEvent>)
    requires LosesCompletion(item, events)
    ensures LateCompletion(item, events)
  {
  }

  lemma LostCompletion(d: Disk, plan: seq<StageRestore>, s: string, effects: seq<ToolEffect>, snapshot: Snapshot)
    requires Sound(d) && IsPlan(plan, d, effects, snapshot)
    requires s in d.checkpoints && LosesCompletion(d.checkpoints[s], d.events)
    ensures !Repeatable(d, plan, effects, snapshot)
  {
    var i :| 0 <= i < |plan| && plan[i].checkpoint.stage == s;
    var a := plan[i];
    FirstSave(a, d, effects, snapshot);
    LosesIsLate(a.checkpoint, d.events);
    hide PlanItem, LosesCompletion, LateCompletion, StageSaves, AfterSaves, StageProgram, SavesDone, PerformAll, Sound, SameStages,
      CutCheckpoints, IsCut, RestoreProgram;
    ReplanLateCompletion(a, snapshot, d.events, d.events, effects);
    var k := CutInside(d, plan, i, 1, AfterSaves(a, 1));
    var after := LostCut(d, plan, i, effects, snapshot, k, AfterSaves(a, 1));
    ReplanLateCompletion(a, snapshot, d.events, after.events, effects);
    assert !KeepsStatuses(d, after, effects, snapshot);
  }

  // ---------------------------------------------------------------------------------------------
  // An interrupted recording, then a restore
  // ---------------------------------------------------------------------------------------------

  /**
    A stage whose own recordings so far left nothing in doubt: it has no checkpoint yet, or an unfinished one
    with no terminal event logged after it, as any cut of its start leaves it.
   */
  ghost predicate Untouched(d: Disk, stage: string) {
    stage in d.checkpoints ==>
      (d.checkpoints[stage].status.Prepared? || d.checkpoints[stage].status.Executing?) && TerminalAfter(d.events, stage, d.checkpoints[stage].cursor).None?
  }

  ghost predicate CompletedSince(d: Disk, after: Disk, stage: string) {
    exists i :: |d.events| <= i < |after.events| && after.events[i].stage == stage && after.events[i].kind.StageCompleted?
  }

  /** The stage is open: its checkpoint is unfinished and nothing in the log ends it. */
  ghost predicate OpenAt(d: Disk, stage: string) {
    && Ordered(d.events) && stage in d.checkpoints
    && 0 <= d.checkpoints[stage].cursor <= LastSequence(d.events)
    && d.checkpoints[stage].stage == stage
    && (d.checkpoints[stage].status.Prepared? || d.checkpoints[stage].status.Executing?)
    && TerminalAfter(d.events, stage, d.checkpoints[stage].cursor).None?
  }

  lemma AppendKeepsOpen(d: Disk, e: RunEvent, stage: string)
    requires Ordered(d.events) && !e.kind.IsTerminal()
    ensures var after := Perform(d, Append(e)).value;
      Ordered(after.events) && (OpenAt(d, stage) ==> OpenAt(after, stage)) && after.checkpoints == d.checkpoints
  {
    if stage in d.checkpoints {
      TerminalAfterAppend(d.events, e.(sequence := LastSequence(d.events) + 1), stage, d.checkpoints[stage].cursor);
    }
  }

  lemma SaveOpens(d: Disk, c: StageCheckpoint)
    requires Ordered(d.events) && (c.status.Prepared? || c.status.Executing?) && 0 <= c.cursor <= LastSequence(d.events)
    requires c.cursor == LastSequence(d.events) || TerminalAfter(d.events, c.stage, c.cursor).None?
    ensures OpenAt(d.(checkpoints := d.checkpoints[c.stage := c]), c.stage)
  {
    OrderedIsBounded(d.events);
    if c.cursor == LastSequence(d.events) { NoTerminalPastTheEnd(d.events, c.stage, c.cursor); }
  }

  /** What every cut of a recording's opening leaves: the stage open, or without a checkpoint, and not completed. */
  ghost predicate Opening(d: Disk, after: Disk, stage: string) {
    && Ordered(after.events) && d.events <= after.events && !CompletedSince(d, after, stage)
    && (stage in after.checkpoints ==> OpenAt(after, stage))
    && (|after.events| > |d.events| ==> stage in after.checkpoints)
  }

  lemma SaveIsOpening(d: Disk, before: Disk, c: StageCheckpoint, after: Disk)
    requires Opening(d, before, c.stage) && Perform(before, Save(c)) == Some(after)
    requires (c.status.Prepared? || c.status.Executing?) && 0 <= c.cursor <= LastSequence(before.events)
    requires c.cursor == LastSequence(before.events) || TerminalAfter(before.events, c.stage, c.cursor).None?
    ensures Opening(d, after, c.stage) && OpenAt(after, c.stage) && after == before.(checkpoints := before.checkpoints[c.stage := c])
  {
    hide SaveError;
    SaveOpens(before, c);
  }

  lemma StartIsOpening(d: Disk, before: Disk, e: RunEvent, after: Disk, stage: string)
    requires Opening(d, before, stage) && stage in before.checkpoints
    requires Perform(before, Append(e)) == Some(after) && !e.kind.IsTerminal()
    ensures Opening(d, after, stage) && LastSequence(after.events) == LastSequence(before.events) + 1
    ensures OpenAt(before, stage) ==> OpenAt(after, stage)
  {
    AppendKeepsOpen(before, e, stage);
  }

  /** The opening of a stage that has neither a checkpoint nor an open start in the log. */
  lemma FreshOpeningCut(d: Disk, step: Step, kind: EventKind, snapshot: Snapshot, m: nat, after: Disk)
    requires Ordered(d.events) && kind.IsTerminal() && step.id !in d.checkpoints && OpenStart(d.events, step.id).None?
    requires m <= 3 && PerformAll(d, OpeningProgram(d, step, kind, snapshot)[..m]) == Some(after)
    ensures Opening(d, after, step.id) && (m == 3 ==> OpenAt(after, step.id))
    ensures LastSequence(after.events) == LastSequence(d.events) + (if m >= 2 then 1 else 0)
  {
    hide SaveError, Opening, OpenAt, OpenStart, PerformAll, Perform;
    var ws := OpeningProgram(d, step, kind, snapshot);
    OrderedIsBounded(d.events);
    NotStarted(d, step.id);
    var d1, d2 := ThreeWrites(d, ws, m, after);
    if m >= 1 { SaveIsOpening(d, d, ws[0].checkpoint, d1); }
    if m >= 2 { StartIsOpening(d, d1, ws[1].event, d2, step.id); }
    if m >= 3 { SaveIsOpening(d, d2, ws[2].checkpoint, after); }
  }

  lemma NotStarted(d: Disk, stage: string)
    requires Ordered(d.events) && stage !in d.checkpoints
    ensures Opening(d, d, stage)
  {
  }

  /** The opening of a stage whose start is in the log but which has no checkpoint. */
  lemma AdoptedOpeningCut(d: Disk, step: Step, kind: EventKind, snapshot: Snapshot, m: nat, after: Disk)
    requires Ordered(d.events) && kind.IsTerminal() && step.id !in d.checkpoints && OpenStart(d.events, step.id).Some?
    requires m <= 2 && PerformAll(d, OpeningProgram(d, step, kind, snapshot)[..m]) == Some(after)
    ensures Opening(d, after, step.id) && (m == 2 ==> OpenAt(after, step.id)) && after.events == d.events
  {
    hide SaveError, Opening, OpenAt, OpenStart;
    var ws := OpeningProgram(d, step, kind, snapshot);
    OpenStartIsOpen(d.events, step.id);
    NotStarted(d, step.id);
    if m >= 1 {
      if m >= 2 { OneMoreWrite(d, ws, 1); }
      OneMoreWrite(d, ws, 0);
      var d1 := PerformAll(d, ws[..1]).value;
      SaveIsOpening(d, d, ws[0].checkpoint, d1);
      if m >= 2 { SaveIsOpening(d, d1, ws[1].checkpoint, after); }
    }
  }

  /** Up to the transition's own event a recording leaves its stage open, or without a checkpoint. */
  lemma OpeningCut(d: Disk, step: Step, kind: EventKind, snapshot: Snapshot, m: nat, after: Disk)
    requires WellFormed(d) && Untouched(d, step.id) && RecordRefusal(d, Some(Run(Some(snapshot))), step, kind).None?
    requires m <= |OpeningProgram(d, step, kind, snapshot)|
    requires PerformAll(d, OpeningProgram(d, step, kind, snapshot)[..m]) == Some(after)
    ensures Opening(d, after, step.id)
    ensures m == |OpeningProgram(d, step, kind, snapshot)| ==>
      OpenAt(after, step.id) && LastSequence(after.events) + 1 == TransitionSequence(d, step, kind)
  {
    hide SaveError, OpenStart;
    var ws := OpeningProgram(d, step, kind, snapshot);
    if kind.StageStarted? {
      OrderedIsBounded(d.events);
      NotStarted(d, step.id);
      if m == 1 {
        OneMoreWrite(d, ws, 0);
        SaveIsOpening(d, d, ws[0].checkpoint, after);
      }
    } else if step.id !in d.checkpoints {
      if OpenStart(d.events, step.id).Some? {
        AdoptedOpeningCut(d, step, kind, snapshot, m, after);
      } else {
        FreshOpeningCut(d, step, kind, snapshot, m, after);
      }
    }
  }

  /** A stage whose terminal event is logged but not yet saved. */
  ghost predicate EndedAt(d: Disk, stage: string, kind: EventKind) {
    && stage in d.checkpoints && d.checkpoints[stage].stage == stage
    && (d.checkpoints[stage].status.Prepared? || d.checkpoints[stage].status.Executing?)
    && TerminalAfter(d.events, stage, d.checkpoints[stage].cursor).Some?
    && TerminalAfter(d.events, stage, d.checkpoints[stage].cursor).value.kind == kind
  }

  ghost predicate SettledAt(d: Disk, stage: string, kind: EventKind) {
    && stage in d.checkpoints && d.checkpoints[stage].stage == stage
    && d.checkpoints[stage].status == (if kind.StageCompleted? then Committed else NeedsReconciliation)
  }

  /** The end of a recording, cut after m writes, from a disk where its stage is open. */
  lemma ClosingCut(d: Disk, step: Step, kind: EventKind, base: StageCheckpoint, m: nat, after: Disk)
    requires OpenAt(d, step.id) && base.stage == step.id && kind.IsTransition() && m <= 3
    requires PerformAll(d, Closing(base, step, kind, LastSequence(d.events) + 1)[..m]) == Some(after)
    ensures m == 0 ==> after == d
    ensures m > 0 ==> Logged(d, after, step.id, kind)
    ensures m > 0 && kind.StageStarted? ==> OpenAt(after, step.id)
    ensures m > 0 && kind.IsTerminal() ==> EndedAt(after, step.id, kind) || SettledAt(after, step.id, kind)
  {
    hide SaveError, PerformAll, OpenAt, EndedAt, Ordered;
    var ws := Closing(base, step, kind, LastSequence(d.events) + 1);
    var d1, d2 := ThreeWrites(d, ws, m, after);
    if m >= 1 { TransitionLogged(d, step, kind, d1); }
    if m >= 2 {
      assert d2.events == d1.events;
      if kind.StageStarted? {
        LogIsNonNegative(d1.events);
        SaveOpens(d1, ws[1].checkpoint);
      }
    }
    if m >= 3 { AppendKeepsOpen(d2, ws[2].event, step.id); }
  }

  lemma LogIsNonNegative(events: seq<RunEvent>)
    requires Ordered(events)
    ensures LastSequence(events) >= 0
  {
  }

  /** The stage's transition was appended, followed at most by audit events. */
  ghost predicate Logged(d: Disk, after: Disk, stage: string, kind: EventKind) {
    && d.events < after.events
    && after.events[|d.events|].kind == kind && after.events[|d.events|].stage == stage
    && forall i :: |d.events| < i < |after.events| ==> !after.events[i].kind.IsTransition()
  }

  lemma TransitionLogged(d: Disk, step: Step, kind: EventKind, after: Disk)
    requires OpenAt(d, step.id) && kind.IsTransition() && Perform(d, Append(StageEvent(step, kind))) == Some(after)
    ensures Ordered(after.events) && after.checkpoints == d.checkpoints && LastSequence(after.events) == LastSequence(d.events) + 1
    ensures if kind.StageStarted? then OpenAt(after, step.id) else EndedAt(after, step.id, kind)
  {
    TerminalAfterAppend(d.events, after.events[|d.events|], step.id, d.checkpoints[step.id].cursor);
  }

  lemma OpenEndsCompensated(d: Disk, stage: string, a: StageRestore, effects: seq<ToolEffect>, snapshot: Snapshot)
    requires OpenAt(d, stage) && PlanItem(d.checkpoints[stage], snapshot, d.events, effects) == Ok(a)
    ensures Outcome(a).status.Compensated?
  {
    PlanPredicts(a, snapshot, d.events, effects);
  }

  /** A cut of a recording falls into its opening or into its closing. */
  lemma SplitRecording(d: Disk, step: Step, kind: EventKind, snapshot: Snapshot, k: nat, after: Disk) returns (middle: Disk)
    requires kind.IsTransition() && k <= |RecordProgram(d, step, kind, snapshot)|
    requires PerformAll(d, RecordProgram(d, step, kind, snapshot)[..k]) == Some(after)
    ensures var opening, closing := OpeningProgram(d, step, kind, snapshot), ClosingProgram(d, step, kind, snapshot);
      if k <= |opening| then PerformAll(d, opening[..k]) == Some(after)
      else PerformAll(d, opening) == Some(middle) && PerformAll(middle, closing[..k - |opening|]) == Some(after)
  {
    hide OpeningProgram, ClosingProgram, Perform;
    var opening, closing := OpeningProgram(d, step, kind, snapshot), ClosingProgram(d, step, kind, snapshot);
    var program := RecordProgram(d, step, kind, snapshot);
    middle := d;
    if k <= |opening| {
      assert program[..k] == opening[..k];
    } else {
      var m := k - |opening|;
      assert program[..k] == opening + closing[..m];
      PrefixPerforms(d, opening, closing[..m]);
      middle := PerformAll(d, opening).value;
      PerformBoth(d, opening, closing[..m]);
    }
  }

  /**
    Cut the recording of a start or of an end at any write, with or without a checkpoint beforehand. If the
    stage has a checkpoint and the plan is accepted, the restore commits the stage exactly when the recording
    had already appended the stage's completion, and compensates it otherwise.
   */
  lemma CutRecordingIsRestored(d: Disk, step: Step, kind: EventKind, snapshot: Snapshot, k: nat, after: Disk,
                               current: Snapshot, effects: seq<ToolEffect>, a: StageRestore)
    requires WellFormed(d) && Untouched(d, step.id) && RecordRefusal(d, Some(Run(Some(snapshot))), step, kind).None?
    requires k <= |RecordProgram(d, step, kind, snapshot)|
    requires PerformAll(d, RecordProgram(d, step, kind, snapshot)[..k]) == Some(after)
    requires step.id in after.checkpoints && PlanItem(after.checkpoints[step.id], current, after.events, effects) == Ok(a)
    ensures if CompletedSince(d, after, step.id) then Outcome(a).status.Committed? else Outcome(a).status.Compensated?
  {
    PlanKeepsItem(after.checkpoints[step.id], current, after.events, effects, a);
    hide PlanItem, OpeningProgram, PerformAll, OpenAt, EndedAt, SettledAt;
    PlanPredicts(a, current, after.events, effects);
    var middle := SplitRecording(d, step, kind, snapshot, k, after);
    var opening := OpeningProgram(d, step, kind, snapshot);
    assert opening[..|opening|] == opening;
    if k <= |opening| {
      OpeningCut(d, step, kind, snapshot, k, after);
      OpenEndsCompensated(after, step.id, a, effects, current);
    } else {
      OpeningCut(d, step, kind, snapshot, |opening|, middle);
      ClosingCut(middle, step, kind, BaseCheckpoint(d, step, snapshot), k - |opening|, after);
      CompletionIsLogged(d, middle, after, step.id, kind);
      if kind.StageStarted? {
        OpenEndsCompensated(after, step.id, a, effects, current);
      } else {
        EndIsRestored(after, step.id, kind, a, effects, current);
      }
    }
  }

  lemma PlanKeepsItem(item: StageCheckpoint, snapshot: Snapshot, events: seq<RunEvent>, effects: seq<ToolEffect>, a: StageRestore)
    requires PlanItem(item, snapshot, events, effects) == Ok(a)
    ensures a.checkpoint == item
  {
  }

  lemma CompletionIsLogged(d: Disk, middle: Disk, after: Disk, stage: string, kind: EventKind)
    requires Opening(d, middle, stage) && Logged(middle, after, stage, kind)
    ensures CompletedSince(d, after, stage) <==> kind.StageCompleted?
  {
    hide OpenAt, Ordered;
    var i := |middle.events|;
    assert after.events[i].kind == kind;
    assert forall j :: |d.events| <= j < i ==> after.events[j] == middle.events[j];
  }

  lemma EndIsRestored(d: Disk, stage: string, kind: EventKind, a: StageRestore, effects: seq<ToolEffect>, snapshot: Snapshot)
    requires kind.IsTerminal() && (EndedAt(d, stage, kind) || SettledAt(d, stage, kind))
    requires PlanItem(d.checkpoints[stage], snapshot, d.events, effects) == Ok(a)
    ensures if kind.StageCompleted? then Outcome(a).status.Committed? else Outcome(a).status.Compensated?
  {
    PlanPredicts(a, snapshot, d.events, effects);
  }

  /** A start recorded to the end leaves the stage ready for the recording of its end. */
  lemma StartLeavesUntouched(d: Disk, step: Step, snapshot: Snapshot, after: Disk)
    requires WellFormed(d) && RecordRefusal(d, Some(Run(Some(snapshot))), step, StageStarted).None?
    requires PerformAll(d, RecordProgram(d, step, StageStarted, snapshot)) == Some(after)
    ensures step.id in after.checkpoints && after.checkpoints[step.id].status.Executing? && Untouched(after, step.id)
  {
    hide SaveError, PerformAll, OpenAt, Ordered;
    var program := RecordProgram(d, step, StageStarted, snapshot);
    var opening := OpeningProgram(d, step, StageStarted, snapshot);
    assert program[..|program|] == program && opening[..|opening|] == opening;
    var middle := SplitRecording(d, step, StageStarted, snapshot, |program|, after);
    OpeningCut(d, step, StageStarted, snapshot, |opening|, middle);
    ClosingCut(middle, step, StageStarted, BaseCheckpoint(d, step, snapshot), 3, after);
    var closing := ClosingProgram(d, step, StageStarted, snapshot);
    assert closing[..3] == closing;
    var d1, d2 := ThreeWrites(middle, closing, 3, after);
    OpenIsUntouched(after, step.id);
  }

  lemma OpenIsUntouched(d: Disk, stage: string)
    requires OpenAt(d, stage) && d.checkpoints[stage].status.Executing?
    ensures Untouched(d, stage)
  {
  }
}
