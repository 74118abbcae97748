/** The checkpoint provider itself: each method performs its writes one by one on a store that may fail. */
module CheckpointProvider {
  import opened Results
  import opened Checkpoint
  import Text

  /** The first k writes of the program were performed, and nothing else. */
  ghost predicate Interrupted(before: Disk, program: seq<Write>, k: nat, after: Disk) {
    k <= |program| && PerformAll(before, program[..k]) == Some(after)
  }

  lemma Start(before: Disk, program: seq<Write>)
    ensures Interrupted(before, program, 0, before)
  {
  }

  lemma Advance(before: Disk, program: seq<Write>, k: nat, middle: Disk, after: Disk)
    requires Interrupted(before, program, k, middle)
    requires k < |program| && Perform(middle, program[k]) == Some(after)
    ensures Interrupted(before, program, k + 1, after)
  {
    assert program[..k + 1][..k] == program[..k];
  }

  /**
    A method with answer r stopped after k writes of its program. It went all the way exactly if it
    succeeded; otherwise the next write met an outage or was refused by the store.
   */
  ghost predicate Reached(before: Disk, outages: seq<bool>, program: seq<Write>, failure: Option<StoreError>, k: nat, store: Store)
    reads store
  {
    && Interrupted(before, program, k, store.Contents())
    && (failure.None? <==> k == |program|)
    && store.outages == Drop(outages, if failure.None? then k else k + 1)
    && (failure == Some(Unavailable) ==> k < |outages| && outages[k])
    && (failure.Some? && failure != Some(Unavailable) ==> Perform(store.Contents(), program[k]).None?)
  }

  /** The event a failed compensation may leave behind. */
  ghost predicate IsNote(note: seq<Write>) {
    note == [] || (|note| == 1 && note[0].Append? && note[0].event.kind.CompensationFailed?)
  }

  /** As `Reached`, for a restore: a failed compensation may append its note after the first k writes. */
  ghost predicate RestoreReached(before: Disk, outages: seq<bool>, program: seq<Write>, failure: Option<StoreError>, k: nat,
                                 note: seq<Write>, store: Store)
    reads store
  {
    && k <= |program|
    && PerformAll(before, program[..k]).Some?
    && PerformAll(before, program[..k] + note) == Some(store.Contents())
    && IsNote(note)
    && (failure.None? <==> k == |program|)
    && (failure.None? ==> note == [] && store.outages == Drop(outages, k))
    && (failure == Some(Unavailable) ==> k < |outages| && outages[k])
    && (failure.Some? && failure != Some(Unavailable) ==> Perform(PerformAll(before, program[..k]).value, program[k]).None?)
  }

  lemma NoteKeeps(before: Disk, done: seq<Write>, note: seq<Write>, after: Disk)
    requires PerformAll(before, done).Some? && PerformAll(PerformAll(before, done).value, note) == Some(after)
    ensures PerformAll(before, done + note) == Some(after)
  {
    PerformBoth(before, done, note);
  }

  ghost function ErrorOf<T, E>(r: Result<T, E>): Option<E> {
    match r
    case Ok(_) => None
    case Err(error) => Some(error)
  }

  /** The fields a recording never rewrites before its settling save. */
  ghost predicate SameButForProgress(c: StageCheckpoint, base: StageCheckpoint) {
    c.(cursor := 0, status := Prepared) == base.(cursor := 0, status := Prepared)
  }

  lemma ClosingOf(d: Disk, step: Step, kind: EventKind, snapshot: Snapshot, c: StageCheckpoint)
    requires kind.IsTransition() && SameButForProgress(c, BaseCheckpoint(d, step, snapshot))
    ensures Closing(c, step, kind, TransitionSequence(d, step, kind)) == ClosingProgram(d, step, kind, snapshot)
  {
  }

  /** The log has a start of the stage that none of the stage's transitions follows. */
  ghost predicate IsStarted(events: seq<RunEvent>, stage: string) {
    exists i :: StartsAt(events, stage, i)
  }

  ghost predicate StartsAt(events: seq<RunEvent>, stage: string, i: int) {
    && 0 <= i < |events| && events[i].stage == stage && events[i].kind.StageStarted?
    && forall j :: i < j < |events| && events[j].stage == stage ==> !events[j].kind.IsTransition()
  }

  /** Whether recording the end of a stage must first log a start for it. */
  ghost predicate NeedsStart(d: Disk, step: Step, kind: EventKind) {
    !kind.StageStarted? && step.id !in d.checkpoints && !IsStarted(d.events, step.id)
  }

  /** The checkpoint of a stage whose transition was the given event. */
  ghost predicate Describes(c: StageCheckpoint, step: Step, kind: EventKind, snapshot: Snapshot, sequence: int) {
    && c.provider == INTERNAL_STATE_PROVIDER && c.stage == step.id && c.cursor == sequence
    && c.inputHash == DigestOf(step.input) && c.snapshotHash == DigestOf(snapshot.body) && c.toolsHash == DigestOf(snapshot.tools)
    && c.outputHash == (if kind.StageCompleted? then DigestOf(step.output) else NoDigest)
    && c.error == (if kind.StageFailed? || kind.StageCanceled? then Text.TrimSpace(step.error) else "")
    && (kind.StageStarted? ==> c.status.Executing?)
    && (kind.StageCompleted? ==> c.status.Committed?)
    && (kind.StageFailed? || kind.StageCanceled? ==> c.status.NeedsReconciliation?)
  }

  /** What a whole recording leaves: a start if one was missing, its event, the audit event, and one new checkpoint. */
  ghost predicate Recorded(before: Disk, step: Step, kind: EventKind, snapshot: Snapshot, e: RunEvent, after: Disk) {
    && var n := |before.events| + if NeedsStart(before, step, kind) then 1 else 0;
    && |after.events| == n + 2 && before.events <= after.events
    && (n > |before.events| ==> after.events[|before.events|].kind.StageStarted? && after.events[|before.events|].stage == step.id)
    && after.events[n] == e && e.kind == kind && e.stage == step.id && e.output == step.output && e.error == step.error
    && e.sequence == LastSequence(before.events) + 1 + n - |before.events|
    && after.checkpoints.Keys == before.checkpoints.Keys + {step.id}
    && (forall s :: s in before.checkpoints && s != step.id ==> after.checkpoints[s] == before.checkpoints[s])
    && Describes(after.checkpoints[step.id], step, kind, snapshot, e.sequence)
    && after.events[n + 1].kind.CheckpointCaptured? && after.events[n + 1].stage == step.id
    && after.events[n + 1].about == Some(after.checkpoints[step.id])
  }

  lemma {:induction false} OpenStartExactly(events: seq<RunEvent>, stage: string)
    ensures OpenStart(events, stage).Some? <==> IsStarted(events, stage)
    ensures OpenStart(events, stage).Some? ==>
      exists i :: StartsAt(events, stage, i) && OpenStart(events, stage).value == events[i]
  {
    if events != [] {
      var n := |events| - 1;
      var rest := events[..n];
      OpenStartExactly(rest, stage);
      if events[n].stage == stage && events[n].kind.IsTransition() {
        assert events[n].kind.StageStarted? ==> StartsAt(events, stage, n);
        assert forall i :: StartsAt(events, stage, i) ==> i == n;
      } else {
        assert forall i :: StartsAt(events, stage, i) ==> StartsAt(rest, stage, i);
        assert forall i :: StartsAt(rest, stage, i) ==> StartsAt(events, stage, i);
      }
    }
  }

  lemma OneMoreWrite(d: Disk, ws: seq<Write>, m: nat)
    requires m < |ws| && PerformAll(d, ws[..m + 1]).Some?
    ensures PerformAll(d, ws[..m]).Some?
    ensures Perform(PerformAll(d, ws[..m]).value, ws[m]) == PerformAll(d, ws[..m + 1])
  {
    assert ws[..m + 1][..m] == ws[..m];
  }

  /** The disks between the first m of three writes. */
  lemma ThreeWrites(d: Disk, ws: seq<Write>, m: nat, after: Disk) returns (d1: Disk, d2: Disk)
    requires |ws| == 3 && m <= 3 && PerformAll(d, ws[..m]) == Some(after)
    ensures m == 0 ==> after == d
    ensures m >= 1 ==> Perform(d, ws[0]) == Some(d1)
    ensures m >= 2 ==> Perform(d1, ws[1]) == Some(d2)
    ensures m == 1 ==> after == d1
    ensures m == 2 ==> after == d2
    ensures m == 3 ==> Perform(d2, ws[2]) == Some(after)
  {
    hide Perform;
    d1, d2 := d, d;
    if m >= 3 { OneMoreWrite(d, ws, 2); }
    if m >= 2 {
      OneMoreWrite(d, ws, 1);
      d2 := PerformAll(d, ws[..2]).value;
    }
    if m >= 1 {
      OneMoreWrite(d, ws, 0);
      d1 := PerformAll(d, ws[..1]).value;
    }
  }

  lemma PrefixPerforms(d: Disk, first: seq<Write>, second: seq<Write>)
    requires PerformAll(d, first + second).Some?
    ensures PerformAll(d, first).Some?
  {
    if second == [] {
      assert first + second == first;
    } else {
      assert (first + second)[..|first + second| - 1] == first + second[..|second| - 1];
      PrefixPerforms(d, first, second[..|second| - 1]);
    }
  }

  /** A stage's own writes: its start at most once, and saves of its checkpoint. */
  ghost predicate Opens(before: Disk, step: Step, started: bool, middle: Disk) {
    && middle.events == before.events + (if started then [StageEvent(step, StageStarted).(sequence := LastSequence(before.events) + 1)] else [])
    && middle.checkpoints.Keys == before.checkpoints.Keys + {step.id}
    && forall s :: s in before.checkpoints && s != step.id ==> middle.checkpoints[s] == before.checkpoints[s]
  }

  lemma SaveOnly(before: Disk, step: Step, started: bool, middle: Disk, c: StageCheckpoint, after: Disk)
    requires Opens(before, step, started, middle) || (middle == before && !started)
    requires c.stage == step.id && Perform(middle, Save(c)) == Some(after)
    ensures Opens(before, step, started, after)
  {
    hide SaveError;
  }

  lemma AdoptedOpening(before: Disk, step: Step, kind: EventKind, snapshot: Snapshot, middle: Disk)
    requires kind.IsTerminal() && step.id !in before.checkpoints && OpenStart(before.events, step.id).Some?
    requires PerformAll(before, OpeningProgram(before, step, kind, snapshot)) == Some(middle)
    ensures Opens(before, step, false, middle)
  {
    hide SaveError, OpenStart, Perform, Opens;
    var ws := OpeningProgram(before, step, kind, snapshot);
    assert ws[..2] == ws;
    OneMoreWrite(before, ws, 1);
    OneMoreWrite(before, ws, 0);
    var d1 := PerformAll(before, ws[..1]).value;
    SaveOnly(before, step, false, before, ws[0].checkpoint, d1);
    SaveOnly(before, step, false, d1, ws[1].checkpoint, middle);
  }

  lemma FreshOpening(before: Disk, step: Step, kind: EventKind, snapshot: Snapshot, middle: Disk)
    requires kind.IsTerminal() && step.id !in before.checkpoints && OpenStart(before.events, step.id).None?
    requires PerformAll(before, OpeningProgram(before, step, kind, snapshot)) == Some(middle)
    ensures Opens(before, step, true, middle)
  {
    hide SaveError, OpenStart, PerformAll, StageEvent;
    var ws := OpeningProgram(before, step, kind, snapshot);
    assert ws[..3] == ws;
    var d1, d2 := ThreeWrites(before, ws, 3, middle);
    SaveOnly(before, step, false, before, ws[0].checkpoint, d1);
    SaveOnly(before, step, true, d2, ws[2].checkpoint, middle);
  }

  /** Everything written before a recording's own event concerns its stage alone. */
  lemma OpeningLeaves(before: Disk, step: Step, kind: EventKind, snapshot: Snapshot, middle: Disk)
    requires kind.IsTransition() && PerformAll(before, OpeningProgram(before, step, kind, snapshot)) == Some(middle)
    ensures Opens(before, step, NeedsStart(before, step, kind), middle)
    ensures TransitionSequence(before, step, kind) == LastSequence(middle.events) + 1
  {
    hide SaveError, OpenStart, IsStarted;
    OpenStartExactly(before.events, step.id);
    if kind.StageStarted? {
      var ws := OpeningProgram(before, step, kind, snapshot);
      assert ws[..1] == ws;
      OneMoreWrite(before, ws, 0);
    } else if step.id !in before.checkpoints {
      if OpenStart(before.events, step.id).Some? {
        AdoptedOpening(before, step, kind, snapshot, middle);
      } else {
        FreshOpening(before, step, kind, snapshot, middle);
      }
    }
  }

  /** What the last three writes of a recording leave. */
  ghost predicate Closes(middle: Disk, step: Step, kind: EventKind, snapshot: Snapshot, e: RunEvent, after: Disk) {
    && step.id in after.checkpoints && Describes(after.checkpoints[step.id], step, kind, snapshot, e.sequence)
    && after.checkpoints == middle.checkpoints[step.id := after.checkpoints[step.id]]
    && |after.events| == |middle.events| + 2 && middle.events <= after.events && after.events[|middle.events|] == e
    && after.events[|middle.events| + 1].kind.CheckpointCaptured? && after.events[|middle.events| + 1].stage == step.id
    && after.events[|middle.events| + 1].about == Some(after.checkpoints[step.id])
  }

  lemma SettledDescribes(before: Disk, step: Step, kind: EventKind, snapshot: Snapshot, sequence: int)
    requires kind.IsTransition()
    ensures Describes(SettledCheckpoint(BaseCheckpoint(before, step, snapshot), step, kind, sequence), step, kind, snapshot, sequence)
  {
  }

  lemma ClosingLeaves(before: Disk, step: Step, kind: EventKind, snapshot: Snapshot, middle: Disk, after: Disk)
    requires kind.IsTransition()
    requires PerformAll(middle, ClosingProgram(before, step, kind, snapshot)) == Some(after)
    requires TransitionSequence(before, step, kind) == LastSequence(middle.events) + 1
    ensures Closes(middle, step, kind, snapshot, StageEvent(step, kind).(sequence := TransitionSequence(before, step, kind)), after)
  {
    hide SaveError, TransitionSequence, SettledCheckpoint, BaseCheckpoint, PerformAll, Describes;
    SettledDescribes(before, step, kind, snapshot, TransitionSequence(before, step, kind));
    ClosingStage(before, step, kind, snapshot);
    var ws := ClosingProgram(before, step, kind, snapshot);
    assert ws[..3] == ws;
    var d1, d2 := ThreeWrites(middle, ws, 3, after);
  }

  lemma ClosingStage(before: Disk, step: Step, kind: EventKind, snapshot: Snapshot)
    requires kind.IsTransition()
    ensures SettledCheckpoint(BaseCheckpoint(before, step, snapshot), step, kind, TransitionSequence(before, step, kind)).stage == step.id
  {
  }

  /** A recording that performs all its writes leaves what it says of the stage, and touches no other. */
  lemma RecordedInFull(before: Disk, step: Step, kind: EventKind, snapshot: Snapshot, after: Disk)
    requires kind.IsTransition() && PerformAll(before, RecordProgram(before, step, kind, snapshot)) == Some(after)
    ensures Recorded(before, step, kind, snapshot, StageEvent(step, kind).(sequence := TransitionSequence(before, step, kind)), after)
  {
    hide OpeningProgram, ClosingProgram, Perform, NeedsStart, TransitionSequence, PerformAll, Describes;
    var opening, closing := OpeningProgram(before, step, kind, snapshot), ClosingProgram(before, step, kind, snapshot);
    PrefixPerforms(before, opening, closing);
    PerformBoth(before, opening, closing);
    var middle := PerformAll(before, opening).value;
    OpeningLeaves(before, step, kind, snapshot, middle);
    ClosingLeaves(before, step, kind, snapshot, middle, after);
  }

  lemma ReachedInFull(before: Disk, outages: seq<bool>, step: Step, kind: EventKind, snapshot: Snapshot, k: nat, store: Store)
    requires kind.IsTransition() && Reached(before, outages, RecordProgram(before, step, kind, snapshot), None, k, store)
    ensures var e := StageEvent(step, kind).(sequence := TransitionSequence(before, step, kind));
      Recorded(before, step, kind, snapshot, e, store.Contents())
  {
    hide RecordProgram, PerformAll, Recorded;
    var program := RecordProgram(before, step, kind, snapshot);
    assert program[..k] == program;
    RecordedInFull(before, step, kind, snapshot, store.Contents());
  }

  ghost function CauseOf<T>(r: Result<T, Failure>): Option<StoreError> {
    match r
    case Ok(_) => None
    case Err(StoreFailed(cause)) => Some(cause)
    case Err(_) => Some(Incomplete)
  }

  lemma {:induction false} PerformBoth(d: Disk, first: seq<Write>, second: seq<Write>)
    requires PerformAll(d, first).Some?
    ensures PerformAll(d, first + second) == PerformAll(PerformAll(d, first).value, second)
  {
    if second == [] {
      assert first + second == first;
    } else {
      var rest := second[..|second| - 1];
      assert (first + second)[..|first + second| - 1] == first + rest;
      PerformBoth(d, first, rest);
    }
  }

  lemma ReachedPrefix(before: Disk, outages: seq<bool>, first: seq<Write>, second: seq<Write>, failure: Option<StoreError>, k: nat, store: Store)
    requires failure.Some? && Reached(before, outages, first, failure, k, store)
    ensures Reached(before, outages, first + second, failure, k, store)
  {
    assert (first + second)[..k] == first[..k];
  }

  lemma ReachedBoth(before: Disk, outages: seq<bool>, first: seq<Write>, middle: Disk, left: seq<bool>,
                   second: seq<Write>, failure: Option<StoreError>, i: nat, j: nat, store: Store)
    requires i == |first| && Interrupted(before, first, i, middle) && left == Drop(outages, i)
    requires Reached(middle, left, second, failure, j, store)
    ensures Reached(before, outages, first + second, failure, i + j, store)
  {
    hide PerformAll, Perform;
    assert first[..i] == first;
    assert (first + second)[..i + j] == first + second[..j];
    PerformBoth(before, first, second[..j]);
  }

  lemma NothingDone(before: Disk, outages: seq<bool>, store: Store)
    requires store.Contents() == before && store.outages == outages
    ensures Reached(before, outages, [], None, 0, store)
  {
  }

  lemma OneAppend(before: Disk, outages: seq<bool>, event: RunEvent, failure: Option<StoreError>, store: Store)
    requires store.outages == Drop(outages, 1)
    requires failure.None? ==> Perform(before, Append(event)) == Some(store.Contents())
    requires failure.Some? ==> failure == Some(Unavailable) && outages != [] && outages[0] && store.Contents() == before
    ensures Reached(before, outages, [Append(event)], failure, if failure.None? then 1 else 0, store)
  {
    assert [Append(event)][..0] == [] && [Append(event)][..1] == [Append(event)];
  }

  lemma WithoutNote(before: Disk, outages: seq<bool>, program: seq<Write>, failure: Option<StoreError>, k: nat, store: Store)
    requires Reached(before, outages, program, failure, k, store)
    ensures RestoreReached(before, outages, program, failure, k, [], store)
  {
    assert program[..k] + [] == program[..k];
  }

  lemma RestoreReachedBoth(before: Disk, outages: seq<bool>, first: seq<Write>, middle: Disk, left: seq<bool>,
                           second: seq<Write>, failure: Option<StoreError>, i: nat, j: nat, note: seq<Write>, store: Store)
    requires i == |first| && Interrupted(before, first, i, middle) && left == Drop(outages, i)
    requires RestoreReached(middle, left, second, failure, j, note, store)
    ensures RestoreReached(before, outages, first + second, failure, i + j, note, store)
  {
    hide PerformAll, Perform;
    assert first[..i] == first;
    assert (first + second)[..i + j] == first + second[..j];
    PerformBoth(before, first, second[..j]);
    assert first + second[..j] + note == first + (second[..j] + note);
    PerformBoth(before, first, second[..j] + note);
  }

  lemma RestoreReachedPrefix(before: Disk, outages: seq<bool>, first: seq<Write>, second: seq<Write>, failure: Option<StoreError>,
                             k: nat, note: seq<Write>, store: Store)
    requires failure.Some? && RestoreReached(before, outages, first, failure, k, note, store)
    ensures RestoreReached(before, outages, first + second, failure, k, note, store)
  {
    assert (first + second)[..k] == first[..k];
  }

  lemma WithNoNote(before: Disk, outages: seq<bool>, program: seq<Write>, k: nat, store: Store)
    requires RestoreReached(before, outages, program, None, k, [], store)
    ensures Reached(before, outages, program, None, k, store)
  {
    assert program[..k] + [] == program[..k];
  }

  /** The part of a plan's program after its first i actions. */
  ghost function RestoreTail(plan: seq<StageRestore>, i: nat): seq<Write>
    requires i <= |plan|
    decreases |plan| - i
  {
    if i == |plan| then [] else StageProgram(plan[i]) + RestoreTail(plan, i + 1)
  }

  lemma {:induction false} ProgramSplits(plan: seq<StageRestore>, i: nat)
    requires i <= |plan|
    ensures RestoreProgram(plan) == RestoreProgram(plan[..i]) + RestoreTail(plan, i)
    decreases |plan| - i
  {
    hide StageProgram;
    if i == |plan| {
      assert plan[..i] == plan;
    } else {
      ProgramSplits(plan, i + 1);
      assert plan[..i + 1][..i] == plan[..i];
    }
  }

  /** Extends an interrupted plan by its next action, whether or not that action completes. */
  lemma OneMoreAction(before: Disk, outages: seq<bool>, plan: seq<StageRestore>, i: nat, middle: Disk, left: seq<bool>,
                      failure: Option<StoreError>, k: nat, j: nat, note: seq<Write>, store: Store)
    requires i < |plan| && k == |RestoreProgram(plan[..i])|
    requires Interrupted(before, RestoreProgram(plan[..i]), k, middle) && left == Drop(outages, k)
    requires RestoreReached(middle, left, StageProgram(plan[i]), failure, j, note, store)
    ensures failure.None? ==> Reached(before, outages, RestoreProgram(plan[..i + 1]), None, k + j, store)
    ensures failure.Some? ==> RestoreReached(before, outages, RestoreProgram(plan), failure, k + j, note, store)
  {
    hide PerformAll, Perform, StageProgram;
    assert plan[..i + 1][..i] == plan[..i];
    var program := RestoreProgram(plan[..i + 1]);
    assert program == RestoreProgram(plan[..i]) + StageProgram(plan[i]);
    RestoreReachedBoth(before, outages, RestoreProgram(plan[..i]), middle, left, StageProgram(plan[i]), failure, k, j, note, store);
    if failure.None? {
      WithNoNote(before, outages, program, k + j, store);
    } else {
      ProgramSplits(plan, i + 1);
      RestoreReachedPrefix(before, outages, program, RestoreTail(plan, i + 1), failure, k + j, note, store);
    }
  }

  lemma PlannedIsApplicable(a: StageRestore, snapshot: Snapshot, events: seq<RunEvent>, effects: seq<ToolEffect>)
    requires PlanItem(a.checkpoint, snapshot, events, effects) == Ok(a)
    ensures Applicable(a)
  {
    TerminalAfterIsOne(events, a.checkpoint.stage, a.checkpoint.cursor);
  }

  lemma {:induction false} TerminalAfterIsOne(events: seq<RunEvent>, stage: string, cursor: int)
    ensures var t := TerminalAfter(events, stage, cursor); t.Some? ==> t.value in events && TerminalOf(t.value, stage, cursor)
  {
    if events != [] {
      TerminalAfterIsOne(events[1..], stage, cursor);
    }
  }

  /** The event completes, fails or cancels the stage after the cursor. */
  predicate EndsAfter(e: RunEvent, stage: string, cursor: int) {
    e.stage == stage && e.sequence > cursor && (e.kind.StageCompleted? || e.kind.StageFailed? || e.kind.StageCanceled?)
  }

  ghost predicate FirstEnd(events: seq<RunEvent>, stage: string, cursor: int, i: int) {
    0 <= i < |events| && EndsAfter(events[i], stage, cursor) && forall j :: 0 <= j < i ==> !EndsAfter(events[j], stage, cursor)
  }

  lemma {:induction false} TerminalAfterExactly(events: seq<RunEvent>, stage: string, cursor: int)
    ensures var r := TerminalAfter(events, stage, cursor);
      if r.None? then forall i :: 0 <= i < |events| ==> !EndsAfter(events[i], stage, cursor)
      else exists i :: FirstEnd(events, stage, cursor, i) && r.value == events[i]
  {
    if events != [] {
      TerminalAfterExactly(events[1..], stage, cursor);
      if TerminalAfter(events, stage, cursor).None? {
        forall i | 0 <= i < |events| ensures !EndsAfter(events[i], stage, cursor) {
          if i > 0 { assert events[i] == events[1..][i - 1]; }
        }
      } else if !TerminalOf(events[0], stage, cursor) {
        var k :| FirstEnd(events[1..], stage, cursor, k) && TerminalAfter(events, stage, cursor).value == events[1..][k];
        assert forall j :: 0 < j < k + 1 ==> events[j] == events[1..][j - 1];
        assert FirstEnd(events, stage, cursor, k + 1);
      } else {
        assert FirstEnd(events, stage, cursor, 0);
      }
    }
  }

  function EffectsOf(effects: seq<ToolEffect>, stage: string): seq<ToolEffect> {
    if effects == [] then []
    else
      var last := effects[|effects| - 1];
      EffectsOf(effects[..|effects| - 1], stage) + if last.stage == stage then [last] else []
  }

  lemma {:induction false} OwnEffects(effects: seq<ToolEffect>, stage: string)
    ensures forall e :: e in EffectsOf(effects, stage) <==> e in effects && e.stage == stage
  {
    if effects != [] {
      var rest := effects[..|effects| - 1];
      OwnEffects(rest, stage);
      assert effects == rest + [effects[|effects| - 1]];
    }
  }

  lemma PlanFromOwnEffects(item: StageCheckpoint, events: seq<RunEvent>, effects: seq<ToolEffect>)
    ensures PlanStage(item, events, EffectsOf(effects, item.stage)) == PlanStage(item, events, effects)
  {
    OwnEffects(effects, item.stage);
    assert HasCommittedEffect(EffectsOf(effects, item.stage), item.stage) == HasCommittedEffect(effects, item.stage);
    assert HasUncertainEffect(EffectsOf(effects, item.stage), item.stage) == HasUncertainEffect(effects, item.stage);
  }

  datatype RestoreReport = RestoreReport(committed: seq<string>, compensated: seq<string>)

  function Drop<T>(s: seq<T>, n: nat): seq<T> {
    if n <= |s| then s[n..] else []
  }

  /** The stage was committed, or the log says that it was completed. */
  predicate EndsCommitted(a: StageRestore) {
    a.checkpoint.status.Committed? || (a.terminal.Some? && a.terminal.value.kind.StageCompleted?)
  }

  /** The report names every planned stage once: the committed ones in the one list, all others in the other. */
  ghost predicate Tells(report: RestoreReport, plan: seq<StageRestore>) {
    && |report.committed| + |report.compensated| == |plan|
    && (forall s :: s in report.committed <==> exists i :: 0 <= i < |plan| && plan[i].checkpoint.stage == s && EndsCommitted(plan[i]))
    && (forall s :: s in report.compensated <==> exists i :: 0 <= i < |plan| && plan[i].checkpoint.stage == s && !EndsCommitted(plan[i]))
  }

  lemma {:induction false} ReportTells(plan: seq<StageRestore>)
    requires forall i :: 0 <= i < |plan| ==> Applicable(plan[i])
    ensures Tells(RestoreReport(StagesEndingIn(plan, true), StagesEndingIn(plan, false)), plan)
  {
    hide Outcome, Applicable;
    if plan != [] {
      var n := |plan| - 1;
      ReportTells(plan[..n]);
      EndsAsPlanned(plan[n]);
      assert plan == plan[..n] + [plan[n]];
      assert StagesEndingIn(plan, true) == StagesEndingIn(plan[..n], true) + if EndsCommitted(plan[n]) then [plan[n].checkpoint.stage] else [];
      assert StagesEndingIn(plan, false) == StagesEndingIn(plan[..n], false) + if EndsCommitted(plan[n]) then [] else [plan[n].checkpoint.stage];
    }
  }

  lemma EndsAsPlanned(a: StageRestore)
    requires Applicable(a)
    ensures Outcome(a).status.Committed? <==> EndsCommitted(a)
  {
    OutcomeIs(a);
  }

  class Store {
    var run: Option<Run>
    var events: seq<RunEvent>
    var checkpoints: map<string, StageCheckpoint>
    var effects: seq<ToolEffect>
    /** Which of the coming writes will fail; writes beyond the list succeed. */
    var outages: seq<bool>

    ghost function Contents(): Disk
      reads this
    {
      Disk(events, checkpoints)
    }

    constructor (run: Option<Run>, outages: seq<bool>)
      ensures Contents() == Disk([], map[]) && effects == [] && this.run == run && this.outages == outages
    {
      this.run, this.outages := run, outages;
      events, checkpoints, effects := [], map[], [];
    }

    method NextWriteFails() returns (down: bool)
      modifies this`outages
      ensures down == (old(outages) != [] && old(outages)[0])
      ensures outages == Drop(old(outages), 1)
    {
      down := outages != [] && outages[0];
      outages := Drop(outages, 1);
    }

    method CreateRunEvent(event: RunEvent) returns (r: Result<RunEvent, StoreError>)
      modifies this`events, this`outages
      ensures outages == Drop(old(outages), 1)
      ensures r.Err? <==> old(outages) != [] && old(outages)[0]
      ensures r.Err? ==> r.error.Unavailable? && events == old(events)
      ensures r.Ok? ==> Perform(old(Contents()), Append(event)) == Some(Contents())
      ensures r.Ok? ==> r.value == event.(sequence := LastSequence(old(events)) + 1)
    {
      var down := NextWriteFails();
      if down { return Err(Unavailable); }
      var created := event.(sequence := LastSequence(events) + 1);
      events := events + [created];
      r := Ok(created);
    }

    method SaveStageCheckpoint(checkpoint: StageCheckpoint) returns (r: Result<StageCheckpoint, StoreError>)
      modifies this`checkpoints, this`outages
      ensures outages == Drop(old(outages), 1)
      ensures r == Err(Unavailable) <==> old(outages) != [] && old(outages)[0]
      ensures r.Err? ==> checkpoints == old(checkpoints)
      ensures r.Err? && !r.error.Unavailable? ==> Perform(old(Contents()), Save(checkpoint)).None?
      ensures r.Ok? ==> r.value == checkpoint && Perform(old(Contents()), Save(checkpoint)) == Some(Contents())
    {
      var down := NextWriteFails();
      if down { return Err(Unavailable); }
      var refusal := SaveError(checkpoints, checkpoint);
      if refusal.Some? { return Err(refusal.value); }
      checkpoints := checkpoints[checkpoint.stage := checkpoint];
      r := Ok(checkpoint);
    }

    method ListRunEvents() returns (items: seq<RunEvent>)
      ensures items == events
    {
      items := events;
    }

    /** Every checkpoint once. The source sorts by cursor and stage; nothing here depends on the order. */
    method ListStageCheckpoints() returns (items: seq<StageCheckpoint>)
      requires forall s :: s in checkpoints ==> checkpoints[s].stage == s
      ensures forall i :: 0 <= i < |items| ==> items[i].stage in checkpoints && items[i] == checkpoints[items[i].stage]
      ensures forall i, j :: 0 <= i < j < |items| ==> items[i].stage != items[j].stage
      ensures forall s :: s in checkpoints ==> exists i :: 0 <= i < |items| && items[i].stage == s
    {
      items := [];
      var todo := checkpoints.Keys;
      while todo != {}
        invariant todo <= checkpoints.Keys
        invariant forall i :: 0 <= i < |items| ==>
          items[i].stage in checkpoints && items[i].stage !in todo && items[i] == checkpoints[items[i].stage]
        invariant forall i, j :: 0 <= i < j < |items| ==> items[i].stage != items[j].stage
        invariant forall s :: s in checkpoints && s !in todo ==> exists i :: 0 <= i < |items| && items[i].stage == s
        decreases |todo|
      {
        var s :| s in todo;
        ghost var before := items;
        items := items + [checkpoints[s]];
        assert items[|before|].stage == s;
        assert forall i :: 0 <= i < |before| ==> items[i] == before[i];
        todo := todo - {s};
      }
    }
  }

  /** Scans the log for the stage's open start. */
  method OpenStageStart(events: seq<RunEvent>, stage: string) returns (r: Option<RunEvent>)
    ensures r == OpenStart(events, stage)
    ensures r.None? <==> forall i :: !StartsAt(events, stage, i)
    ensures r.Some? ==> exists i :: StartsAt(events, stage, i) && r.value == events[i]
  {
    OpenStartExactly(events, stage);
    r := None;
    for i := 0 to |events|
      invariant r == OpenStart(events[..i], stage)
    {
      assert events[..i + 1][..i] == events[..i];
      var item := events[i];
      if item.stage == stage {
        if item.kind.StageStarted? {
          r := Some(item);
        } else if item.kind.IsTerminal() {
          r := None;
        }
      }
    }
    assert events[..|events|] == events;
  }

  /** Scans the log for the stage's first terminal event after the cursor. */
  method StageTerminalAfter(events: seq<RunEvent>, stage: string, cursor: int) returns (r: Option<RunEvent>)
    ensures r == TerminalAfter(events, stage, cursor)
    ensures r.None? <==> forall i :: 0 <= i < |events| ==> !EndsAfter(events[i], stage, cursor)
    ensures r.Some? ==> exists i :: FirstEnd(events, stage, cursor, i) && r.value == events[i]
  {
    TerminalAfterExactly(events, stage, cursor);
    for i := 0 to |events|
      invariant TerminalAfter(events[i..], stage, cursor) == TerminalAfter(events, stage, cursor)
    {
      assert events[i..][1..] == events[i + 1..];
      if events[i].sequence <= cursor || events[i].stage != stage { continue; }
      if events[i].kind.IsTerminal() { return Some(events[i]); }
    }
    r := None;
  }

  class Provider {
    const store: Store

    constructor (store: Store)
      ensures this.store == store
    {
      this.store := store;
    }

    /** Gives a stage without a checkpoint one, as if its start had been recorded. */
    method AdoptStage(step: Step, kind: EventKind, snapshot: Snapshot, unopened: StageCheckpoint)
      returns (r: Result<StageCheckpoint, StoreError>, ghost k: nat)
      requires kind.IsTerminal() && step.id !in store.checkpoints
      requires unopened == BaseCheckpoint(store.Contents(), step, snapshot)
      modifies store
      ensures store.run == old(store.run) && store.effects == old(store.effects)
      ensures Reached(old(store.Contents()), old(store.outages), OpeningProgram(old(store.Contents()), step, kind, snapshot), ErrorOf(r), k, store)
      ensures r.Ok? ==> SameButForProgress(r.value, unopened)
      ensures r.Ok? ==> TransitionSequence(old(store.Contents()), step, kind) == LastSequence(store.events) + 1
    {
      hide SaveError, PerformAll, OpenStart;
      ghost var before := store.Contents();
      ghost var program := OpeningProgram(before, step, kind, snapshot);
      Start(before, program);
      var base := unopened;
      var open := OpenStageStart(store.events, step.id);
      if open.Some? { base := base.(cursor := open.value.sequence); }
      r := store.SaveStageCheckpoint(base);
      k := 0;
      if r.Err? { return; }
      Advance(before, program, 0, before, store.Contents());
      k := 1;
      ghost var middle := store.Contents();
      if open.None? {
        var started := store.CreateRunEvent(StageEvent(step, StageStarted));
        if started.Err? { return Err(started.error), k; }
        Advance(before, program, 1, middle, store.Contents());
        k := 2;
        base := base.(cursor := started.value.sequence);
      }
      middle := store.Contents();
      r := store.SaveStageCheckpoint(base.(status := Executing));
      if r.Err? { return; }
      Advance(before, program, k, middle, store.Contents());
      k := k + 1;
    }

    /** The writes before a transition's own event; returns the checkpoint as it then stands. */
    method OpenStage(step: Step, kind: EventKind, snapshot: Snapshot) returns (r: Result<StageCheckpoint, StoreError>, ghost k: nat)
      requires kind.IsTransition()
      modifies store
      ensures store.run == old(store.run) && store.effects == old(store.effects)
      ensures Reached(old(store.Contents()), old(store.outages), OpeningProgram(old(store.Contents()), step, kind, snapshot), ErrorOf(r), k, store)
      ensures r.Ok? ==> SameButForProgress(r.value, BaseCheckpoint(old(store.Contents()), step, snapshot))
      ensures r.Ok? ==> TransitionSequence(old(store.Contents()), step, kind) == LastSequence(store.events) + 1
    {
      hide SaveError;
      var events := store.ListRunEvents();
      var base := StageCheckpoint(INTERNAL_STATE_PROVIDER, step.id, Prepared, DigestOf(step.input), NoDigest,
                                  DigestOf(snapshot.body), DigestOf(snapshot.tools), LastSequence(events), "");
      ghost var before := store.Contents();
      k := 0;
      if kind.StageStarted? {
        r := store.SaveStageCheckpoint(base);
        if r.Ok? {
          Advance(before, OpeningProgram(before, step, kind, snapshot), 0, before, store.Contents());
          k := 1;
        }
      } else if step.id in store.checkpoints {
        r := Ok(base);
      } else {
        r, k := AdoptStage(step, kind, snapshot, base);
      }
    }

    /** The transition's own event, the checkpoint it settles and the audit event. */
    method CloseStage(step: Step, kind: EventKind, base: StageCheckpoint) returns (r: Result<RunEvent, StoreError>, ghost k: nat)
      requires kind.IsTransition()
      modifies store
      ensures store.run == old(store.run) && store.effects == old(store.effects)
      ensures var sequence := LastSequence(old(store.events)) + 1;
        Reached(old(store.Contents()), old(store.outages), Closing(base, step, kind, sequence), ErrorOf(r), k, store)
        && (r.Ok? ==> r.value == StageEvent(step, kind).(sequence := sequence))
    {
      hide SaveError, PerformAll, SettledCheckpoint;
      ghost var before := store.Contents();
      ghost var program := Closing(base, step, kind, LastSequence(store.events) + 1);
      Start(before, program);
      k := 0;
      r := store.CreateRunEvent(StageEvent(step, kind));
      if r.Err? { return; }
      Advance(before, program, 0, before, store.Contents());
      k := 1;
      ghost var middle := store.Contents();
      var stored := store.SaveStageCheckpoint(SettledCheckpoint(base, step, kind, r.value.sequence));
      if stored.Err? { return Err(stored.error), k; }
      Advance(before, program, 1, middle, store.Contents());
      k := 2;
      middle := store.Contents();
      var captured := store.CreateRunEvent(AuditEvent(CheckpointCaptured, stored.value));
      if captured.Err? { return Err(captured.error), k; }
      Advance(before, program, 2, middle, store.Contents());
      k := 3;
    }

    /** An accepted recording: everything up to the transition's event, then the rest. */
    method Transition(step: Step, kind: EventKind, snapshot: Snapshot) returns (r: Result<RunEvent, StoreError>, ghost k: nat)
      requires kind.IsTransition()
      modifies store
      ensures store.run == old(store.run) && store.effects == old(store.effects)
      ensures Reached(old(store.Contents()), old(store.outages), RecordProgram(old(store.Contents()), step, kind, snapshot), ErrorOf(r), k, store)
      ensures r.Ok? ==> Recorded(old(store.Contents()), step, kind, snapshot, r.value, store.Contents())
    {
      hide SaveError, OpeningProgram, Perform, PerformAll, OpenStart, TransitionSequence, Closing, Recorded;
      ghost var before, planned := store.Contents(), store.outages;
      ghost var opening := OpeningProgram(before, step, kind, snapshot);
      ghost var closing := ClosingProgram(before, step, kind, snapshot);
      var prepared, i := OpenStage(step, kind, snapshot);
      k := i;
      if prepared.Err? {
        ReachedPrefix(before, planned, opening, closing, ErrorOf(prepared), i, store);
        return Err(prepared.error), i;
      }
      ghost var middle, left := store.Contents(), store.outages;
      ClosingOf(before, step, kind, snapshot, prepared.value);
      ghost var j;
      r, j := CloseStage(step, kind, prepared.value);
      ReachedBoth(before, planned, opening, middle, left, closing, ErrorOf(r), i, j, store);
      k := i + j;
      if r.Ok? { ReachedInFull(before, planned, step, kind, snapshot, k, store); }
    }

    /**
      An answer means that every write was performed, and what they leave; a failure of the store, that they
      were performed up to the write that failed.
     */
    method RecordStageTransition(step: Step, kind: EventKind) returns (r: Result<RunEvent, Failure>, ghost k: nat)
      modifies store
      ensures store.run == old(store.run) && store.effects == old(store.effects)
      ensures r == Err(UnsupportedEvent) <==> !kind.StageStarted? && !kind.StageCompleted? && !kind.StageFailed? && !kind.StageCanceled?
      ensures r == Err(RunNotFound) <==> r != Err(UnsupportedEvent) && store.run.None?
      ensures r == Err(SnapshotRequired) <==> r != Err(UnsupportedEvent) && store.run.Some? && store.run.value.snapshot.None?
      ensures r == Err(AlreadyHasCheckpoint) <==>
        kind.StageStarted? && store.run.Some? && store.run.value.snapshot.Some? && step.id in old(store.checkpoints)
      ensures r.Err? && !r.error.StoreFailed? ==>
        store.Contents() == old(store.Contents()) && RecordRefusal(old(store.Contents()), store.run, step, kind) == Some(r.error)
      ensures r.Ok? || r.error.StoreFailed? ==>
        && RecordRefusal(old(store.Contents()), store.run, step, kind).None?
        && Reached(old(store.Contents()), old(store.outages),
                   RecordProgram(old(store.Contents()), step, kind, store.run.value.snapshot.value), CauseOf(r), k, store)
      ensures r.Ok? ==> Recorded(old(store.Contents()), step, kind, store.run.value.snapshot.value, r.value, store.Contents())
    {
      hide Reached, RecordProgram, Recorded;
      k := 0;
      if !kind.IsTransition() { return Err(UnsupportedEvent), 0; }
      if store.run.None? { return Err(RunNotFound), 0; }
      if store.run.value.snapshot.None? { return Err(SnapshotRequired), 0; }
      if kind.StageStarted? && step.id in store.checkpoints { return Err(AlreadyHasCheckpoint), 0; }
      var done;
      done, k := Transition(step, kind, store.run.value.snapshot.value);
      r := match done case Ok(event) => Ok(event) case Err(cause) => Err(StoreFailed(cause));
    }

    method ReconcileStageTerminal(item: StageCheckpoint, terminal: RunEvent) returns (r: Result<StageCheckpoint, StoreError>, ghost k: nat)
      requires terminal.kind.IsTerminal()
      modifies store
      ensures store.run == old(store.run) && store.effects == old(store.effects)
      ensures Reached(old(store.Contents()), old(store.outages), SavesAsWrites(ReconcileSaves(item, terminal)), ErrorOf(r), k, store)
      ensures r.Ok? ==> r.value == Reconciled(StageRestore(item, Some(terminal)))
    {
      hide SaveError, PerformAll;
      ghost var before := store.Contents();
      Start(before, SavesAsWrites(ReconcileSaves(item, terminal)));
      ghost var program := SavesAsWrites(ReconcileSaves(item, terminal));
      var next := item.(cursor := terminal.sequence);
      k := 0;
      if terminal.kind.StageCompleted? {
        if item.status.Prepared? {
          next := next.(status := Executing);
          r := store.SaveStageCheckpoint(next);
          if r.Err? { return; }
          Advance(before, program, 0, before, store.Contents());
          k := 1;
        }
        next := next.(status := Committed, outputHash := DigestOf(terminal.output), error := "");
      } else {
        next := next.(status := NeedsReconciliation, error := terminal.error);
      }
      ghost var middle := store.Contents();
      r := store.SaveStageCheckpoint(next);
      if r.Err? { return; }
      Advance(before, program, k, middle, store.Contents());
      k := k + 1;
    }

    /** Abandons an unfinished stage. A save that fails is noted in the log if the store still takes the note. */
    method CompensateInternalState(item: StageCheckpoint)
      returns (r: Result<StageCheckpoint, StoreError>, ghost k: nat, ghost note: seq<Write>)
      modifies store
      ensures store.run == old(store.run) && store.effects == old(store.effects)
      ensures RestoreReached(old(store.Contents()), old(store.outages), CompensationProgram(item), ErrorOf(r), k, note, store)
      ensures r.Ok? ==> r.value == CompensationSaves(item)[|CompensationSaves(item)| - 1]
    {
      hide SaveError, PerformAll, AuditEvent;
      ghost var before := store.Contents();
      ghost var program := CompensationProgram(item);
      Start(before, program);
      k, note := 0, [];
      var started := store.CreateRunEvent(AuditEvent(CompensationStarted, item));
      assert program[..0] + note == program[..0];
      if started.Err? { return Err(started.error), k, note; }
      Advance(before, program, 0, before, store.Contents());
      k := 1;
      var current := item;
      if !current.status.NeedsReconciliation? {
        ghost var middle := store.Contents();
        current := current.(status := NeedsReconciliation, error := ABANDONED);
        r := store.SaveStageCheckpoint(current);
        if r.Err? {
          note := NoteFailure(item.stage, r.error);
          NoteKeeps(before, program[..1], note, store.Contents());
          return;
        }
        Advance(before, program, 1, middle, store.Contents());
        k := 2;
      }
      ghost var middle := store.Contents();
      current := current.(status := Compensated);
      r := store.SaveStageCheckpoint(current);
      if r.Err? {
        note := NoteFailure(item.stage, r.error);
        NoteKeeps(before, program[..k], note, store.Contents());
        return;
      }
      Advance(before, program, k, middle, store.Contents());
      k := k + 1;
      middle := store.Contents();
      var completed := store.CreateRunEvent(AuditEvent(CompensationCompleted, current));
      assert program[..k] + note == program[..k];
      if completed.Err? { return Err(completed.error), k, note; }
      Advance(before, program, k, middle, store.Contents());
      k := k + 1;
      assert program[..k] + note == program[..k];
    }

    method NoteFailure(stage: string, cause: StoreError) returns (ghost note: seq<Write>)
      modifies store
      ensures store.run == old(store.run) && store.effects == old(store.effects)
      ensures IsNote(note) && PerformAll(old(store.Contents()), note) == Some(store.Contents())
    {
      var event := RunEvent(CompensationFailed, stage, 0, "", Message(cause), None);
      var noted := store.CreateRunEvent(event);
      note := if noted.Ok? then [Append(event)] else [];
      assert note == [] || note[..|note| - 1] == [];
    }

    /** One action of a plan. */
    method RestoreStage(action: StageRestore) returns (r: Result<StageCheckpoint, StoreError>, ghost k: nat, ghost note: seq<Write>)
      requires Applicable(action)
      modifies store
      ensures store.run == old(store.run) && store.effects == old(store.effects)
      ensures RestoreReached(old(store.Contents()), old(store.outages), StageProgram(action), ErrorOf(r), k, note, store)
      ensures r.Ok? ==> r.value == Outcome(action)
    {
      hide SaveError, PerformAll, SavesAsWrites, CompensationProgram, ReconcileSaves;
      OutcomeIs(action);
      ghost var before, planned := store.Contents(), store.outages;
      ghost var reconciling := if action.terminal.None? then [] else SavesAsWrites(ReconcileSaves(action.checkpoint, action.terminal.value));
      ghost var settling := SettlingProgram(action);
      assert StageProgram(action) == reconciling + settling;
      var item := action.checkpoint;
      k, note := 0, [];
      NothingDone(before, planned, store);
      if action.terminal.Some? {
        r, k := ReconcileStageTerminal(item, action.terminal.value);
        if r.Err? {
          ReachedPrefix(before, planned, reconciling, settling, ErrorOf(r), k, store);
          WithoutNote(before, planned, StageProgram(action), ErrorOf(r), k, store);
          return;
        }
        item := r.value;
      }
      ghost var middle, left := store.Contents(), store.outages;
      ghost var done := k;
      ghost var j: nat := 0;
      match item.status {
        case Committed =>
          var published := store.CreateRunEvent(AuditEvent(CheckpointRestored, item));
          if published.Err? {
            r := Err(published.error);
          } else {
            r, j := Ok(item), 1;
          }
          OneAppend(middle, left, AuditEvent(CheckpointRestored, item), ErrorOf(published), store);
        case Compensated =>
          r := Ok(item);
          NothingDone(middle, left, store);
        case Prepared | Executing | NeedsReconciliation =>
          r, j, note := CompensateInternalState(item);
        case OtherStatus(_) =>
          assert false;
      }
      if !item.status.Committed? && !item.status.Compensated? {
        RestoreReachedBoth(before, planned, reconciling, middle, left, settling, ErrorOf(r), done, j, note, store);
      } else {
        ReachedBoth(before, planned, reconciling, middle, left, settling, ErrorOf(r), done, j, store);
        WithoutNote(before, planned, StageProgram(action), ErrorOf(r), done + j, store);
      }
      k := done + j;
    }

    method HasUncertain(effects: seq<ToolEffect>) returns (r: bool)
      ensures r <==> exists e :: e in effects && !Settled(e)
    {
      for i := 0 to |effects|
        invariant forall e :: e in effects[..i] ==> Settled(e)
      {
        if !Settled(effects[i]) { return true; }
      }
      r := false;
    }

    /** The decision for one stage, given the effects recorded under it. */
    method PlanStageRestore(item: StageCheckpoint, events: seq<RunEvent>, effects: seq<ToolEffect>) returns (r: Result<StageRestore, Failure>)
      requires forall e :: e in effects ==> e.stage == item.stage
      ensures r == PlanStage(item, events, effects)
    {
      var status := item.status;
      var terminal := None;
      if status.Prepared? || status.Executing? {
        terminal := StageTerminalAfter(events, item.stage, item.cursor);
        if terminal.Some? {
          status := if terminal.value.kind.StageCompleted? then Committed else NeedsReconciliation;
          var uncertain := HasUncertain(effects);
          if status.Committed? && uncertain { return Err(ReconciliationNeeded(item.stage)); }
        }
      }
      if !status.Committed? {
        for i := 0 to |effects|
          invariant forall e :: e in effects[..i] ==> !e.status.EffectCommitted?
        {
          if effects[i].status.EffectCommitted? { return Err(ReconciliationNeeded(item.stage)); }
        }
      }
      if status.OtherStatus? { return Err(UnknownStatus(item.stage)); }
      if !status.Committed? && !status.Compensated? {
        var uncertain := HasUncertain(effects);
        if uncertain { return Err(ReconciliationNeeded(item.stage)); }
      }
      r := Ok(StageRestore(item, terminal));
    }

    method GroupByStage(effects: seq<ToolEffect>) returns (byStage: map<string, seq<ToolEffect>>)
      ensures forall s :: s in byStage ==> byStage[s] == EffectsOf(effects, s)
      ensures forall s :: s !in byStage ==> EffectsOf(effects, s) == []
    {
      byStage := map[];
      for i := 0 to |effects|
        invariant forall s :: s in byStage ==> byStage[s] == EffectsOf(effects[..i], s)
        invariant forall s :: s !in byStage ==> EffectsOf(effects[..i], s) == []
      {
        assert effects[..i + 1][..i] == effects[..i];
        var effect := effects[i];
        var soFar := if effect.stage in byStage then byStage[effect.stage] else [];
        byStage := byStage[effect.stage := soFar + [effect]];
      }
      assert effects[..|effects|] == effects;
    }

    method PlanRestore(run: Run) returns (r: Result<seq<StageRestore>, Failure>)
      requires forall s :: s in store.checkpoints ==> store.checkpoints[s].stage == s
      ensures run.snapshot.None? ==> r == Err(SnapshotRequired)
      ensures run.snapshot.Some? ==> (r.Ok? <==> Accepted(store.Contents(), store.effects, run.snapshot.value))
      ensures r.Ok? ==> run.snapshot.Some? && IsPlan(r.value, store.Contents(), store.effects, run.snapshot.value)
      ensures r.Err? && run.snapshot.Some? ==>
        exists s :: s in store.checkpoints
          && PlanItem(store.checkpoints[s], run.snapshot.value, store.events, store.effects) == Err(r.error)
    {
      if run.snapshot.None? { return Err(SnapshotRequired); }
      var snapshot := run.snapshot.value;
      var checkpoints := store.ListStageCheckpoints();
      var events := store.ListRunEvents();
      var byStage := GroupByStage(store.effects);
      var plan: seq<StageRestore> := [];
      for i := 0 to |checkpoints|
        invariant |plan| == i
        invariant forall j :: 0 <= j < i ==>
          plan[j].checkpoint == checkpoints[j] && PlanItem(checkpoints[j], snapshot, events, store.effects) == Ok(plan[j])
      {
        var item := checkpoints[i];
        if IsStale(item, snapshot) { return Err(Stale(item.stage)); }
        var own := if item.stage in byStage then byStage[item.stage] else [];
        OwnEffects(store.effects, item.stage);
        PlanFromOwnEffects(item, events, store.effects);
        var action := PlanStageRestore(item, events, own);
        if action.Err? { return Err(action.error); }
        plan := plan + [action.value];
      }
      r := Ok(plan);
    }

    method ValidateResume(run: Run) returns (r: Option<Failure>)
      requires forall s :: s in store.checkpoints ==> store.checkpoints[s].stage == s
      ensures r.None? <==> run.snapshot.Some? && Accepted(store.Contents(), store.effects, run.snapshot.value)
    {
      var plan := PlanRestore(run);
      r := if plan.Ok? then None else Some(plan.error);
    }

    /** Applies a plan action by action, up to the first write that fails. */
    method ApplyPlan(actions: seq<StageRestore>) returns (r: Result<RestoreReport, StoreError>, ghost k: nat, ghost note: seq<Write>)
      requires forall i :: 0 <= i < |actions| ==> Applicable(actions[i])
      modifies store
      ensures store.run == old(store.run) && store.effects == old(store.effects)
      ensures RestoreReached(old(store.Contents()), old(store.outages), RestoreProgram(actions), ErrorOf(r), k, note, store)
      ensures r.Ok? ==> r.value == RestoreReport(StagesEndingIn(actions, true), StagesEndingIn(actions, false))
    {
      hide Perform, PerformAll, StageProgram, Outcome, Applicable;
      ghost var before, planned := store.Contents(), store.outages;
      var report := RestoreReport([], []);
      k, note := 0, [];
      NothingDone(before, planned, store);
      for i := 0 to |actions|
        invariant store.run == old(store.run) && store.effects == old(store.effects)
        invariant Reached(before, planned, RestoreProgram(actions[..i]), None, k, store)
        invariant report == RestoreReport(StagesEndingIn(actions[..i], true), StagesEndingIn(actions[..i], false))
      {
        var action := actions[i];
        ghost var middle, left := store.Contents(), store.outages;
        ghost var j;
        var item;
        item, j, note := RestoreStage(action);
        OneMoreAction(before, planned, actions, i, middle, left, ErrorOf(item), k, j, note, store);
        k := k + j;
        if item.Err? { return Err(item.error), k, note; }
        assert actions[..i + 1][..i] == actions[..i];
        if item.value.status.Committed? {
          report := report.(committed := report.committed + [action.checkpoint.stage]);
        } else {
          report := report.(compensated := report.compensated + [action.checkpoint.stage]);
        }
      }
      assert actions[..|actions|] == actions;
      WithoutNote(before, planned, RestoreProgram(actions), None, k, store);
      r, note := Ok(report), [];
    }

    /**
      A refused plan changes nothing; otherwise the disk has been taken through the first k writes of
      the plan's program, all of them if the restore reports success.
     */
    method RestoreRun(run: Run) returns (r: Result<RestoreReport, Failure>, ghost plan: seq<StageRestore>, ghost k: nat, ghost note: seq<Write>)
      requires forall s :: s in store.checkpoints ==> store.checkpoints[s].stage == s
      modifies store
      ensures store.run == old(store.run) && store.effects == old(store.effects)
      ensures run.snapshot.None? || !Accepted(old(store.Contents()), store.effects, run.snapshot.value) ==>
        r.Err? && store.Contents() == old(store.Contents())
      ensures run.snapshot.Some? && Accepted(old(store.Contents()), store.effects, run.snapshot.value) ==>
        && IsPlan(plan, old(store.Contents()), store.effects, run.snapshot.value)
        && RestoreReached(old(store.Contents()), old(store.outages), RestoreProgram(plan), CauseOf(r), k, note, store)
        && (r.Ok? ==> Tells(r.value, plan))
    {
      hide RestoreReached, RestoreProgram, PlanItem, Accepted, Tells;
      k, plan, note := 0, [], [];
      var planning := PlanRestore(run);
      if planning.Err? { return Err(planning.error), plan, k, note; }
      plan := planning.value;
      forall i | 0 <= i < |plan| ensures Applicable(plan[i]) {
        PlannedIsApplicable(plan[i], run.snapshot.value, store.events, store.effects);
      }
      var applied;
      applied, k, note := ApplyPlan(planning.value);
      r := match applied case Ok(report) => Ok(report) case Err(cause) => Err(StoreFailed(cause));
      ReportTells(plan);
    }
  }
}
