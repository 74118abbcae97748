/**
  What a restore makes of every stage, at every point of every orderly history: a stage is committed exactly
  if its completion was logged since it was last opened. Orderly means that the runtime records a stage only
  while it is still undecided; the failures that repairs append to the log may come at any time.
 */
module CheckpointVerdicts {
  import opened Results
  import opened Checkpoint
  import opened CheckpointProvider
  import opened CheckpointRecovery
  import opened CheckpointHistory

  /** Nothing in the log ends the stage, as far as its checkpoint looks back. */
  ghost predicate Undecided(d: Disk, s: string) {
    if s in d.checkpoints then
      (d.checkpoints[s].status.Prepared? || d.checkpoints[s].status.Executing?) && TerminalAfter(d.events, s, d.checkpoints[s].cursor).None?
    else TerminalAfter(d.events, s, 0).None?
  }

  ghost predicate OrderlyNext(d: Disk, after: Disk) {
    || (exists step: Step, kind, snapshot, k :: Recording(d, step, kind, snapshot, k, after) && Undecided(d, step.id))
    || (exists plan, effects, snapshot, k, note :: Restoring(d, plan, effects, snapshot, k, note, after))
    || (exists e :: OtherEvent(d, e, after))
    || (exists stage :: Reopening(d, stage, after))
  }

  ghost predicate IsOrderly(history: seq<Disk>) {
    && history != [] && history[0] == Disk([], map[])
    && forall i :: 0 <= i < |history| - 1 ==> OrderlyNext(history[i], history[i + 1])
  }

  /** Where the log ended when the stage was last reopened; the log's beginning if it never was. */
  ghost function Opened(history: seq<Disk>, n: nat, s: string): int
    requires n < |history|
  {
    if n == 0 then 0
    else if Reopening(history[n - 1], s, history[n]) then LastSequence(history[n - 1].events)
    else Opened(history, n - 1, s)
  }

  // ---------------------------------------------------------------------------------------------
  // One stage, one opening
  // ---------------------------------------------------------------------------------------------

  predicate Unfinished(c: StageCheckpoint) { c.status.Prepared? || c.status.Executing? }

  /** The checkpoint says of the stage what the log does. */
  predicate Agrees(events: seq<RunEvent>, c: StageCheckpoint, s: string, o: int) {
    var t := TerminalAfter(events, s, o);
    match c.status
    case Committed => t.Some? && t.value.kind.StageCompleted?
    case Prepared | Executing => o <= c.cursor && TerminalAfter(events, s, c.cursor) == t
    case NeedsReconciliation | Compensated => t.Some? ==> !t.value.kind.StageCompleted?
    case OtherStatus(_) => true
  }

  /** The first end logged since is a completion. */
  predicate FirstCompletes(events: seq<RunEvent>, s: string, o: int) {
    var t := TerminalAfter(events, s, o);
    t.Some? && t.value.kind.StageCompleted?
  }

  ghost predicate Verdict(d: Disk, s: string, o: int) {
    && 0 <= o <= LastSequence(d.events)
    && (forall i :: 0 <= i < |d.events| && TerminalOf(d.events[i], s, o) && d.events[i].kind.StageCompleted? ==> FirstCompletes(d.events, s, o))
    && (if s in d.checkpoints then Agrees(d.events, d.checkpoints[s], s, o) else o == 0)
  }

  /** The stage has not ended since, so its end may be recorded. */
  ghost predicate StillOpen(d: Disk, s: string, o: int) {
    TerminalAfter(d.events, s, o).None? && (s in d.checkpoints ==> Unfinished(d.checkpoints[s]))
  }

  ghost predicate Sensible(d: Disk, w: Write, s: string, o: int) {
    match w
    case Append(e) => e.stage == s && e.kind.StageCompleted? ==> StillOpen(d, s, o)
    case Save(c) => c.stage == s ==> Agrees(d.events, c, s, o)
  }

  lemma AppendKeepsVerdict(d: Disk, e: RunEvent, after: Disk, s: string, o: int)
    requires Sound(d) && Verdict(d, s, o) && Perform(d, Append(e)) == Some(after) && Sensible(d, Append(e), s, o)
    ensures Sound(after) && Verdict(after, s, o) && after.checkpoints == d.checkpoints
    ensures LastSequence(after.events) == LastSequence(d.events) + 1
    ensures TerminalAfter(after.events, s, o) ==
      if TerminalAfter(d.events, s, o).None? && e.stage == s && e.kind.IsTerminal() then Some(after.events[|d.events|]) else TerminalAfter(d.events, s, o)
    ensures after.events[|d.events|].kind == e.kind
  {
    assert s in d.checkpoints ==> d.checkpoints[s].cursor <= LastSequence(d.events);
    hide Sound, Ordered;
    AuditKeepsSound(d, e);
    var numbered := after.events[|d.events|];
    assert after.events == d.events + [numbered];
    TerminalAfterAppend(d.events, numbered, s, o);
    if s in d.checkpoints { TerminalAfterAppend(d.events, numbered, s, d.checkpoints[s].cursor); }
    if TerminalAfter(d.events, s, o).None? { NoTerminals(d.events, s, o); }
    hide TerminalAfter;
  }

  lemma {:induction false} NoTerminals(events: seq<RunEvent>, s: string, o: int)
    requires TerminalAfter(events, s, o).None?
    ensures forall i :: 0 <= i < |events| ==> !TerminalOf(events[i], s, o)
  {
    if events != [] { NoTerminals(events[1..], s, o); }
  }

  lemma {:induction false} LaterCursor(events: seq<RunEvent>, s: string, o: int, cursor: int)
    requires TerminalAfter(events, s, o).None? && o <= cursor
    ensures TerminalAfter(events, s, cursor).None?
  {
    if events != [] { LaterCursor(events[1..], s, o, cursor); }
  }

  lemma SaveKeepsVerdict(d: Disk, c: StageCheckpoint, after: Disk, s: string, o: int)
    requires Verdict(d, s, o) && Perform(d, Save(c)) == Some(after) && Sensible(d, Save(c), s, o)
    requires c.stage == s || s in d.checkpoints || o == 0
    ensures after.events == d.events && after.checkpoints == d.checkpoints[c.stage := c] && Verdict(after, s, o)
  {
  }

  // ---------------------------------------------------------------------------------------------
  // Recordings
  // ---------------------------------------------------------------------------------------------

  predicate AboutOther(w: Write, s: string) {
    match w
    case Append(e) => e.stage != s
    case Save(c) => c.stage != s
  }

  lemma {:induction false} OthersKeepVerdict(d: Disk, ws: seq<Write>, m: nat, after: Disk, s: string, o: int)
    requires Sound(d) && Verdict(d, s, o) && m <= |ws| && PerformAll(d, ws[..m]) == Some(after)
    requires forall i :: 0 <= i < |ws| ==> AboutOther(ws[i], s)
    requires forall i :: 0 <= i < |ws| && ws[i].Save? ==> 0 <= ws[i].checkpoint.cursor
    ensures Verdict(after, s, o)
    decreases m
  {
    hide Sound, SaveError, Verdict, Perform;
    if m > 0 {
      OneMoreWrite(d, ws, m - 1);
      var before := PerformAll(d, ws[..m - 1]).value;
      OthersKeepVerdict(d, ws, m - 1, before, s, o);
      OtherWriteKeeps(before, ws[m - 1], after, s, o);
    }
  }

  lemma OtherWriteKeeps(d: Disk, w: Write, after: Disk, s: string, o: int)
    requires Verdict(d, s, o) && Perform(d, w) == Some(after) && AboutOther(w, s)
    ensures Verdict(after, s, o)
  {
    if w.Append? {
      var numbered := after.events[|d.events|];
      TerminalAfterAppend(d.events, numbered, s, o);
      if s in d.checkpoints { TerminalAfterAppend(d.events, numbered, s, d.checkpoints[s].cursor); }
    }
  }

  /** A save of an opening: unfinished, and looking back no further than the opening. */
  predicate Opens(c: StageCheckpoint, events: seq<RunEvent>, s: string, o: int) {
    c.stage == s && Unfinished(c) && o <= c.cursor && TerminalAfter(events, s, c.cursor).None?
  }

  lemma SaveKeepsOpen(d: Disk, c: StageCheckpoint, after: Disk, s: string, o: int)
    requires Verdict(d, s, o) && StillOpen(d, s, o) && Opens(c, d.events, s, o) && Perform(d, Save(c)) == Some(after)
    ensures Verdict(after, s, o) && StillOpen(after, s, o) && after.events == d.events && s in after.checkpoints
  {
    SaveKeepsVerdict(d, c, after, s, o);
  }

  lemma {:induction false} SavesKeepOpen(d: Disk, ws: seq<Write>, m: nat, after: Disk, s: string, o: int)
    requires Verdict(d, s, o) && StillOpen(d, s, o) && m <= |ws| && PerformAll(d, ws[..m]) == Some(after)
    requires forall i :: 0 <= i < |ws| ==> ws[i].Save? && Opens(ws[i].checkpoint, d.events, s, o)
    ensures Verdict(after, s, o) && StillOpen(after, s, o) && after.events == d.events
    decreases m
  {
    hide SaveError, Verdict, Perform, StillOpen, Opens;
    if m > 0 {
      OneMoreWrite(d, ws, m - 1);
      var before := PerformAll(d, ws[..m - 1]).value;
      SavesKeepOpen(d, ws, m - 1, before, s, o);
      SaveKeepsOpen(before, ws[m - 1].checkpoint, after, s, o);
    }
  }

  lemma UndecidedIsOpen(d: Disk, s: string, o: int)
    requires Verdict(d, s, o) && Undecided(d, s)
    ensures StillOpen(d, s, o)
  {
  }

  lemma PastTheEnd(d: Disk, s: string)
    requires Sound(d)
    ensures TerminalAfter(d.events, s, LastSequence(d.events)).None?
  {
    OrderedIsBounded(d.events);
    NoTerminalPastTheEnd(d.events, s, LastSequence(d.events));
  }

  lemma OpeningVerdict(d: Disk, step: Step, kind: EventKind, snapshot: Snapshot, m: nat, after: Disk, o: int)
    requires Sound(d) && Verdict(d, step.id, o) && StillOpen(d, step.id, o)
    requires RecordRefusal(d, Some(Run(Some(snapshot))), step, kind).None?
    requires m <= |OpeningProgram(d, step, kind, snapshot)| && PerformAll(d, OpeningProgram(d, step, kind, snapshot)[..m]) == Some(after)
    ensures Verdict(after, step.id, o) && StillOpen(after, step.id, o)
  {
    hide SaveError, Verdict, StillOpen, PerformAll, Perform, Sound, OpenStart;
    var ws, s := OpeningProgram(d, step, kind, snapshot), step.id;
    PastTheEnd(d, s);
    SoundLog(d);
    OpeningBegins(d, s, o);
    if s in d.checkpoints {
      assert ws[..m] == [];
      NoWrites(d);
    } else if kind.StageStarted? || OpenStart(d.events, s).Some? {
      if OpenStart(d.events, s).Some? { OpenStartIsOpen(d.events, s); }
      SavesKeepOpen(d, ws, m, after, s, o);
    } else {
      FreshVerdict(d, ws, m, after, s, o);
    }
  }

  lemma SoundLog(d: Disk)
    requires Sound(d)
    ensures Ordered(d.events) && LastSequence(d.events) >= 0
  {
    OrderedIsBounded(d.events);
  }

  lemma OpeningBegins(d: Disk, s: string, o: int)
    requires Verdict(d, s, o)
    ensures s !in d.checkpoints ==> o == 0
    ensures 0 <= o <= LastSequence(d.events)
  {
  }

  lemma FreshVerdict(d: Disk, ws: seq<Write>, m: nat, after: Disk, s: string, o: int)
    requires Sound(d) && Verdict(d, s, o) && StillOpen(d, s, o) && |ws| == 3 && m <= 3 && PerformAll(d, ws[..m]) == Some(after)
    requires ws[0].Save? && ws[0].checkpoint.stage == s && Unfinished(ws[0].checkpoint) && ws[0].checkpoint.cursor == LastSequence(d.events)
    requires ws[1].Append? && ws[1].event.stage == s && ws[1].event.kind.StageStarted?
    requires ws[2].Save? && ws[2].checkpoint.stage == s && Unfinished(ws[2].checkpoint) && ws[2].checkpoint.cursor == LastSequence(d.events) + 1
    ensures Verdict(after, s, o) && StillOpen(after, s, o)
  {
    hide SaveError, PerformAll, Sound;
    var d1, d2 := ThreeWrites(d, ws, m, after);
    PastTheEnd(d, s);
    SoundLog(d);
    OpeningBegins(d, s, o);
    if m >= 1 {
      SaveKeepsOpen(d, ws[0].checkpoint, d1, s, o);
      SaveIsSound(d, ws[0].checkpoint, d1);
    }
    hide Verdict;
    if m >= 2 { AppendKeepsVerdict(d1, ws[1].event, d2, s, o); }
    if m >= 3 {
      PastTheEnd(d2, s);
      SaveKeepsOpen(d2, ws[2].checkpoint, after, s, o);
    }
  }

  lemma SaveIsSound(d: Disk, c: StageCheckpoint, after: Disk)
    requires Sound(d) && Perform(d, Save(c)) == Some(after) && 0 <= c.cursor <= LastSequence(d.events)
    ensures Sound(after) && after.events == d.events
  {
    assert Complete(c);
    SaveKeepsSound(d, c);
  }

  lemma ClosingVerdict(d: Disk, step: Step, kind: EventKind, base: StageCheckpoint, m: nat, after: Disk, o: int)
    requires Sound(d) && Verdict(d, step.id, o) && StillOpen(d, step.id, o) && kind.IsTransition() && base.stage == step.id && m <= 3
    requires PerformAll(d, Closing(base, step, kind, LastSequence(d.events) + 1)[..m]) == Some(after)
    ensures Verdict(after, step.id, o)
  {
    hide SaveError, PerformAll, Sound;
    var ws, s := Closing(base, step, kind, LastSequence(d.events) + 1), step.id;
    var d1, d2 := ThreeWrites(d, ws, m, after);
    OpeningBegins(d, s, o);
    SoundLog(d);
    if m >= 1 {
      AppendKeepsVerdict(d, ws[0].event, d1, s, o);
      PastTheEnd(d1, s);
    }
    if m >= 2 {
      assert Agrees(d1.events, ws[1].checkpoint, s, o);
      SaveKeepsVerdict(d1, ws[1].checkpoint, d2, s, o);
      SaveIsSound(d1, ws[1].checkpoint, d2);
    }
    hide Verdict, Agrees;
    if m >= 3 { AppendKeepsVerdict(d2, ws[2].event, after, s, o); }
  }

  lemma OwnRecordingVerdict(d: Disk, step: Step, kind: EventKind, snapshot: Snapshot, k: nat, after: Disk, o: int)
    requires Inv(d) && Verdict(d, step.id, o) && StillOpen(d, step.id, o)
    requires RecordRefusal(d, Some(Run(Some(snapshot))), step, kind).None? && kind.IsTransition()
    requires k <= |RecordProgram(d, step, kind, snapshot)| && PerformAll(d, RecordProgram(d, step, kind, snapshot)[..k]) == Some(after)
    ensures Verdict(after, step.id, o)
  {
    hide Inv, Sound, Verdict, StillOpen, OpeningProgram, ClosingProgram, RecordRefusal, PerformAll, Perform, Closing, TransitionSequence, BaseCheckpoint;
    InvIsSound(d);
    var middle := SplitRecording(d, step, kind, snapshot, k, after);
    var opening := OpeningProgram(d, step, kind, snapshot);
    assert opening[..|opening|] == opening;
    if k <= |opening| {
      OpeningVerdict(d, step, kind, snapshot, k, after, o);
    } else {
      OpeningVerdict(d, step, kind, snapshot, |opening|, middle, o);
      OpeningKeepsInv(d, step, kind, snapshot, |opening|, middle);
      InvIsSound(middle);
      ClosingIs(d, step, kind, snapshot);
      ProgramLength(d, step, kind, snapshot);
      ClosingVerdict(middle, step, kind, BaseCheckpoint(d, step, snapshot), k - |opening|, after, o);
    }
  }

  lemma ClosingIs(d: Disk, step: Step, kind: EventKind, snapshot: Snapshot)
    requires kind.IsTransition()
    ensures ClosingProgram(d, step, kind, snapshot) == Closing(BaseCheckpoint(d, step, snapshot), step, kind, TransitionSequence(d, step, kind))
    ensures BaseCheckpoint(d, step, snapshot).stage == step.id
  {
    hide TransitionSequence;
  }

  lemma ProgramLength(d: Disk, step: Step, kind: EventKind, snapshot: Snapshot)
    requires kind.IsTransition()
    ensures |RecordProgram(d, step, kind, snapshot)| == |OpeningProgram(d, step, kind, snapshot)| + 3
  {
    hide OpeningProgram, TransitionSequence;
  }

  lemma RecordingVerdict(d: Disk, step: Step, kind: EventKind, snapshot: Snapshot, k: nat, after: Disk, s: string, o: int)
    requires Inv(d) && Verdict(d, s, o) && Recording(d, step, kind, snapshot, k, after) && Undecided(d, step.id)
    ensures Verdict(after, s, o)
  {
    RecordingIs(d, step, kind, snapshot, k, after);
    hide Inv, Sound, Verdict, Recording, Undecided, RecordProgram, RecordRefusal, AboutOther, PerformAll;
    InvIsSound(d);
    if step.id != s {
      SoundLog(d);
      ProgramIsAbout(d, step, kind, snapshot, s);
      OthersKeepVerdict(d, RecordProgram(d, step, kind, snapshot), k, after, s, o);
    } else {
      UndecidedIsOpen(d, s, o);
      OwnRecordingVerdict(d, step, kind, snapshot, k, after, o);
    }
  }

  lemma RecordingIs(d: Disk, step: Step, kind: EventKind, snapshot: Snapshot, k: nat, after: Disk)
    requires Recording(d, step, kind, snapshot, k, after)
    ensures RecordRefusal(d, Some(Run(Some(snapshot))), step, kind).None? && kind.IsTransition()
    ensures k <= |RecordProgram(d, step, kind, snapshot)| && PerformAll(d, RecordProgram(d, step, kind, snapshot)[..k]) == Some(after)
  {
    hide RecordProgram, PerformAll;
  }

  lemma InvIsSound(d: Disk)
    requires Inv(d)
    ensures Sound(d) && NoLateCompletion(d)
  {
  }

  /** A recording writes of its own stage only. */
  lemma ProgramIsAbout(d: Disk, step: Step, kind: EventKind, snapshot: Snapshot, s: string)
    requires kind.IsTransition() && step.id != s && Ordered(d.events) && LastSequence(d.events) >= 0
    ensures var ws := RecordProgram(d, step, kind, snapshot);
      && (forall i :: 0 <= i < |ws| ==> AboutOther(ws[i], s))
      && (forall i :: 0 <= i < |ws| && ws[i].Save? ==> 0 <= ws[i].checkpoint.cursor)
  {
    if OpenStart(d.events, step.id).Some? { OpenStartIsOpen(d.events, step.id); }
    hide OpenStart, Ordered;
  }

  // ---------------------------------------------------------------------------------------------
  // Restores, other events and reopenings
  // ---------------------------------------------------------------------------------------------

  lemma RestoreAgrees(a: StageRestore, j: nat, events: seq<RunEvent>, effects: seq<ToolEffect>, snapshot: Snapshot, s: string, o: int)
    requires PlanItem(a.checkpoint, snapshot, events, effects) == Ok(a) && a.checkpoint.stage == s && j <= |StageSaves(a)|
    requires Agrees(events, a.checkpoint, s, o) && !LateCompletion(a.checkpoint, events)
    ensures Agrees(events, AfterSaves(a, j), s, o)
  {
    PlanPredicts(a, snapshot, events, effects);
  }

  lemma {:induction false} SameTerminalsOnly(events: seq<RunEvent>, later: seq<RunEvent>, s: string, o: int)
    requires SameStages(events, later)
    ensures forall i :: 0 <= i < |later| && TerminalOf(later[i], s, o) ==> i < |events| && later[i] == events[i]
  {
  }

  /** Other events around a checkpoint that says what the log said. */
  lemma VerdictLater(d: Disk, after: Disk, s: string, o: int)
    requires Verdict(d, s, o) && SameStages(d.events, after.events) && Ordered(after.events)
    requires s in after.checkpoints <==> s in d.checkpoints
    requires s in after.checkpoints ==> Agrees(d.events, after.checkpoints[s], s, o)
    ensures Verdict(after, s, o)
  {
    hide Agrees;
    LogGrows(d.events, after.events);
    SameTerminals(d.events, after.events, s, o);
    SameTerminalsOnly(d.events, after.events, s, o);
    if s in after.checkpoints { AgreesLater(d.events, after.events, after.checkpoints[s], s, o); }
  }

  lemma RestoringVerdict(d: Disk, plan: seq<StageRestore>, effects: seq<ToolEffect>, snapshot: Snapshot, k: nat, note: seq<Write>, after: Disk, s: string, o: int)
    requires Inv(d) && Verdict(d, s, o) && Restoring(d, plan, effects, snapshot, k, note, after)
    ensures Verdict(after, s, o)
  {
    InvIsSound(d);
    assert s in d.checkpoints ==> Agrees(d.events, d.checkpoints[s], s, o);
    hide Inv, Verdict, Agrees, PlansFor, PlanItem, CutCheckpoints, RestoreProgram, PerformAll, Sound, StageSaves, AfterSaves, IsCut, SameStages;
    PlanIsPlansFor(d, plan, effects, snapshot);
    CutIs(d, plan, k, note, after, effects, snapshot);
    SoundLog(after);
    if s in d.checkpoints {
      var i, j := FindCut(d, plan, k, s, effects, snapshot);
      RestoreAgrees(plan[i], j, d.events, effects, snapshot, s, o);
    } else if s in after.checkpoints {
      CutHasSameStages(d, plan, k, s);
      assert false;
    }
    VerdictLater(d, after, s, o);
  }

  lemma AgreesLater(events: seq<RunEvent>, later: seq<RunEvent>, c: StageCheckpoint, s: string, o: int)
    requires SameStages(events, later) && Agrees(events, c, s, o)
    ensures Agrees(later, c, s, o)
  {
    SameTerminals(events, later, s, o);
    SameTerminals(events, later, s, c.cursor);
  }

  lemma OtherVerdict(d: Disk, e: RunEvent, after: Disk, s: string, o: int)
    requires Inv(d) && Verdict(d, s, o) && OtherEvent(d, e, after)
    ensures Verdict(after, s, o)
  {
    InvIsSound(d);
    hide Inv, Sound, Verdict, Undecided;
    AppendKeepsVerdict(d, e, after, s, o);
  }

  lemma ReopeningVerdict(d: Disk, stage: string, after: Disk, s: string, o: int)
    requires Inv(d) && Verdict(d, s, o) && Reopening(d, stage, after)
    ensures Verdict(after, s, if stage == s then LastSequence(d.events) else o)
  {
    InvIsSound(d);
    PastTheEnd(d, s);
    SoundLog(d);
    NoTerminals(d.events, s, LastSequence(d.events));
    hide Sound, Inv;
  }

  // ---------------------------------------------------------------------------------------------
  // Histories
  // ---------------------------------------------------------------------------------------------

  lemma OrderlyIsNext(d: Disk, after: Disk)
    requires OrderlyNext(d, after)
    ensures Next(d, after)
  {
    hide Recording, Restoring, OtherEvent, Reopening;
  }

  lemma NextVerdict(d: Disk, after: Disk, s: string, o: int)
    requires Inv(d) && Verdict(d, s, o) && OrderlyNext(d, after)
    ensures Verdict(after, s, if Reopening(d, s, after) then LastSequence(d.events) else o)
  {
    hide Inv, Verdict, Recording, Restoring, OtherEvent, Reopening, Undecided;
    if Reopening(d, s, after) {
      ReopeningVerdict(d, s, after, s, o);
    } else if step: Step, kind, snapshot, k :| Recording(d, step, kind, snapshot, k, after) && Undecided(d, step.id) {
      RecordingVerdict(d, step, kind, snapshot, k, after, s, o);
    } else if plan, effects, snapshot, k, note :| Restoring(d, plan, effects, snapshot, k, note, after) {
      RestoringVerdict(d, plan, effects, snapshot, k, note, after, s, o);
    } else if e :| OtherEvent(d, e, after) {
      OtherVerdict(d, e, after, s, o);
    } else {
      var stage :| Reopening(d, stage, after);
      ReopeningVerdict(d, stage, after, s, o);
    }
  }

  lemma {:induction false} HistoriesKeepVerdict(history: seq<Disk>, n: nat, s: string)
    requires IsOrderly(history) && n < |history|
    ensures Inv(history[n]) && Verdict(history[n], s, Opened(history, n, s))
  {
    hide OrderlyNext, Next, Reopening;
    if n > 0 {
      HistoriesKeepVerdict(history, n - 1, s);
      assert OrderlyNext(history[n - 1], history[n - 1 + 1]);
      OrderlyIsNext(history[n - 1], history[n]);
      hide Inv, Verdict;
      NextKeepsInv(history[n - 1], history[n]);
      NextVerdict(history[n - 1], history[n], s, Opened(history, n - 1, s));
    }
  }

  ghost predicate CompletionLogged(d: Disk, s: string, o: int) {
    exists i :: 0 <= i < |d.events| && d.events[i].sequence > o && d.events[i].stage == s && d.events[i].kind.StageCompleted?
  }

  lemma {:induction false} TerminalIsOne(events: seq<RunEvent>, s: string, o: int)
    requires TerminalAfter(events, s, o).Some?
    ensures exists i :: 0 <= i < |events| && events[i] == TerminalAfter(events, s, o).value && TerminalOf(events[i], s, o)
  {
    if !TerminalOf(events[0], s, o) {
      TerminalIsOne(events[1..], s, o);
      var i :| 0 <= i < |events[1..]| && events[1..][i] == TerminalAfter(events[1..], s, o).value && TerminalOf(events[1..][i], s, o);
      assert events[i + 1] == events[1..][i];
    }
  }

  lemma FirstCompletesExactly(d: Disk, s: string, o: int)
    requires Verdict(d, s, o)
    ensures FirstCompletes(d.events, s, o) <==> CompletionLogged(d, s, o)
  {
    if FirstCompletes(d.events, s, o) { TerminalIsOne(d.events, s, o); }
  }

  lemma AcceptedCommits(d: Disk, s: string, o: int, snapshot: Snapshot, effects: seq<ToolEffect>, a: StageRestore)
    requires s in d.checkpoints && Agrees(d.events, d.checkpoints[s], s, o) && d.checkpoints[s].stage == s
    requires PlanItem(d.checkpoints[s], snapshot, d.events, effects) == Ok(a)
    ensures Outcome(a).status.Committed? <==> FirstCompletes(d.events, s, o)
    ensures Outcome(a).status.Committed? || Outcome(a).status.Compensated?
  {
    PlanKeepsItem(d.checkpoints[s], snapshot, d.events, effects, a);
    PlanPredicts(a, snapshot, d.events, effects);
    hide Outcome;
  }

  /**
    At every point of every orderly history, whatever was cut where: if a stage's checkpoint is accepted, the
    restore commits the stage exactly when its completion was logged since it was last opened, and compensates it
    otherwise.
   */
  lemma RestoreCommitsTheCompleted(history: seq<Disk>, n: nat, s: string, snapshot: Snapshot, effects: seq<ToolEffect>, a: StageRestore)
    requires IsOrderly(history) && n < |history| && s in history[n].checkpoints
    requires PlanItem(history[n].checkpoints[s], snapshot, history[n].events, effects) == Ok(a)
    ensures Outcome(a).status.Committed? <==> CompletionLogged(history[n], s, Opened(history, n, s))
    ensures Outcome(a).status.Committed? || Outcome(a).status.Compensated?
  {
    hide IsOrderly, Opened, Outcome, Inv, CompletionLogged, FirstCompletes, PlanItem, Agrees;
    var d, o := history[n], Opened(history, n, s);
    HistoriesKeepVerdict(history, n, s);
    NamedByStage(d, s);
    FirstCompletesExactly(d, s, o);
    AcceptedCommits(d, s, o, snapshot, effects, a);
  }

  lemma NamedByStage(d: Disk, s: string)
    requires Inv(d) && s in d.checkpoints
    ensures d.checkpoints[s].stage == s
  {
  }
}
