/**
  The runtime's retry loops, run against a store that other actors write at any moment. `others` lists what
  they commit before each of this actor's store accesses; the loops must cope with every such list.
 */
module RunActors {
  import opened Results
  import opened RunLifecycle

  datatype LifecycleError = RunStateChanged | TransitionInvalid | InvalidRejection

  datatype Settled = Settled(status: RunStatus, applied: bool)

  const ATTEMPTS := 4

  function NextBatch(others: seq<seq<Action>>): seq<Action> {
    if others == [] then [] else others[0]
  }

  function LaterBatches(others: seq<seq<Action>>): seq<seq<Action>> {
    if others == [] then [] else others[1..]
  }

  ghost predicate AllOrdinary(others: seq<seq<Action>>) {
    forall batch, a :: batch in others && a in batch ==> Ordinary(a)
  }

  class RunStore {
    var row: Row
    var others: seq<seq<Action>>
    const initial: Row
    ghost var history: seq<Action>

    ghost predicate Consistent()
      reads this
    {
      row == ActAll(initial, history)
    }

    constructor (row: Row, others: seq<seq<Action>>)
      ensures Consistent() && this.row == row && initial == row && this.others == others && history == []
    {
      this.row, this.others, initial, history := row, others, row, [];
    }

    /** The other actors' next commits. */
    method Interleave()
      requires Consistent()
      modifies this
      ensures Consistent()
      ensures history == old(history) + NextBatch(old(others)) && others == LaterBatches(old(others))
      ensures row == ActAll(old(row), NextBatch(old(others)))
    {
      var batch := NextBatch(others);
      others := LaterBatches(others);
      for i := 0 to |batch|
        invariant row == ActAll(old(row), batch[..i])
        invariant history == old(history) && others == LaterBatches(old(others))
      {
        hide Act;
        assert batch[..i + 1][..i] == batch[..i];
        row := Act(row, batch[i]);
      }
      assert batch[..|batch|] == batch;
      history := history + batch;
      ActAllSplits(initial, old(history), batch);
    }

    method GetRun() returns (status: RunStatus)
      requires Consistent()
      modifies this
      ensures Consistent() && status == row.status
      ensures history == old(history) + NextBatch(old(others)) && others == LaterBatches(old(others))
      ensures row == ActAll(old(row), NextBatch(old(others)))
    {
      Interleave();
      status := row.status;
    }

    /** The compare-and-set, on whatever the row has become by the time it is reached. */
    method TransitionRun(call: Call, loaded: RunStatus, t: Transition) returns (outcome: Outcome, current: RunStatus)
      requires Consistent() && Issues(call, loaded) == Some(t)
      modifies this
      ensures Consistent() && current == row.status && others == LaterBatches(old(others))
      ensures history == old(history) + NextBatch(old(others)) + [Commit(call, loaded)]
      ensures outcome == Prepare(ActAll(old(row), NextBatch(old(others))), t)
      ensures row == if outcome.Applied? then outcome.row else ActAll(old(row), NextBatch(old(others)))
    {
      hide Prepare, Issues;
      Interleave();
      outcome := Prepare(row, t);
      ghost var action := Commit(call, loaded);
      OneMoreAction(initial, history, action);
      history := history + [action];
      if outcome.Applied? { row := outcome.row; }
      current := row.status;
    }
  }

  lemma OneMoreAction(row: Row, actions: seq<Action>, a: Action)
    ensures ActAll(row, actions + [a]) == Act(ActAll(row, actions), a)
  {
    assert (actions + [a])[..|actions|] == actions;
  }

  lemma RankIsAtMostThree(s: RunStatus)
    ensures Rank(s) <= 3
  {
  }

  /** A commit can only be lost to a change of status. */
  lemma LostOnlyToAChange(call: Call, loaded: RunStatus, t: Transition, row: Row)
    requires (call.IsSettle() && SettleFrom(call, loaded) == Some(t)) || (call.Cancel? && CancelFrom(loaded) == Some(t))
    requires row.status == loaded
    ensures !Prepare(row, t).NotApplied?
  {
  }

  /** A settlement is invalid exactly when it would complete or suspend a run that has not started. */
  lemma InvalidExactly(call: Call, loaded: RunStatus)
    requires call.IsSettle() && SettleFrom(call, loaded).Some?
    ensures !Valid(SettleFrom(call, loaded).value) <==> loaded.Queued? && (call.Target().Completed? || call.Target().WaitingForUser?)
  {
  }

  /** What becomes of a settlement's commit on the row it reaches. */
  lemma SettleIssues(call: Call, loaded: RunStatus, t: Transition, row: Row)
    requires call.IsSettle() && SettleFrom(call, loaded) == Some(t)
    ensures Issues(call, loaded) == Some(t)
    ensures row.status == loaded ==> !Prepare(row, t).NotApplied?
    ensures Prepare(row, t).Invalid? ==> call.Target().Completed? || call.Target().WaitingForUser?
    ensures Prepare(row, t).Applied? ==>
      Prepare(row, t).row.status == call.Target() || (Prepare(row, t).row.status.Canceled? && loaded.Canceling?)
    ensures Prepare(row, t).Applied? && !call.IsGate() && Stopping(row.status) ==> Stopping(Prepare(row, t).row.status)
  {
    StepIsSafe(row, Commit(call, loaded));
    LostOnlyToAChange(call, loaded, t, row.(status := loaded));
    InvalidExactly(call, loaded);
  }

  lemma CancelIssues(loaded: RunStatus, row: Row)
    ensures CancelFrom(loaded).None? <==> loaded.Completed? || loaded.Failed? || loaded.Canceled? || loaded.Canceling?
    ensures CancelFrom(loaded).Some? ==>
      var t := CancelFrom(loaded).value;
      && Issues(Cancel, loaded) == Some(t) && !Prepare(row, t).Invalid?
      && (row.status == loaded ==> Prepare(row, t).Applied?)
      && (Prepare(row, t).Applied? ==> Prepare(row, t).row.status.Canceled? || Prepare(row, t).row.status.Canceling?)
  {
  }

  /** A round that nobody interferes with comes to what its commit comes to. */
  lemma RoundAlone(call: Call, row: Row)
    requires call.IsSettle() || call.Cancel?
    ensures Issues(call, row.status).None? ==>
      Act(row, Commit(call, row.status)) == row && (call.IsSettle() ==> !row.status.Queued?)
    ensures Issues(call, row.status).Some? ==>
      var outcome := Prepare(row, Issues(call, row.status).value);
      && !outcome.NotApplied?
      && (outcome.Applied? ==> Act(row, Commit(call, row.status)) == outcome.row != row)
      && (outcome.Invalid? ==> Act(row, Commit(call, row.status)) == row)
      && (outcome.Invalid? <==> call.IsSettle() && row.status.Queued? && (call.Target().Completed? || call.Target().WaitingForUser?))
    ensures Issues(call, row.status) == if call.Cancel? then CancelFrom(row.status) else SettleFrom(call, row.status)
  {
  }

  lemma NobodyElse(row: Row, others: seq<seq<Action>>)
    requires others == []
    ensures ActAll(row, NextBatch(others)) == row && LaterBatches(others) == others && AllOrdinary(others)
  {
  }

  lemma StartOutcome(loaded: RunStatus, row: Row)
    ensures Prepare(row, Transition(loaded, Running, RunStarted)).Applied? ==>
      Prepare(row, Transition(loaded, Running, RunStarted)).row == Row(Running, 2)
    ensures Prepare(row, Transition(loaded, Running, RunStarted)).Invalid? <==> !loaded.Queued? && !loaded.Running?
    ensures Prepare(row, Transition(loaded, Running, RunStarted)).Applied? <==>
      (loaded.Queued? || loaded.Running?) && row == Row(loaded, 0)
  {
  }

  lemma BatchIsOrdinary(others: seq<seq<Action>>, row: Row)
    requires AllOrdinary(others)
    ensures AllOrdinary(LaterBatches(others))
    ensures var next := ActAll(row, NextBatch(others)); next.status == row.status || Rank(next.status) < Rank(row.status)
    ensures Stopping(row.status) ==> Stopping(ActAll(row, NextBatch(others)).status)
  {
    forall a | a in NextBatch(others) ensures Ordinary(a) {
      assert others[0] in others;
    }
    OrdinaryActionsLowerRank(row, NextBatch(others));
    if Stopping(row.status) { StopIsNotOvertaken(row, NextBatch(others)); }
  }

  class Runtime {
    const store: RunStore

    constructor (store: RunStore)
      ensures this.store == store
    {
      this.store := store;
    }

    /**
      Reloads and retries up to four times. With only ordinary actors around, four attempts are enough: a
      lost attempt means the rank fell, and at rank zero there is nothing left to lose to.
     */
    method SettleRun(call: Call) returns (r: Result<Settled, LifecycleError>)
      requires store.Consistent() && call.IsSettle()
      modifies store
      ensures store.Consistent() && old(store.history) <= store.history
      ensures old(AllOrdinary(store.others)) ==> r != Err(RunStateChanged) && AllOrdinary(store.others)
      ensures r.Ok? ==> r.value.status == store.row.status
      ensures r.Ok? && r.value.applied ==>
        r.value.status == call.Target() || (r.value.status.Canceled? && store.history != [] && store.history[|store.history| - 1] == Commit(call, Canceling))
      ensures r.Ok? && !r.value.applied ==> SettleFrom(call, r.value.status).None?
      ensures r.Err? ==> r.error.RunStateChanged? || r.error.TransitionInvalid?
      ensures r == Err(TransitionInvalid) ==> call.Target().Completed? || call.Target().WaitingForUser?
      ensures old(AllOrdinary(store.others)) ==>
        store.row.status == old(store.row.status) || Rank(store.row.status) < Rank(old(store.row.status)) || (r.Ok? && r.value.applied)
      ensures old(AllOrdinary(store.others)) && !call.IsGate() && old(Stopping(store.row.status)) ==> Stopping(store.row.status)
      ensures old(store.others) == [] ==> store.row == Act(old(store.row), Commit(call, old(store.row.status)))
      ensures old(store.others) == [] ==>
        && (r == Err(TransitionInvalid) <==> old(store.row.status).Queued? && (call.Target().Completed? || call.Target().WaitingForUser?))
        && (r.Ok? ==> (r.value.applied <==> store.row != old(store.row)))
        && r != Err(RunStateChanged)
    {
      hide Prepare, SettleFrom, ActAll, Act, Rank, AllOrdinary, Stopping, NextBatch, LaterBatches, Issues;
      if store.others == [] {
        RoundAlone(call, store.row);
        NobodyElse(store.row, store.others);
      }
      ghost var ordinary := AllOrdinary(store.others);
      RankIsAtMostThree(store.row.status);
      for attempt := 0 to ATTEMPTS
        invariant store.Consistent() && old(store.history) <= store.history
        invariant ordinary ==> AllOrdinary(store.others)
        invariant ordinary ==> Rank(store.row.status) + attempt <= 3
        invariant ordinary ==> store.row.status == old(store.row.status) || Rank(store.row.status) < Rank(old(store.row.status))
        invariant ordinary && !call.IsGate() && old(Stopping(store.row.status)) ==> Stopping(store.row.status)
        invariant old(store.others) == [] ==> attempt == 0 && store.row == old(store.row) && store.others == []
      {
        if ordinary { BatchIsOrdinary(store.others, store.row); }
        var status := store.GetRun();
        var next := SettleFrom(call, status);
        if next.None? { return Ok(Settled(status, false)); }
        if ordinary { BatchIsOrdinary(store.others, store.row); }
        ghost var reached := ActAll(store.row, NextBatch(store.others));
        SettleIssues(call, status, next.value, reached);
        var outcome, current := store.TransitionRun(call, status, next.value);
        if outcome.Invalid? { return Err(TransitionInvalid); }
        if outcome.Applied? { return Ok(Settled(current, true)); }
      }
      r := Err(RunStateChanged);
    }

    method CompleteRun() returns (r: Result<Settled, LifecycleError>)
      requires store.Consistent()
      modifies store
      ensures old(AllOrdinary(store.others)) ==> r != Err(RunStateChanged)
      ensures r.Ok? ==> r.value.status == store.row.status && (r.value.status.Completed? || r.value.status.Canceled? || r.value.status.Failed?)
      ensures old(store.others) == [] ==>
        match old(store.row.status)
        case Running | WaitingForUser | FailedRecoverable => r == Ok(Settled(Completed, true))
        case Canceling => r == Ok(Settled(Canceled, true))
        case Queued => r == Err(TransitionInvalid)
        case Completed | Failed | Canceled => r == Ok(Settled(old(store.row.status), false))
    {
      CompleteExactly(store.row);
      r := SettleRun(Complete);
    }

    method CompleteVerifiedRun() returns (r: Result<Settled, LifecycleError>)
      requires store.Consistent()
      modifies store
      ensures old(AllOrdinary(store.others)) ==> r != Err(RunStateChanged)
      ensures r.Ok? ==> r.value.status == store.row.status && (r.value.status.Completed? || r.value.status.Canceled?)
      ensures old(store.others) == [] ==>
        match old(store.row.status)
        case Running | WaitingForUser | FailedRecoverable | Failed => r == Ok(Settled(Completed, true))
        case Canceling => r == Ok(Settled(Canceled, true))
        case Queued => r == Err(TransitionInvalid)
        case Completed | Canceled => r == Ok(Settled(old(store.row.status), false))
    {
      CompleteExactly(store.row);
      r := SettleRun(CompleteVerified);
    }

    method FailRun(canceled: bool) returns (r: Result<Settled, LifecycleError>)
      requires store.Consistent()
      modifies store
      ensures store.Consistent() && old(store.history) <= store.history
      ensures old(AllOrdinary(store.others)) ==> r.Ok? && (old(Stopping(store.row.status)) ==> Stopping(store.row.status))
      ensures r.Ok? ==> r.value.status == store.row.status && (r.value.status.Completed? || r.value.status.Canceled? || r.value.status.Failed?)
      ensures old(store.others) == [] ==>
        match old(store.row.status)
        case Queued | Running | WaitingForUser | FailedRecoverable => r == Ok(Settled(Failed, true))
        case Canceling => r == Ok(Settled(if canceled then Canceled else Failed, true))
        case Completed | Failed | Canceled => r == Ok(Settled(old(store.row.status), false))
    {
      FailExactly(store.row, canceled);
      r := SettleRun(Fail(canceled));
    }

    method RejectRunCompletion(status: RunStatus) returns (r: Result<Settled, LifecycleError>)
      requires store.Consistent()
      modifies store
      ensures !status.Failed? && !status.FailedRecoverable? && !status.WaitingForUser? ==> r == Err(InvalidRejection) && store.row == old(store.row)
      ensures Rejectable(status) && old(AllOrdinary(store.others)) ==> r != Err(RunStateChanged)
      ensures r.Ok? ==> r.value.status == store.row.status && (r.value.status == status || r.value.status.Completed? || r.value.status.Canceled?)
      ensures Rejectable(status) && old(store.others) == [] ==>
        match old(store.row.status)
        case Running | WaitingForUser | FailedRecoverable | Failed => r == Ok(Settled(status, status != old(store.row.status)))
        case Queued => r == if status.WaitingForUser? then Err(TransitionInvalid) else Ok(Settled(status, true))
        case Canceling => r == Ok(Settled(Canceled, true))
        case Completed | Canceled => r == Ok(Settled(old(store.row.status), false))
    {
      if Rejectable(status) { RejectExactly(store.row, status); }
      if !Rejectable(status) { return Err(InvalidRejection); }
      r := SettleRun(Reject(status));
    }

    /**
      A Stop that returns has stopped the run, or asked the running worker to. Undisturbed, it asks exactly the
      worker of a running run, and cancels every run that has none.
     */
    method CancelRun() returns (r: Result<RunStatus, LifecycleError>)
      requires store.Consistent()
      modifies store
      ensures store.Consistent() && old(store.history) <= store.history
      ensures old(AllOrdinary(store.others)) ==> r.Ok?
      ensures r.Ok? ==> r.value == store.row.status && (r.value.Completed? || r.value.Failed? || r.value.Canceled? || r.value.Canceling?)
      ensures r.Err? ==> r.error.RunStateChanged?
      ensures old(store.others) == [] ==>
        match old(store.row.status)
        case Running => r == Ok(Canceling)
        case Queued | WaitingForUser | FailedRecoverable => r == Ok(Canceled)
        case Completed | Failed | Canceling | Canceled => r == Ok(old(store.row.status)) && store.row == old(store.row)
    {
      hide Prepare, CancelFrom, ActAll, Act, Rank, AllOrdinary, NextBatch, LaterBatches, Issues;
      if store.others == [] {
        RoundAlone(Cancel, store.row);
        CancelExactly(store.row, store.row.status);
        NobodyElse(store.row, store.others);
      }
      ghost var ordinary := AllOrdinary(store.others);
      RankIsAtMostThree(store.row.status);
      for attempt := 0 to ATTEMPTS
        invariant store.Consistent() && old(store.history) <= store.history
        invariant ordinary ==> AllOrdinary(store.others)
        invariant ordinary ==> Rank(store.row.status) + attempt <= 3
        invariant old(store.others) == [] ==> attempt == 0 && store.row == old(store.row) && store.others == []
      {
        if ordinary { BatchIsOrdinary(store.others, store.row); }
        var status := store.GetRun();
        var next := CancelFrom(status);
        CancelIssues(status, ActAll(store.row, NextBatch(store.others)));
        if next.None? { return Ok(status); }
        if ordinary { BatchIsOrdinary(store.others, store.row); }
        var outcome, current := store.TransitionRun(Cancel, status, next.value);
        if outcome.Applied? { return Ok(current); }
      }
      r := Err(RunStateChanged);
    }

    /**
      Starts a run it loaded earlier. A starter that loses to a Stop settles the cancellation itself, so the
      run is not left waiting for a worker that will never come.
     */
    method StartRun(loaded: RunStatus) returns (started: bool, status: RunStatus, settling: Option<LifecycleError>)
      requires store.Consistent()
      modifies store
      ensures store.Consistent() && old(store.history) <= store.history
      ensures started ==> status.Running? && store.row == Row(Running, 2)
      ensures old(AllOrdinary(store.others)) ==> settling.None? && ((loaded.Queued? || loaded.Running?) ==> !status.Canceling?)
      ensures settling.None? ==> status == store.row.status
      ensures old(store.others) == [] ==>
        && (started <==> (loaded.Queued? || loaded.Running?) && old(store.row) == Row(loaded, 0))
        && (!started && !old(store.row.status).Canceling? ==> store.row == old(store.row))
        && (old(store.row.status).Canceling? && (loaded.Queued? || loaded.Running?) ==> status.Canceled?)
    {
      hide Prepare, ActAll, Act, AllOrdinary, Rank, NextBatch, LaterBatches;
      if store.others == [] { NobodyElse(store.row, store.others); }
      ghost var ordinary := AllOrdinary(store.others);
      var t := Transition(loaded, Running, RunStarted);
      if ordinary { BatchIsOrdinary(store.others, store.row); }
      StartOutcome(loaded, ActAll(store.row, NextBatch(store.others)));
      var outcome, current := store.TransitionRun(Start, loaded, t);
      started, status, settling := outcome.Applied?, current, None;
      if outcome.NotApplied? && current.Canceling? {
        var settled := FailRun(true);
        match settled
        case Ok(s) => status := s.status;
        case Err(e) => settling := Some(e);
      }
    }
  }
}
