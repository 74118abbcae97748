/**
  The status of one run, written by any number of concurrent actors through compare-and-set
  (internal/agent/run_lifecycle.go, run_start.go; internal/store/run_lifecycle.go).

  Loading a status changes nothing, so every interleaving is a sequence of commits. Each commit is issued by
  one of the runtime's calls from a status it loaded earlier, however stale, or by one of the few store
  operations that write the status directly.
 */
module RunLifecycle {
  import opened Results

  datatype RunStatus = Queued | Running | WaitingForUser | Completed | Failed | FailedRecoverable | Canceling | Canceled

  datatype LifecycleEvent =
    | RunStarted
    | RunResumed
    | RunWaiting
    | RunCompleted
    | RunFailed
    | RunCancelRequested
    | RunCanceled

  /** `cursor` is the last sequence of the run's event log; a start is accepted only on an empty log. */
  datatype Row = Row(status: RunStatus, cursor: nat)

  datatype Transition = Transition(from: RunStatus, to: RunStatus, event: LifecycleEvent)

  predicate CompletionSource(s: RunStatus) {
    s.Running? || s.WaitingForUser? || s.FailedRecoverable? || s.Failed? || s.Completed?
  }

  /** validRunTransition */
  predicate Valid(t: Transition) {
    match t.event
    case RunStarted => t.to.Running? && (t.from.Queued? || t.from.Running?)
    case RunResumed => t.to.Running? && (t.from.WaitingForUser? || t.from.FailedRecoverable?)
    case RunCancelRequested => t.to.Canceling? && t.from.Running?
    case RunCanceled => t.to.Canceled? && !t.from.Completed? && !t.from.Failed?
    case RunCompleted => t.to.Completed? && CompletionSource(t.from)
    case RunFailed =>
      (t.to.Failed? || t.to.FailedRecoverable?) && (CompletionSource(t.from) || t.from.Canceling? || t.from.Queued?) && !t.from.Completed?
    case RunWaiting => t.to.WaitingForUser? && CompletionSource(t.from) && !t.from.Completed?
  }

  datatype Outcome = Invalid | NotApplied | Applied(row: Row)

  /** PrepareRunTransition: the compare-and-set on the durable status. The first commit also logs the creation. */
  function Prepare(row: Row, t: Transition): Outcome {
    var starting := t.event.RunStarted?;
    if !Valid(t) then Invalid
    else if row.status != t.from || (row.status == t.to && !starting) || (starting && row.cursor != 0) then NotApplied
    else Applied(Row(t.to, if row.cursor == 0 then 2 else row.cursor + 1))
  }

  // ---------------------------------------------------------------------------------------------
  // Who commits
  // ---------------------------------------------------------------------------------------------

  /** The runtime's entry points. `canceled` says that a failure's cause is the cancellation itself. */
  datatype Call =
    | Start
    | Resume
    | PausePlan
    | Complete
    | CompleteVerified
    | Fail(canceled: bool)
    | Reject(status: RunStatus)
    | SettleStop
    | Cancel
  {
    /** The completion gate may reconsider a failed run. */
    predicate IsGate() { CompleteVerified? || Reject? }

    predicate IsSettle() { Complete? || CompleteVerified? || Fail? || SettleStop? || (Reject? && Rejectable(status)) }

    function Target(): RunStatus
      requires IsSettle()
    {
      match this
      case Complete => Completed
      case CompleteVerified => Completed
      case Fail(_) => Failed
      case Reject(s) => s
      case SettleStop => Canceled
    }

    function TargetEvent(): LifecycleEvent
      requires IsSettle()
    {
      match this
      case Complete => RunCompleted
      case CompleteVerified => RunCompleted
      case Fail(_) => RunFailed
      case Reject(s) => if s.WaitingForUser? then RunWaiting else RunFailed
      case SettleStop => RunCanceled
    }
  }

  predicate Rejectable(s: RunStatus) { s.Failed? || s.FailedRecoverable? || s.WaitingForUser? }

  /** One round of settleRun: what to commit from a loaded status, or None to leave the run as it is. */
  function SettleFrom(call: Call, loaded: RunStatus): Option<Transition>
    requires call.IsSettle()
  {
    if loaded.Completed? || loaded.Canceled? || loaded == call.Target() || (loaded.Failed? && !call.IsGate()) then None
    else if loaded.Canceling? && (!call.Target().Failed? || call.IsGate() || (call.Fail? && call.canceled))
    then Some(Transition(loaded, Canceled, RunCanceled))
    else Some(Transition(loaded, call.Target(), call.TargetEvent()))
  }

  /** One round of CancelRun. */
  function CancelFrom(loaded: RunStatus): Option<Transition> {
    match loaded
    case Completed | Failed | Canceled | Canceling => None
    case Running => Some(Transition(Running, Canceling, RunCancelRequested))
    case _ => Some(Transition(loaded, Canceled, RunCanceled))
  }

  /** Everything a call may try to commit after loading a status. */
  function Issues(call: Call, loaded: RunStatus): Option<Transition> {
    match call
    case Start => Some(Transition(loaded, Running, RunStarted))
    case Resume => Some(Transition(loaded, Running, RunResumed))
    case PausePlan => if loaded.Running? then Some(Transition(Running, WaitingForUser, RunWaiting)) else None
    case Cancel => CancelFrom(loaded)
    case _ => if call.IsSettle() then SettleFrom(call, loaded) else None
  }

  /** A commit on the run: by a call, or by the store operations that check the status themselves. */
  datatype Action =
    | Commit(call: Call, loaded: RunStatus)
    | RepairInterrupted(expected: RunStatus)
    | SuspendForClarification
    | ClaimClarification
    | WithdrawClarification
    | LogEvent

  function Act(row: Row, a: Action): Row {
    match a
    case Commit(call, loaded) =>
      (match Issues(call, loaded)
       case None => row
       case Some(t) => match Prepare(row, t) case Applied(next) => next case _ => row)
    case RepairInterrupted(expected) =>
      if row.status != expected then row
      else if row.status.Running? then row.(status := FailedRecoverable)
      else if row.status.Canceling? then row.(status := Canceled)
      else row
    case SuspendForClarification => if row.status.Running? then Row(WaitingForUser, row.cursor + 1) else row
    case ClaimClarification =>
      if row.status.WaitingForUser? || row.status.FailedRecoverable? then Row(Running, row.cursor + 1) else row
    case WithdrawClarification => if row.status.WaitingForUser? then Row(Canceled, row.cursor + 1) else row
    case LogEvent => row.(cursor := row.cursor + 1)
  }

  function ActAll(row: Row, actions: seq<Action>): Row {
    if actions == [] then row else Act(ActAll(row, actions[..|actions| - 1]), actions[|actions| - 1])
  }

  lemma {:induction false} ActAllSplits(row: Row, first: seq<Action>, second: seq<Action>)
    ensures ActAll(row, first + second) == ActAll(ActAll(row, first), second)
  {
    if second == [] {
      assert first + second == first;
    } else {
      assert (first + second)[..|first + second| - 1] == first + second[..|second| - 1];
      ActAllSplits(row, first, second[..|second| - 1]);
    }
  }

  predicate IsGate(a: Action) { a.Commit? && a.call.IsGate() }

  /** Actions that can bring a waiting or recoverable run back to Running. */
  predicate IsResume(a: Action) { (a.Commit? && a.call.Resume?) || a.ClaimClarification? }

  predicate Ordinary(a: Action) { !IsGate(a) && !IsResume(a) }

  // ---------------------------------------------------------------------------------------------
  // Safety over every interleaving
  // ---------------------------------------------------------------------------------------------

  /** What one commit can do to the status, whoever issues it from whatever it loaded. */
  lemma StepIsSafe(row: Row, a: Action)
    ensures row.status.Completed? || row.status.Canceled? ==> Act(row, a).status == row.status
    ensures row.status.Failed? && Act(row, a).status != Failed ==> IsGate(a)
    ensures row.status.Canceling? && Act(row, a).status != Canceling ==> Act(row, a).status.Canceled? || Act(row, a).status.Failed?
    ensures Act(row, a).status.Completed? && !row.status.Completed? ==>
      a.Commit? && (a.call.Complete? || a.call.CompleteVerified?) && a.loaded == row.status
    ensures Act(row, a).status.Canceling? && !row.status.Canceling? ==> row.status.Running? && a.Commit? && a.call.Cancel?
  {
  }

  // ---------------------------------------------------------------------------------------------
  // The transition table
  // ---------------------------------------------------------------------------------------------

  /** A commit is applied only on the status it loaded, and moves the log on. */
  lemma OnlyOnWhatWasLoaded(row: Row, call: Call, loaded: RunStatus)
    ensures Act(row, Commit(call, loaded)) != row ==> row.status == loaded
    ensures Act(row, Commit(call, loaded)) != row ==>
      Act(row, Commit(call, loaded)).cursor == if row.cursor == 0 then 2 else row.cursor + 1
    ensures Act(row, Commit(call, loaded)) != row && !call.Start? ==> Act(row, Commit(call, loaded)).status != row.status
  {
  }

  /** A Stop asks a running worker to stop, and itself cancels what has no worker. */
  lemma CancelExactly(row: Row, loaded: RunStatus)
    ensures row.status.Running? ==> !Act(row, Commit(Cancel, loaded)).status.Canceled?
    ensures row.status == loaded ==> Act(row, Commit(Cancel, loaded)).status == (match loaded
      case Running => Canceling
      case Queued | WaitingForUser | FailedRecoverable => Canceled
      case Completed | Failed | Canceling | Canceled => loaded)
  {
  }

  /** A completion, by the worker or by the gate, acknowledges a Stop; only the gate's revives a failed run. */
  lemma CompleteExactly(row: Row)
    ensures Act(row, Commit(Complete, row.status)).status == (match row.status
      case Running | WaitingForUser | FailedRecoverable => Completed
      case Canceling => Canceled
      case Queued | Completed | Failed | Canceled => row.status)
    ensures Act(row, Commit(CompleteVerified, row.status)).status == (match row.status
      case Running | WaitingForUser | FailedRecoverable | Failed => Completed
      case Canceling => Canceled
      case Queued | Completed | Canceled => row.status)
  {
  }

  /** A failure settles every run that is not settled yet; a Stop that is its own cause it acknowledges. */
  lemma FailExactly(row: Row, canceled: bool)
    ensures Act(row, Commit(Fail(canceled), row.status)).status == (match row.status
      case Queued | Running | WaitingForUser | FailedRecoverable => Failed
      case Canceling => if canceled then Canceled else Failed
      case Completed | Failed | Canceled => row.status)
    ensures Act(row, Commit(SettleStop, row.status)).status == (match row.status
      case Completed | Failed => row.status
      case _ => Canceled)
  {
  }

  /** A rejected completion leads to the status asked for, from everything but a settled run, and acknowledges a Stop. */
  lemma RejectExactly(row: Row, to: RunStatus)
    requires to.Failed? || to.FailedRecoverable? || to.WaitingForUser?
    ensures Act(row, Commit(Reject(to), row.status)).status == (match row.status
      case Running | WaitingForUser | FailedRecoverable | Failed => to
      case Queued => if to.WaitingForUser? then Queued else to
      case Canceling => Canceled
      case Completed | Canceled => row.status)
  {
  }

  /** Starting, resuming and pausing. */
  lemma ProceedExactly(row: Row)
    ensures Act(row, Commit(Start, row.status)) ==
      if (row.status.Queued? || row.status.Running?) && row.cursor == 0 then Row(Running, 2) else row
    ensures Act(row, Commit(Resume, row.status)).status ==
      if row.status.WaitingForUser? || row.status.FailedRecoverable? then Running else row.status
    ensures Act(row, Commit(PausePlan, row.status)).status == if row.status.Running? then WaitingForUser else row.status
  {
  }

  /** Completed and Canceled are never left. */
  lemma {:induction false} FinalIsForever(row: Row, actions: seq<Action>)
    requires row.status.Completed? || row.status.Canceled?
    ensures ActAll(row, actions).status == row.status
  {
    if actions != [] {
      FinalIsForever(row, actions[..|actions| - 1]);
      StepIsSafe(ActAll(row, actions[..|actions| - 1]), actions[|actions| - 1]);
    }
  }

  /** A requested Stop is not overtaken: only its acknowledgement or a failure follows, and only the gate goes on from a failure. */
  lemma {:induction false} StopIsNotOvertaken(row: Row, actions: seq<Action>)
    requires row.status.Canceling? || row.status.Failed? || row.status.Canceled?
    requires forall a :: a in actions ==> !IsGate(a)
    ensures var status := ActAll(row, actions).status;
      status.Canceling? || status.Canceled? || status.Failed?
    ensures row.status.Failed? ==> ActAll(row, actions).status.Failed?
  {
    if actions != [] {
      var init := actions[..|actions| - 1];
      StopIsNotOvertaken(row, init);
      StepIsSafe(ActAll(row, init), actions[|actions| - 1]);
    }
  }

  /** The statuses a Stop and what settles it leave a run in. */
  predicate Stopping(s: RunStatus) { s.Canceling? || s.Canceled? || s.Failed? }

  /** A commit of the completion gate that found the run failed and means to lead it on. */
  predicate Reconsiders(a: Action) {
    a.Commit? && a.call.IsGate() && a.call.IsSettle() && a.loaded.Failed? && !a.call.Target().Failed?
  }

  /** A failure that does not know of the Stop it settles. */
  predicate FailsStop(a: Action) { a == Commit(Fail(false), Canceling) }

  /** The only way out of the stopping statuses, and the only way from the Stop to a failure. */
  lemma LeavesExactly(row: Row, a: Action)
    requires Stopping(row.status)
    ensures !Stopping(Act(row, a).status) <==> row.status.Failed? && Reconsiders(a)
    ensures !row.status.Failed? && Act(row, a).status.Failed? <==> row.status.Canceling? && FailsStop(a)
  {
  }

  /** Some commit led the run on after its Stop. */
  predicate Overtaken(row: Row, actions: seq<Action>) {
    exists n :: 0 <= n <= |actions| && !Stopping(ActAll(row, actions[..n]).status)
  }

  predicate ReconsideredAt(row: Row, actions: seq<Action>, i: nat) {
    i < |actions| && Reconsiders(actions[i]) && ActAll(row, actions[..i]).status.Failed?
  }

  lemma OneFurther(row: Row, actions: seq<Action>, i: nat)
    requires i < |actions|
    ensures ActAll(row, actions[..i + 1]) == Act(ActAll(row, actions[..i]), actions[i])
  {
    assert actions[..i + 1][..i] == actions[..i];
  }

  /** From a Stop, a run is overtaken exactly when some gate commit that reconsiders meets it failed. */
  lemma OvertakenExactly(row: Row, actions: seq<Action>)
    requires Stopping(row.status)
    ensures Overtaken(row, actions) <==> exists i: nat :: ReconsideredAt(row, actions, i)
  {
    if i: nat :| ReconsideredAt(row, actions, i) {
      OneFurther(row, actions, i);
      LeavesExactly(ActAll(row, actions[..i]), actions[i]);
      assert !Stopping(ActAll(row, actions[..i + 1]).status);
    }
    if n :| 0 <= n <= |actions| && !Stopping(ActAll(row, actions[..n]).status) {
      var i := FirstLeaving(row, actions, n);
    }
  }

  lemma {:induction false} FirstLeaving(row: Row, actions: seq<Action>, n: nat) returns (i: nat)
    requires Stopping(row.status) && n <= |actions| && !Stopping(ActAll(row, actions[..n]).status)
    ensures ReconsideredAt(row, actions, i)
    decreases n
  {
    assert actions[..0] == [];
    assert n > 0;
    OneFurther(row, actions, n - 1);
    if Stopping(ActAll(row, actions[..n - 1]).status) {
      LeavesExactly(ActAll(row, actions[..n - 1]), actions[n - 1]);
      i := n - 1;
    } else {
      i := FirstLeaving(row, actions, n - 1);
    }
  }

  /** A stopping run that fails was failed by a commit that did not know of the Stop. */
  lemma {:induction false} FailedByOne(row: Row, actions: seq<Action>, n: nat) returns (i: nat)
    requires row.status.Canceling? && n <= |actions| && ActAll(row, actions[..n]).status.Failed?
    requires forall k :: 0 <= k < n ==> Stopping(ActAll(row, actions[..k]).status)
    ensures i < n && FailsStop(actions[i])
    decreases n
  {
    assert actions[..0] == [];
    assert n > 0;
    OneFurther(row, actions, n - 1);
    if ActAll(row, actions[..n - 1]).status.Failed? {
      i := FailedByOne(row, actions, n - 1);
    } else {
      LeavesExactly(ActAll(row, actions[..n - 1]), actions[n - 1]);
      i := n - 1;
    }
  }

  lemma {:induction false} FirstOf(row: Row, actions: seq<Action>, n: nat) returns (m: nat)
    requires Stopping(row.status) && n <= |actions| && !Stopping(ActAll(row, actions[..n]).status)
    ensures 0 < m <= n && !Stopping(ActAll(row, actions[..m]).status)
    ensures forall k :: 0 <= k < m ==> Stopping(ActAll(row, actions[..k]).status)
    decreases n
  {
    assert actions[..0] == [];
    assert n > 0;
    if k :| 0 <= k < n && !Stopping(ActAll(row, actions[..k]).status) {
      m := FirstOf(row, actions, k);
    } else {
      m := n;
    }
  }

  predicate AllFrom(actions: seq<Action>, permitted: set<Action>) {
    forall i :: 0 <= i < |actions| ==> actions[i] in permitted
  }

  /**
    Which actors are safe beside a Stop: whatever they do, none of it overtakes the Stop, exactly when not both a
    failure that ignores the Stop and a gate commit that reconsiders failures are among what they may do.
   */
  lemma PermittedExactly(cursor: nat, permitted: set<Action>)
    ensures (forall actions :: AllFrom(actions, permitted) ==> !Overtaken(Row(Canceling, cursor), actions))
      <==> !((exists a :: a in permitted && FailsStop(a)) && (exists a :: a in permitted && Reconsiders(a)))
  {
    var row := Row(Canceling, cursor);
    if (exists a :: a in permitted && FailsStop(a)) && (exists a :: a in permitted && Reconsiders(a)) {
      var a :| a in permitted && FailsStop(a);
      var b :| b in permitted && Reconsiders(b);
      FailThenReconsider(row, a, b);
      assert AllFrom([a, b], permitted);
    } else {
      forall actions | AllFrom(actions, permitted) ensures !Overtaken(row, actions) {
        if Overtaken(row, actions) {
          var n :| 0 <= n <= |actions| && !Stopping(ActAll(row, actions[..n]).status);
          BothArePermitted(row, actions, n, permitted);
          assert false;
        }
      }
    }
  }

  lemma FailThenReconsider(row: Row, a: Action, b: Action)
    requires row.status.Canceling? && FailsStop(a) && Reconsiders(b)
    ensures Overtaken(row, [a, b])
  {
    assert [a, b][..0] == [] && [a, b][..1] == [a] && [a, b][..2] == [a, b];
    OneFurther(row, [a, b], 0);
    OneFurther(row, [a, b], 1);
    LeavesExactly(row, a);
    LeavesExactly(Act(row, a), b);
    assert !Stopping(ActAll(row, [a, b][..2]).status);
  }

  lemma BothArePermitted(row: Row, actions: seq<Action>, n: nat, permitted: set<Action>)
    requires row.status.Canceling? && n <= |actions| && !Stopping(ActAll(row, actions[..n]).status) && AllFrom(actions, permitted)
    ensures (exists a :: a in permitted && FailsStop(a)) && (exists a :: a in permitted && Reconsiders(a))
  {
    var m := FirstOf(row, actions, n);
    OneFurther(row, actions, m - 1);
    LeavesExactly(ActAll(row, actions[..m - 1]), actions[m - 1]);
    var i := FailedByOne(row, actions, m - 1);
    assert actions[i] in permitted && actions[m - 1] in permitted;
  }

  /** With the gate, it can be: a plain failure settles the Stop, and a verified completion reconsiders the failure. */
  lemma GateOvertakesStop(cursor: nat)
    requires cursor > 0
    ensures ActAll(Row(Canceling, cursor), [Commit(Fail(false), Canceling), Commit(CompleteVerified, Failed)]).status.Completed?
  {
    var row := Row(Canceling, cursor);
    var fail, complete := Commit(Fail(false), Canceling), Commit(CompleteVerified, Failed);
    assert [fail, complete][..1] == [fail] && [fail][..0] == [];
    assert ActAll(row, [fail]) == Row(Failed, cursor + 1);
  }

  /** The calls whose commit moved the run into Completed. */
  function Completions(row: Row, actions: seq<Action>): nat {
    if actions == [] then 0
    else
      var init := actions[..|actions| - 1];
      Completions(row, init)
      + if !ActAll(row, init).status.Completed? && ActAll(row, actions).status.Completed? then 1 else 0
  }

  /** However many actors complete a run, at most one of them is applied, and exactly one if the run ends Completed. */
  lemma {:induction false} AtMostOneCompletion(row: Row, actions: seq<Action>)
    requires !row.status.Completed?
    ensures Completions(row, actions) == if ActAll(row, actions).status.Completed? then 1 else 0
  {
    if actions != [] {
      var init := actions[..|actions| - 1];
      AtMostOneCompletion(row, init);
      StepIsSafe(ActAll(row, init), actions[|actions| - 1]);
    }
  }

  /** A start is applied only before anything else happened to the run, so never twice. */
  lemma StartIsFirst(row: Row, loaded: RunStatus)
    requires Act(row, Commit(Start, loaded)) != row
    ensures row.cursor == 0 && Act(row, Commit(Start, loaded)) == Row(Running, 2)
    ensures forall again :: Act(Act(row, Commit(Start, loaded)), Commit(Start, again)) == Act(row, Commit(Start, loaded))
  {
  }

  // ---------------------------------------------------------------------------------------------
  // The rank behind the four attempts
  // ---------------------------------------------------------------------------------------------

  function Rank(s: RunStatus): nat {
    match s
    case Queued => 3
    case Running => 2
    case WaitingForUser | FailedRecoverable | Canceling => 1
    case Completed | Failed | Canceled => 0
  }

  /** While nobody resumes the run and the gate stays out, every change of status lowers the rank. */
  lemma OrdinaryLowersRank(row: Row, a: Action)
    requires Ordinary(a)
    ensures Act(row, a).status == row.status || Rank(Act(row, a).status) < Rank(row.status)
  {
  }

  lemma {:induction false} OrdinaryActionsLowerRank(row: Row, actions: seq<Action>)
    requires forall a :: a in actions ==> Ordinary(a)
    ensures ActAll(row, actions).status == row.status || Rank(ActAll(row, actions).status) < Rank(row.status)
  {
    if actions != [] {
      var init := actions[..|actions| - 1];
      OrdinaryActionsLowerRank(row, init);
      OrdinaryLowersRank(ActAll(row, init), actions[|actions| - 1]);
    }
  }

  /** Three attempts would not be: a start, a plan pause and a Stop can each overtake one attempt to fail the run. */
  lemma ThreeAttemptsAreNotEnough()
    ensures var start, pause, stop := Commit(Start, Queued), Commit(PausePlan, Running), Commit(Cancel, WaitingForUser);
      var started := Act(Row(Queued, 0), start);
      var paused := Act(started, pause);
      var stopped := Act(paused, stop);
      && Ordinary(start) && Ordinary(pause) && Ordinary(stop)
      && Prepare(started, SettleFrom(Fail(false), Queued).value).NotApplied?
      && Prepare(paused, SettleFrom(Fail(false), Running).value).NotApplied?
      && Prepare(stopped, SettleFrom(Fail(false), WaitingForUser).value).NotApplied?
  {
  }
}
