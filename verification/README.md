# Durable execution kernel of AgentFlow: a model and its proofs

The Go backend of AgentFlow keeps an agent's run alive across crashes, cancellations and competing requests. This
project models that kernel in Dafny, together with the arithmetic and the parsing around it, and proves what it
promises.

| part | files |
|---|---|
| Stage checkpoints: a write-ahead protocol over an event log, its restore plan, and what any cut of any write leaves | `Checkpoint`, `CheckpointProvider`, `CheckpointRecovery`, `CheckpointHistory`, `CheckpointVerdicts`, `CheckpointMeaning` |
| The lifecycle of a run: actors that retry a compare-and-set on one status | `RunLifecycle`, `RunActors` |
| Admission of runs: reference-counted writers, active slots, drain | `KeyedSlots`, `RunController`, `RunAdmission`, `Totals` |
| Admission of model requests: owners, permits, token buckets | `ModelLimiter`, `ModelRequests`, `TokenBucket`, `RateLimiter` |
| The budget of a run: prices, ledger, check, completion cap | `Costs`, `Ledger`, `UsageLog`, `Budget`, `UsageTracking`, `ConcurrentCalls` |
| Packing a model request | `CompactText`, `ContextAssembly` |
| The browser's event stream, from the server's text to deliveries | `EventStream`, `RunStream`, `RunObserver` |
| Resuming a collaboration; binding a completed answer to its question | `Collaboration`, `CandidateBinding` |
| Results; trimming and decimal digits, the trimmed text characterised by `Text.TrimmedExactly` | `Results`, `Text` |

How the parts are modelled:

- **Interruption.** A store carries a list of outages: which of its coming writes will fail. A method is proved for
  every such list, against a list of writes of which it performs a first part. An interruption is a failure after
  which nothing more is done.
- **Interleaving.** What the source does under a mutex, in a transaction or on a channel is one step. Theorems speak
  of every sequence of steps by any number of processes. The methods (`RunActors`, `RunAdmission`, `ModelRequests`,
  `RateLimiter`) run those steps with a list of other processes' steps in between, and are proved for every list. A
  wait ends by its timeout when its patience does; timeouts are otherwise steps that may always happen.
- **Numbers.** Go's 64-bit counters wrap and costs saturate explicitly in the budget. Token buckets use exact reals,
  and the cut of a wait to whole nanoseconds is explicit. Elsewhere integers are unbounded.
- **Hashes** are injective, and model turns, JSON texts and routing decisions are arbitrary functions or parameters.

Where the code and its comments or documentation differ, the model follows the code. The proofs found these:

- A restore cut exactly between the two saves of a completion that meets a Prepared checkpoint forgets the completion
  (`CheckpointRecovery.LostCompletion`); `RepeatableExactly` says when that can happen, and `CheckpointHistory` that no
  history of the provider's own calls gets there.
- A failure's error is trimmed when it is recorded and not when it is restored from the log
  (`CheckpointMeaning.FailureKeepsItsErrorExactly`).
- A Stop that a plain failure has settled can still be completed by the completion gate; `RunLifecycle.OvertakenExactly`
  says when, and `PermittedExactly` beside which actors it cannot be.
- A clock reading taken before the lock can be overtaken by a later one, and then more is granted in a window than its
  allowance (`TokenBucket.GrantedTwiceAtOnce`); `BoundedExactly` says for which readings that can happen.
- Calls open at the same time can each keep to their quoted caps and exceed the budget together
  (`ConcurrentCalls.TwoOpenCallsOverrun`); `SettlesExactly` says what keeps it.
- What a key was charged is not returned when its request then fails (`ModelRequests.ModelRequestLimiter.AcquireRequest`).
- Cancelling a reservation during its own Start or run breaks the drain (`RunController.EarlyCancelHidesARun`);
  apps/api/app/runcommands/start.go:103 and 121-126 never do so.
- A settlement within its quoted cap can exceed the cost limit by one micro when cached input is billed apart
  (`Budget.CachedCompletionCanExceed`); `CachedExceedsExactly` says when, and `AMicroToSpareIsEnough` how to avoid it.
- Two carriage returns before a line feed make the browser's reader depend on how the stream was cut
  (`EventStream.ChunkIndependentExactly`).
- An event that cannot be read is passed over for good (`RunObserver.UnreadableIsLost`, `CompleteExactly`).
- A collaboration cut between its router's step and the recorded decision is resumed without the reason
  (`Collaboration.LostReasonShows`), and a truncated handoff depends on the id of the worker's step
  (`Collaboration.LongWorkNamesItsStep`).

## Model

| member | source | states |
|---|---|---|
| CheckpointProvider.Provider.RecordStageTransition | apps/api/internal/checkpoint/provider.go:49-144 | a recording refuses with the error its state calls for and writes nothing, or performs some first part of one fixed list of writes, all of it exactly when it succeeds, whichever write fails; a whole one leaves the log with its event and the audit event, after a start where one was missing, and its stage's checkpoint with that event's cursor, the hashes of the step's input, of its output if it completed, and of the snapshot and tools, the status of the event's kind and the trimmed error, and touches no other checkpoint |
| CheckpointProvider.OpenStageStart | apps/api/internal/checkpoint/provider.go:319-335 | the scan finds a start of the stage that none of its transitions follows, exactly when there is one |
| CheckpointProvider.StageTerminalAfter | apps/api/internal/checkpoint/provider.go:306-317 | the scan finds the first event past the cursor that completes, fails or cancels the stage, and nothing exactly when there is none |
| CheckpointProvider.Provider.ReconcileStageTerminal | apps/api/internal/checkpoint/provider.go:200-224 | a logged terminal is applied in one save, or in two for a completion met by a Prepared checkpoint, and the result is the reconciled checkpoint |
| CheckpointProvider.Provider.CompensateInternalState | apps/api/internal/checkpoint/provider.go:226-250 | abandoning a stage performs a first part of its fixed writes; when a save fails, the log may gain one note and nothing else |
| CheckpointProvider.Provider.PlanRestore | apps/api/internal/checkpoint/restore_plan.go:23-59 | a plan exists exactly when every checkpoint can be planned, and then holds each checkpoint once with its own decision |
| CheckpointProvider.Provider.ValidateResume | apps/api/internal/checkpoint/restore_plan.go:16-21 | resuming is accepted exactly when the restore's plan is, and nothing is written |
| CheckpointProvider.Provider.RestoreRun | apps/api/internal/checkpoint/provider.go:165-198 | a refused restore writes nothing; an accepted one performs a first part of its plan's writes, whichever fail, and when it succeeds it names every stage once: as committed if its checkpoint or the log says it was completed, and as compensated otherwise |
| CheckpointProvider.OwnEffects | apps/api/internal/checkpoint/restore_plan.go:43-46 | grouping effects by stage loses and invents none |
| CheckpointProvider.PlanFromOwnEffects | apps/api/internal/checkpoint/restore_plan.go:61-93 | a stage's decision depends on its own effects only |
| CheckpointRecovery.EffectsAreSettled | apps/api/internal/checkpoint/restore_plan.go:71-88 | a restore newly compensates a stage only if all its tool effects are compensated, and commits one from a logged terminal only if all its effects are committed or compensated |
| CheckpointRecovery.AcceptedExactly | apps/api/internal/checkpoint/restore_plan.go:23-93 | a checkpoint is accepted if and only if this provider made it for the run's present snapshot and tools, its status is known, and every effect of its stage is one its end allows |
| CheckpointRecovery.PlanPredicts | apps/api/internal/checkpoint/restore_plan.go:61-93 | an accepted decision ends its stage Committed or Compensated, as the checkpoint and the log foretell, and meets no unknown status |
| CheckpointRecovery.RestorePrefix | apps/api/internal/store/checkpoint_records.go:21-48 | wherever an accepted restore is cut, no write of it is refused by the store's validation of checkpoint updates |
| CheckpointRecovery.WholeRestore | apps/api/internal/checkpoint/provider.go:165-198 | an uninterrupted restore leaves exactly the predicted checkpoint for every stage |
| CheckpointRecovery.RestoreIsIdempotent | apps/api/internal/checkpoint/provider.go:165-250 | a restore cut after any write and run again from the start is accepted and leaves the checkpoints an uninterrupted one leaves, when no Prepared checkpoint has a later completion |
| CheckpointRecovery.SamePrediction | apps/api/internal/checkpoint/restore_plan.go:23-59 | planning again after any cut predicts the same final checkpoint for every stage |
| CheckpointRecovery.RepeatableExactly | apps/api/internal/checkpoint/provider.go:202-211 | of any accepted plan: every cut can be restored to the predicted statuses if and only if no Prepared checkpoint has a later completion that no other follows |
| CheckpointRecovery.LostCompletion | apps/api/internal/checkpoint/provider.go:204-211 | the failing cut: between the two saves of a completion met by a Prepared checkpoint, after which running the restore again compensates the completed stage |
| CheckpointRecovery.CutRecordingIsRestored | apps/api/internal/checkpoint/provider.go:49-144 | cut a start or an end anywhere, over any unfinished checkpoint that nothing in the log ends, or over none: whenever the plan accepts, restoring commits the stage exactly when its completion had been appended, and compensates it otherwise |
| CheckpointRecovery.StartLeavesUntouched | apps/api/internal/checkpoint/provider.go:107-123 | a start recorded to the end leaves its stage ready for the recording of its end |
| CheckpointHistory.HistoriesKeepInv | apps/api/internal/checkpoint/provider.go:49-144 | in every history of cut recordings, cut restores, reopened stages and other events, no Prepared checkpoint has a later completion |
| CheckpointHistory.EveryRestoreIsRepeatable | apps/api/internal/checkpoint/provider.go:165-250 | at every point of every such history an accepted restore can be cut anywhere and run again with the same final checkpoints |
| CheckpointVerdicts.RestoreCommitsTheCompleted | apps/api/internal/checkpoint/restore_plan.go:61-93 | at every point of every history in which a stage is recorded only while undecided, an accepted restore commits exactly the stages whose completion was logged since they were last reopened |
| CheckpointMeaning.CompletionEndsTheSame | apps/api/internal/checkpoint/provider.go:116-143 | the recorder and the restore agree: cut a recording anywhere once it has logged the completion, and what the restore leaves for the stage is, field for field, the checkpoint of the recording carried out |
| CheckpointMeaning.FailureKeepsItsErrorExactly | apps/api/internal/checkpoint/provider.go:127-129 | on failures and cancellations they agree on the error if and only if there was nothing to trim: the recorder trims it and the restore does not |
| CheckpointMeaning.CheckpointBeforeLog | apps/api/internal/checkpoint/provider.go:83-116 | at every cut of a recording, a stage of which anything was logged has a checkpoint |
| CheckpointMeaning.SavedExactly | apps/api/internal/store/checkpoint_records.go:11-48 | a save is taken if and only if it is complete, was made for the same state, does not move the cursor back, and keeps the status or leads it one step on |
| CheckpointMeaning.WritesMoveForward | apps/api/internal/store/checkpoint_records.go:21-48 | over any writes whatsoever, what a checkpoint was made for stays, its cursor never goes back, Committed and Compensated are never left, and no earlier status comes again |
| CheckpointMeaning.RestoredExactly | apps/api/internal/checkpoint/provider.go:200-250 | what an accepted stage is left with: its checkpoint if it was final, committed or compensated with the cursor and the output or error of the first event that ended it, or compensated as abandoned if none did |
| CheckpointMeaning.ReportIsTrue | apps/api/internal/checkpoint/provider.go:179-197 | the report of a successful restore names every stage once, as committed exactly if its stored checkpoint then is, and as compensated exactly if that is |
| CheckpointMeaning.AuditIsTrue | apps/api/internal/checkpoint/provider.go:180-182 | every audit event of a restore describes the checkpoint as it is stored at that moment, and calls it restored or compensated only when the stage's last save is done |
| CheckpointMeaning.EveryEndIsReported | apps/api/internal/checkpoint/provider.go:226-249 | a restore ends every stage with an audit event unless it had been compensated before, and compensates none without announcing it first |
| CheckpointProvider.Store.SaveStageCheckpoint | apps/api/internal/store/postgres_checkpoints.go:14-68 | saving is an upsert by stage, refused exactly by the validation, and then changes nothing |
| CheckpointProvider.Store.CreateRunEvent | apps/api/internal/store/postgres_traces.go:92-115 | appending numbers the event after the last one, or fails and changes nothing |
| RunLifecycle.StepIsSafe | apps/api/internal/store/run_lifecycle.go:17-81 | one commit, from any loaded status: Completed and Canceled are not left, Failed only by the completion gate, Canceling only for Canceled or Failed, and Completed is entered only by a completion that saw the current status |
| RunLifecycle.CancelExactly | apps/api/internal/agent/run_lifecycle.go:103-137 | no commit of a Stop cancels a running run: it asks the worker; a queued, waiting or recoverable run it cancels, and anything else it leaves |
| RunLifecycle.CompleteExactly | apps/api/internal/agent/run_lifecycle.go:33-44 | what a completion makes of each status it loaded: Completed, the acknowledged Stop, or nothing; only the gate's revives a failed run |
| RunLifecycle.FailExactly | apps/api/internal/agent/run_lifecycle.go:52-59 | what a failure makes of each status: Failed, or Canceled where the cause is the Stop itself, and nothing of a settled run |
| RunLifecycle.RejectExactly | apps/api/internal/agent/run_lifecycle.go:61-72 | what a rejection makes of each status: the status asked for, but the acknowledged Stop from Canceling and nothing of a completed or canceled run |
| RunLifecycle.ProceedExactly | apps/api/internal/store/run_lifecycle.go:17-73 | what a start, a resumption and a plan pause make of each status, a start only on an empty log |
| RunLifecycle.OnlyOnWhatWasLoaded | apps/api/internal/store/run_lifecycle.go:23-25 | a commit changes a run only if its status is still the one loaded, and then moves the log on |
| RunLifecycle.FinalIsForever | apps/api/internal/store/run_lifecycle.go:54-73 | over every interleaving, Completed and Canceled are never left |
| RunLifecycle.StopIsNotOvertaken | apps/api/internal/agent/run_lifecycle.go:74-101 | over every interleaving without the gate, a requested Stop ends in Canceling, Canceled or Failed, and Failed stays |
| RunLifecycle.OvertakenExactly | apps/api/internal/agent/run_lifecycle.go:74-101 | from a Stop, over any interleaving, a run is overtaken if and only if a gate commit that loaded Failed, and leads elsewhere, meets it Failed |
| RunLifecycle.PermittedExactly | apps/api/internal/agent/run_lifecycle.go:52-90 | whatever a set of actors does, none of it overtakes the Stop, if and only if not both a failure that ignores the Stop and a gate commit that reconsiders failures are among what they may do |
| RunLifecycle.GateOvertakesStop | apps/api/internal/agent/run_lifecycle.go:39-44 | the shortest overtaking: a Stop settled by a plain failure is completed by a verified completion |
| RunLifecycle.AtMostOneCompletion | apps/api/internal/agent/run_lifecycle.go:33-44 | over every interleaving, exactly one commit moves the run into Completed if it ends Completed, and none otherwise |
| RunLifecycle.StartIsFirst | apps/api/internal/agent/run_start.go:12-22 | a start is applied only to a run with an empty log, hence once |
| RunLifecycle.OrdinaryActionsLowerRank | apps/api/internal/agent/run_lifecycle.go:74-137 | without resumes and the gate, any run of commits keeps the status or strictly lowers its rank |
| RunLifecycle.ThreeAttemptsAreNotEnough | apps/api/internal/agent/run_lifecycle.go:77-77 | three ordinary commits can defeat three attempts to fail a run |
| RunActors.RunStore.TransitionRun | apps/api/internal/agent/run_lifecycle.go:17-23 | the compare-and-set acts on whatever the row has become, and is recorded in the history of all commits |
| RunActors.LostOnlyToAChange | apps/api/internal/store/run_lifecycle.go:23-25 | an attempt is lost only to a change of status |
| RunActors.InvalidExactly | apps/api/internal/store/run_lifecycle.go:54-73 | a settlement is invalid exactly when it would complete or suspend a run that has not started |
| RunActors.Runtime.SettleRun | apps/api/internal/agent/run_lifecycle.go:74-101 | with only ordinary commits around, four attempts never end in a changed state; an applied settlement reached its target or acknowledged the Stop, and an unapplied one found nothing to do |
| RunActors.Runtime.CancelRun | apps/api/internal/agent/run_lifecycle.go:103-137 | with only ordinary commits around, four attempts are enough, and a Stop that returns has stopped the run or asked its worker to; undisturbed it answers Canceling for a running run, Canceled for a queued, waiting or recoverable one, and leaves any other as it is |
| RunActors.Runtime.FailRun | apps/api/internal/agent/run_lifecycle.go:52-59 | a failure settles the run as Failed, or as Canceled where its cause is the Stop; undisturbed, the answer is given for every status |
| RunActors.Runtime.CompleteRun | apps/api/internal/agent/run_lifecycle.go:33-37 | with only ordinary commits around it is never defeated; undisturbed, a started run is completed, a Stop acknowledged, a queued run refused, a settled one left |
| RunActors.Runtime.CompleteVerifiedRun | apps/api/internal/agent/run_lifecycle.go:39-44 | the same, and a failed run is completed too |
| RunActors.Runtime.RejectRunCompletion | apps/api/internal/agent/run_lifecycle.go:61-72 | a rejection with any other status is refused before anything is read; undisturbed, the answer is given for every status |
| RunActors.Runtime.StartRun | apps/api/internal/agent/run_start.go:12-22 | the loser of a start against a Stop settles the cancellation itself; undisturbed, exactly a fresh run whose status was loaded is started |
| KeyedSlots.EnterKeepsInv | apps/api/internal/concurrency/run_controller.go:181-189 | looking an entry up and counting oneself in keeps everyone on the entry the map names, or refuses a full entry and changes nothing |
| KeyedSlots.LeaveKeepsInv | apps/api/internal/concurrency/run_controller.go:206-216 | counting out deletes exactly an entry nobody else uses, so no user is ever left on a deleted entry |
| KeyedSlots.EntryIsKnown | apps/api/internal/concurrency/run_controller.go:206-216 | before a reference is returned it is positive: the panic on negative references cannot be reached |
| KeyedSlots.RoomToEnter | apps/api/internal/concurrency/model_owner.go:54-79 | a newcomer is counted in exactly if its key has room for one more, and can then take a slot at once exactly if one is free |
| KeyedSlots.KeyIsBounded | apps/api/internal/concurrency/model_owner.go:54-66 | a key's holders are within its slots and its users within its admission, its counters are their numbers, and it has an entry exactly while it has users |
| RunController.SingleWriter | apps/api/internal/concurrency/run_controller.go:181-204 | over every run from a new controller, two owners of one conversation are the same reservation |
| RunController.CountsAgree | apps/api/internal/concurrency/run_controller.go:74-137 | over every run: places taken, reservations waited for and reservations alive are one number within its bound, and active runs are the active slots taken, within theirs |
| RunController.StepKeepsInv | apps/api/internal/concurrency/run_controller.go:94-137 | every atomic step keeps the invariant behind the two |
| RunController.NoDeadlock | apps/api/internal/concurrency/run_controller.go:94-127 | while one reservation waits, another can take a step that is no timeout and no new call |
| RunController.RunsAreBounded | apps/api/internal/concurrency/run_controller.go:94-137 | without new reservations at most seven steps are left per reservation |
| RunController.ClosingDrains | apps/api/internal/concurrency/run_controller.go:139-159 | after closing, a run that can take no further step but a timeout has drained, and got there within seven steps per reservation |
| RunController.ZeroIsDrained | apps/api/internal/concurrency/run_controller.go:148-155 | the wait group is at zero exactly when no reservation, active run, writer or entry is left |
| RunController.DrainedForGood | apps/api/internal/concurrency/run_controller.go:139-159 | once closed and drained, nothing is ever admitted or active again |
| RunController.CancelKeepsExactly | apps/api/internal/concurrency/run_controller.go:129-137 | cancelling a live reservation keeps the invariant if and only if it is not called during its own Start or run |
| RunController.EarlyCancelHidesARun | apps/api/internal/concurrency/run_controller.go:129-137 | a run in which an early Cancel lets the wait group reach zero while a run is active |
| RunAdmission.AdmissionController.Reserve | apps/api/internal/concurrency/run_controller.go:74-91 | refused exactly when shutting down or full, changing nothing, and otherwise one place is taken |
| RunAdmission.AdmissionController.Start | apps/api/internal/concurrency/run_controller.go:94-127 | with others between all its sections, a started reservation is active and owns its conversation, and on every failing path nothing of it is left; it does start if the conversation is free and no rival takes it, and others take fewer slots than are free |
| RunAdmission.AdmissionController.Release | apps/api/internal/concurrency/run_controller.go:119-126 | slot, writer and place are given back, and a second call changes nothing |
| RunAdmission.AdmissionController.CloseAndWait | apps/api/internal/concurrency/run_controller.go:139-159 | it returns without an error exactly when everything has drained and the select does not prefer an expired context |
| ModelLimiter.OwnersAreBounded | apps/api/internal/concurrency/model_owner.go:33-96 | over every run: each owner's slots and queue are bounded, and permits are exactly the requests that hold one, within their bound |
| ModelLimiter.NoOwnerHoldsEveryPermit | apps/api/app/wiring.go:60-71 | with fewer owner slots than permits no owner can hold every permit |
| ModelLimiter.NoDeadlock | apps/api/internal/concurrency/model_request_limiter.go:111-119 | a request that waits never waits for nothing: some step takes what is free or gives something back |
| ModelLimiter.CloseGrantsNobody | apps/api/internal/concurrency/model_owner.go:18-31 | after Close nothing new begins, and nothing passes the last check that had not passed it before |
| ModelRequests.ModelRequestLimiter.AcquireRequest | apps/api/internal/concurrency/model_request_limiter.go:65-143 | a granted request holds a permit and its owner's slot, and every failing path leaves nothing of the request; what its key was charged stays charged, also when the permit wait or the recheck fails; with nobody in between, the answer is that of the first gate that is shut: closed, no owner, full queue, no slot, the key, no permit, the recheck |
| ModelRequests.ModelRequestLimiter.AcquireOwner | apps/api/internal/concurrency/model_owner.go:33-96 | an owner's slot is held on success, and nothing on refusal, a full queue or a timeout |
| ModelRequests.ModelRequestLimiter.Release | apps/api/internal/concurrency/model_request_limiter.go:137-142 | permit, slot and reference are given back, and a second call changes nothing |
| TokenBucket.TryIsSound | apps/api/internal/concurrency/model_request_limiter.go:168-201 | every attempt leaves both buckets at most full and above minus one nanosecond's refill |
| TokenBucket.ChargedTogether | apps/api/internal/concurrency/model_request_limiter.go:172-187 | an attempt is charged to both buckets or to neither |
| RateLimiter.TooCostlyExactly | apps/api/internal/concurrency/model_request_limiter.go:172-177 | a cost above the token capacity ends every call with that error, whatever others do, and no other cost ever ends one so |
| TokenBucket.RefillComposes | apps/api/internal/concurrency/model_request_limiter.go:239-245 | a refill divided in two comes to the same |
| TokenBucket.SecondAttemptSucceeds | apps/api/internal/concurrency/model_request_limiter.go:188-199 | alone with its buckets, a caller that comes again is granted if and only if it has waited as long as it was told |
| TokenBucket.WaitIsLeast | apps/api/internal/concurrency/model_request_limiter.go:218-231 | a nanosecond before the end of the wait the cost is not there yet |
| TokenBucket.NewBucketRefills | apps/api/internal/concurrency/model_request_limiter.go:210-216 | a new bucket is full, and refills from nothing in just its period |
| TokenBucket.WindowIsBounded | apps/api/internal/concurrency/model_request_limiter.go:168-245 | of any log from any state, what is granted to the attempts read in a window is below capacity plus rate times the window and one nanosecond, if no reading between two of them leaps further ahead than the window is long; readings before, after and beside them may be anything |
| TokenBucket.BoundedExactly | apps/api/internal/concurrency/model_request_limiter.go:170-171 | for given clock readings, that bound holds for every new limiter and every cost if and only if the clock does not leap so: a reading is taken before the lock and may be overtaken |
| TokenBucket.GrantedTwiceAtOnce | apps/api/internal/concurrency/model_request_limiter.go:170-184 | the failing input: read at 0, overtaken by a later reading, and read at 0 again, a bucket of one pays out twice in one moment |
| RateLimiter.RateBucket.WaitDuration | apps/api/internal/concurrency/model_request_limiter.go:218-231 | the bucket is refilled and the wait computed, unless the cost can never be met |
| RateLimiter.ApiKeyLimiter.Attempt | apps/api/internal/concurrency/model_request_limiter.go:170-189 | the critical section over the two bucket objects is the attempt |
| RateLimiter.ApiKeyLimiter.Take | apps/api/internal/concurrency/model_request_limiter.go:168-201 | attempt by attempt with others in between, until one settles it; a call is charged exactly once when it returns without an error, by its last attempt, and otherwise never |
| Costs.CostIsLeast | apps/api/internal/budget/ledger.go:113-123 | a whole amount covers what tokens owe exactly when it is at least their cost: the exact ceiling, saturating |
| Costs.CostIsMonotone | apps/api/internal/budget/ledger.go:113-123 | more tokens or a higher rate never cost less |
| Costs.SplitCostsAMicro | apps/api/internal/budget/ledger.go:113-131 | two bills for one usage cost at least as much as one bill, and one micro more at most |
| Costs.AddCostIsAnySum | apps/api/internal/budget/ledger.go:125-131 | the saturating sum is associative and commutative on costs |
| Costs.DetailsTellTheBill | apps/api/internal/budget/pricing.go:43-67 | the details claim a discount exactly if tokens were billed at the cached rate, and an unknown cost exactly without any rate, when nothing is billed |
| UsageTracking.BillAddsUp | apps/api/internal/budget/pricing.go:43-67 | an accepted call is billed for its uncached prompt, its cached prompt and its completion, each rounded up on its own |
| UsageTracking.BreakdownExactly | apps/api/internal/domain/run_usage.go:16-33 | a breakdown is accepted if and only if its source is known and its counters are parts of the prompt and the completion, or it is marked invalid and has none |
| Costs.CachedBillingIsWithinAMicro | apps/api/internal/budget/pricing.go:43-67 | billing cached input apart at no higher a rate raises a cost by one micro at most |
| Costs.CachedBillingCanCostMore | apps/api/internal/budget/pricing.go:62-66 | and it can raise it by that micro |
| Ledger.BuildLedger | apps/api/internal/budget/ledger.go:10-37 | in whatever order the operations are visited, the totals are the exact sums, counters wrapped and cost saturated, and the time is the latest |
| Ledger.UnknownExactly | apps/api/internal/budget/ledger.go:71-81 | a model call counts as of unknown cost exactly if its details say so, or it has none and cost nothing |
| UsageLog.CheckRuntimeInvariants | apps/api/internal/budget/invariant.go:9-40 | it reports every repeated key and every settlement without a reservation, and finds nothing exactly on logs with one entry per operation and kind whose settlements have reservations |
| UsageLog.KeysAgreeExactly | apps/api/internal/budget/invariant.go:14-15 | two entries have the same key exactly when they agree in operation and kind |
| UsageLog.TotalsIgnoreOrder | apps/api/internal/budget/ledger.go:10-37 | any permutation of an accepted log is accepted and has the same totals and time |
| UsageLog.OrderMattersWithDuplicates | apps/api/internal/budget/ledger.go:16-17 | with a duplicate reservation, which the check refuses, the order changes the totals |
| UsageLog.LogGrowsBy | apps/api/internal/budget/ledger.go:28-35 | entry by entry: a tool call adds, a reservation adds and opens, a settlement takes its reservation's place and closes it |
| Budget.CheckIsExact | apps/api/internal/budget/ledger.go:39-59 | on usage that is not negative the 64-bit check admits exactly what fits when added without bound |
| Budget.CheckOnStored | apps/api/internal/budget/ledger.go:39-59 | checking wrapped and saturated totals is checking the exact ones |
| Budget.Check | apps/api/internal/budget/ledger.go:39-59 | it reports the first resource exceeded, with that resource's own limit, use and request, and none exactly if none is |
| Budget.AffordableExactly | apps/api/internal/budget/ledger.go:98-105 | the tokens a remaining cost pays for are exactly those whose rounded cost is within it |
| Budget.CapIsExact | apps/api/internal/budget/ledger.go:83-111 | after an admitted reservation the cap is at least one, and a completion keeps the completion, total and cost limits if and only if it is within the cap |
| Budget.CachedExceedsExactly | apps/api/internal/budget/pricing.go:62-66 | within the quoted cap, a settlement with cached input billed apart exceeds the cost limit if and only if the undivided bill fills it to the last micro and the remainders of the two parts make the split cost one more; then by that micro |
| Budget.SameRateSplit | apps/api/internal/budget/pricing.go:62-66 | at one rate, the split costs a micro more exactly when both remainders modulo a million are not zero and add up to a million at most |
| Budget.AMicroToSpareIsEnough | apps/api/internal/budget/pricing.go:62-66 | a completion quoted against one micro less keeps the limit, however its input is billed |
| Budget.CachedCompletionCanExceed | apps/api/internal/budget/pricing.go:62-66 | a settlement admitted, within its quoted cap, and one micro over the limit |
| UsageTracking.UsageStore.ApplyRunUsage | apps/api/internal/store/postgres_traces.go:205-275 | a reservation or tool entry is admitted exactly when the check passes, a reserved settlement always, a repetition changes nothing, and every log stays well-formed |
| UsageTracking.Tracker.ModelPricing | apps/api/internal/budget/pricing.go:10-31 | without a route, the price is the run's own rates and no cached rate; with one, the first route of that id decides: none is an error, another model is one, its rates if any is positive or a cached one is given, else the run's own |
| UsageTracking.Tracker.BeginModelCall | apps/api/internal/budget/budget.go:121-158 | at its price, as ModelPricing gives it, a new reservation succeeds exactly when the check admits it, is recorded as one call with one token of completion, and is quoted a cap that admits exactly the completions the budget has room for beside the rest of the log |
| UsageTracking.Tracker.SettleModelCall | apps/api/internal/budget/budget.go:160-187 | an invalid breakdown, and only that, is refused; the first valid settlement of a reservation is appended, with the larger of the provider's total and the sum of the parts, and an error reported exactly when the totals then exceed the budget |
| UsageTracking.Tracker.RecordToolCall | apps/api/internal/budget/budget.go:189-210 | in time, a new tool call is recorded exactly when the check admits it, and none out of time |
| UsageTracking.SerialRunStaysWithinBudget | apps/api/internal/budget/budget.go:121-187 | making one call at a time within the quoted caps, settled or not, a run is within its budget after every call |
| ConcurrentCalls.TwoOpenCallsOverrun | apps/api/internal/budget/budget.go:138-157 | two calls open at once, each settled within its quoted cap, together use almost twice the budget |
| ConcurrentCalls.SettlesExactly | apps/api/internal/budget/ledger.go:83-111 | beside any number of open calls, a settlement keeps the budget if and only if its completion is within the cap quoted anew on the log as it then is |
| ConcurrentCalls.RequotedRunStaysWithinBudget | apps/api/internal/budget/budget.go:121-187 | with any number of calls open and settled in any order, a run that quotes anew before each settlement is always within its budget |
| CompactText.EstimateTokens | apps/api/internal/contextassembly/manifest.go:113-129 | one scan computes the estimate: four ASCII characters a token, rounded up, and a token for every other character |
| CompactText.CutMonotone | apps/api/internal/contextassembly/manifest.go:49-58 | keeping more characters never lowers the estimate, so the search may halve |
| CompactText.CompactText | apps/api/internal/contextassembly/manifest.go:45-61 | two thirds of what is kept, rounded down, before the marker and the rest behind it, from the text's ends and without meeting; if the marker fits, so does the result and exactly so many characters fit; if not, nothing fits and the marker is the result |
| ContextAssembly.SelectRelevant | apps/api/internal/contextassembly/assembler.go:398-426 | in order, within both budgets, with exact accounting: each candidate is taken exactly if it fits beside those taken before it, none passed over would still fit, and the reason names the source exactly when its own budget keeps the candidate out, and the input when that alone does |
| ContextAssembly.SelectRecentHistory | apps/api/internal/contextassembly/assembler.go:375-396 | the same from the latest history back |
| ContextAssembly.GreedyIsUnique | apps/api/internal/contextassembly/assembler.go:375-426 | the greedy choices leave no freedom: two passes over the same candidates in the same room mark them all the same |
| ContextAssembly.SuppressRetrievedDuplicates | apps/api/internal/contextassembly/assembler.go:251-264 | exactly the history messages that were retrieved stop counting |
| ContextAssembly.SuppressedAreNotPicked | apps/api/internal/contextassembly/assembler.go:251-264 | no message is selected both as retrieved and as recent history |
| ContextAssembly.NewManifest | apps/api/internal/contextassembly/manifest.go:20-43 | included and excluded tokens add up to those of all entries |
| ContextAssembly.Assemble | apps/api/internal/contextassembly/assembler.go:146-216 | the manifest accounts for every token; if what is required fits, the request fits, the sources are served greedily in their order, each within its cap and holding back nothing its cap and the budget still had room for; if not, only the required is selected and the error says so |
| EventStream.NormAgain | apps/web/lib/run-stream.ts:106-106 | rewriting line ends again on leftovers does no harm where no carriage return precedes a line end of two characters |
| EventStream.NormReplaces | apps/web/lib/run-stream.ts:106-106 | every line end of two becomes a line feed, in one pass, and nothing else changes |
| EventStream.ReadsTheWhole | apps/web/lib/run-stream.ts:100-121 | chunks of a stream without such a line end read as the whole stream does |
| EventStream.ChunkIndependentExactly | apps/web/lib/run-stream.ts:100-121 | every way of cutting a stream reads the same if and only if no carriage return precedes a line end of two characters |
| RunStream.ReadSSE | apps/web/lib/run-stream.ts:92-126 | the buffered loop yields the frames of the blocks read, in order |
| RunStream.LinesExactly | apps/web/lib/run-stream.ts:111-111 | a block's lines are what line feeds part, and make the block again |
| RunStream.ParsedExactly | apps/web/lib/run-stream.ts:111-119 | a block is a frame exactly if it has a data line; the first data, event and id lines count, and the event is message and the id zero where there is none or it is no number |
| RunStream.ParseWritten | apps/web/lib/run-stream.ts:111-119 | a frame as the server writes it parses to itself |
| RunStream.WrittenIsRead | apps/api/internal/httpapi/run_events.go:135-148 | every frame written is read, once and in order, however the stream is cut, and nothing is left over |
| RunStream.BrokenOffIsRead | apps/web/lib/run-stream.ts:92-126 | a stream broken off anywhere reads as the frames that were complete |
| RunObserver.FramesKeepOrder | apps/web/lib/run-stream.ts:33-58 | whatever frames come, numbered deliveries are strictly increasing, above the start and above every snapshot before them |
| RunObserver.Observer.OnFrame | apps/web/lib/run-stream.ts:33-58 | one frame: it moves the cursor to its number if that is higher, throws, delivers and changes what is known of the run's state exactly as its event, number, text and the snapshots before it say |
| RunObserver.QuietExactly | apps/web/lib/run-stream.ts:33-58 | after frames none of which throws, the cursor is the highest number, the deliveries are those of the frames not seen before, and the run counts as stopped if and only if the last frame that says anything of its state says so |
| RunObserver.ThrowExactly | apps/web/lib/run-stream.ts:33-58 | the first frame that throws ends the stream, its number counted and nothing of it delivered |
| RunObserver.AttemptExactly | apps/web/lib/run-stream.ts:24-66 | an attempt ends the observation as stopped if and only if it was accepted, unbroken, threw nothing, and its last word on the run is that it has stopped; otherwise as aborted by the caller or denied, or not at all |
| RunObserver.AttemptsKeepOrder | apps/web/lib/run-stream.ts:21-68 | over all attempts of an observation, at most four, deliveries are in order, and requests ask for what comes after everything delivered before them and never go back |
| RunObserver.Observer.Observe | apps/web/lib/run-stream.ts:21-68 | each request asks for what follows the highest number seen, every attempt but the last leaves the observation open, the last ends it, unless the caller does or four have been made, and what was delivered is what the frames of the attempts deliver |
| RunObserver.StoppedExactly | apps/web/lib/run-stream.ts:59-59 | an observation ends as stopped if and only if one of its streams stops it, and that stream's request is the last |
| RunObserver.NothingIsMissed | apps/web/lib/run-stream.ts:42-57 | against a server that goes on with the next event each time, the numbered deliveries are all the events up to the cursor |
| RunObserver.ObservesEveryEvent | apps/api/internal/httpapi/run_events.go:75-117 | end to end: the server's text, broken off anywhere and cut in any way, is delivered without a gap or a repetition |
| RunObserver.CompleteExactly | apps/web/lib/run-stream.ts:33-58 | from a complete start, numbered frames are gone through and delivered without a gap if and only if every one of them can be read |
| RunObserver.UnreadableIsLost | apps/web/lib/run-stream.ts:43-44 | an event whose text cannot be read is never delivered, since the cursor moved first |
| Collaboration.LatestCompleted | apps/api/internal/agent/orchestrator_stages.go:63-70 | the scan from the end finds the last completed step of a role, and none exactly if there is none |
| Collaboration.EmitFinalDeltas | apps/api/internal/agent/orchestrator_stages.go:172-187 | the deltas are the words of the trimmed text, each with the space after it, and together they are the text |
| Collaboration.Runtime.RunStage | apps/api/internal/agent/orchestrator_stages.go:81-150 | a stage adds one step at most, of its role, agent and input, completed only with the output of its turn, also when its caller sees an error |
| Collaboration.Runtime.RunTail | apps/api/internal/agent/orchestrator_stages.go:18-52 | from any stages completed so far, and whatever fails, progress is kept, the text emitted is that of the uninterrupted tail, and without a failure it is emitted; the reviewer and the finalizer are given the worker's output as a handoff |
| Collaboration.HandoffExactly | apps/api/internal/agent/worker_stage.go:78-90 | a handoff is the whole trimmed output if it has at most 4000 characters, and otherwise as much of its beginning as leaves room in them for the note that names run and step |
| Collaboration.WorkerIsTold | apps/api/internal/agent/orchestrator_stages.go:23-26 | the worker's input has the task, the plan and the worker's name and id, and ends in the reason if there is one |
| Collaboration.ReviewerAndFinalizerAreTold | apps/api/internal/agent/orchestrator_stages.go:35-44 | the reviewer's input has the task and the plan and ends in the worker's result; the finalizer's begins with it and ends in the review |
| Collaboration.InputsTellApart | apps/api/internal/agent/orchestrator_stages.go:35-44 | two results, or two reviews, never make the same input |
| Collaboration.Runtime.Resume | apps/api/internal/agent/orchestrator_recovery.go:13-95 | a resumption works on what the store recorded, leaves that as it is, and emits the text of the uninterrupted tail on it |
| Collaboration.Runtime.PersistedReason | apps/api/internal/agent/orchestrator_recovery.go:95-110 | the scan finds the last reason recorded for the router's step and agent, and none if there is none |
| Collaboration.Runtime.FindAgent | apps/api/internal/agent/orchestrator_stages.go:72-79 | the scan finds the first agent with the id, and none exactly if there is none |
| Collaboration.Runtime.Continue | apps/api/internal/agent/orchestrator.go:177-307 | what was approved, trimmed, is the plan from then on, and the planner's own output if nothing was: it is what the planner's step says once the router's is there, what the text emitted was made on, and what a resumption works on; cut anywhere after the router's step, the same work is resumed, without its reason if the decision was not recorded |
| Collaboration.ResumedRunsAgree | apps/api/internal/agent/orchestrator_recovery.go:13-95 | however often a run is interrupted, all attempts that come to the end emit the same text |
| Collaboration.ShortWorkSameText | apps/api/internal/agent/worker_stage.go:78-83 | which step did the work makes no difference where its output is handed on whole |
| Collaboration.LongWorkNamesItsStep | apps/api/internal/agent/worker_stage.go:84-89 | a cut output names its step: of steps with ids of one length, handoffs agree exactly when the steps do |
| Collaboration.LostReasonShows | apps/api/internal/agent/orchestrator_recovery.go:95-110 | a resumption without the recorded decision gives the worker the uninterrupted run's input exactly when there was no reason to lose |
| CandidateBinding.BoundCandidate | apps/api/app/runcompletion/subject.go:29-92 | a candidate is found if and only if the last primary receipt and all receipts after it are of the run and its conversation and name one message, that message is the assistant's there and not blank, and a question and a hash that fits are given where a contract asks for them; it is that message with that question, or the conversation's own; there is none to find exactly without receipts |
| CandidateBinding.CompletionStore.Complete | apps/api/app/runcompletion/completion.go:55-115 | cut at its message or its receipt a completion leaves the candidate of before, and otherwise its own; only without a contract can a web receipt go astray, and then no candidate is valid |
| CandidateBinding.OneCallsCandidate | apps/api/app/runcompletion/subject.go:29-92 | after any series of completions cut anywhere, a candidate's output comes from one call, and so does its question if the run has a contract; it is refused only for a blank output or, without a contract, a receipt gone astray |

## Left out

- Database, HTTP, provider clients, telemetry, redaction and MCP: the store's operations appear as their contracts.
- Several runs in one store, checkpoint ids and timestamps, payload fields nothing branches on, and nil receivers.
- `CheckpointProvider.Store`: listings return stages in any order; the order by cursor and stage is not modelled.
- `CheckpointHistory`: of cold-start repair and the clarification store, only what they do to a run's log and checkpoints.
- Goroutines, channels and mutexes themselves: the model starts from their atomic steps. Writer and owner entries are numbered values in a heap, not allocated objects.
- CheckpointVerdicts.RestoreCommitsTheCompleted: demands that the runtime records a stage only while it is undecided, as its callers do; failures that repairs append are unrestricted.
- RunAdmission.AdmissionController.CloseAndWait: the waiting goroutine that outlives an expired context is not modelled.
- RunController.RunsAreBounded: counts steps, not time; that every step is eventually taken is the scheduler's part.
- ModelLimiter.OwnersAreBounded: is about owner admission switched on, as wiring always does; with it off only permits are bounded.
- The map from API keys to their buckets, the wait timings reported, and `ActiveRuntimeMS`: they would only add easy members.
- TokenBucket.WindowIsBounded: is over exact reals, so float rounding is not part of it.
- UsageTracking.Tracker.BeginModelCall: takes whether time is left as a parameter. The exact cap is stated for a first recording, against the other entries as they are, and for a cost limit below the largest 64-bit integer.
- Budget.CapIsExact: concerns one call; a second open reservation counts with its one token, as in the code. ConcurrentCalls is about several.
- UsageTracking.SerialRunStaysWithinBudget: is for settlements that report the reserved prompt, no higher total and nothing billed as cached, and so are the theorems of ConcurrentCalls; cached billing has its own condition in Budget.CachedExceedsExactly.
- Budget.CachedExceedsExactly: is for a cached rate no higher than the input's; a higher one is outside it.
- ContextAssembly.Assemble: starts from candidates with their estimates. How messages are normalized, merged with the session's history, filtered by compaction and formatted is left out, and so are the tokens of the wrapping text around selected sections, which the source does not count either.
- CompactText.CompactText: is for valid UTF-8; the replacement of invalid bytes is not modelled.
- RunStream.ReadSSE: takes decoded characters; the incremental decoder is left out, and ids are exact integers rather than JavaScript numbers.
- RunObserver.Observer.Observe: the callbacks are assumed not to throw, and the pauses between attempts are left out.
- The projection of run events to chat events: finite branching.
- Collaboration.Runtime.Resume: whether checkpoints accept and the status commit wins are parameters here; both have their own models above. Retrieval, tools and live events of a stage are part of its turn.
- Collaboration.Runtime.Continue: routing is a parameter, and a failed routing ends the model's run after the failed step.
- CandidateBinding.CompletionStore.Complete: ends before the verification gate; citations, titles and memory are left out, and so are receipts whose fields have a wrong type.
- Evidence checks, agent scores, plan records, prompts' wording and configuration defaults.
