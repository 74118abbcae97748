/**
  The tail of a collaboration, worker, reviewer and finalizer, run through or taken up again after any number of
  interruptions. Each stage's model turn is an arbitrary function of its role, agent and input; any store write
  and any turn may fail.
 */
module Collaboration {
  import opened Results
  import opened Text

  datatype Role = Planner | Router | Worker | Reviewer | Finalizer

  datatype StepStatus = Running | Completed | Failed

  datatype Step = Step(id: string, role: Role, agent: string, status: StepStatus, input: string, output: string)

  datatype Agent = Agent(id: string, name: string)

  datatype Selection = Selection(stage: string, agent: string, reason: string)

  /** What the tail works on. */
  datatype Context = Context(run: string, task: string, plan: string, worker: Agent, reason: string)

  type Turns = (Role, string, string) -> string

  const HANDOFF_MAX := 4000

  // ---------------------------------------------------------------------------------------------
  // Inputs
  // ---------------------------------------------------------------------------------------------

  function Suffix(run: string, step: string): string {
    "\n...[worker output truncated; see stage]\n\nFull output: run://" + run + "/stages/" + step
  }

  /** boundedWorkerHandoff: a long output is cut, and says under which step all of it is. */
  function Handoff(run: string, step: string, output: string): string {
    var trimmed := TrimSpace(output);
    if |trimmed| <= HANDOFF_MAX then trimmed
    else
      var limit := if |Suffix(run, step)| <= HANDOFF_MAX then HANDOFF_MAX - |Suffix(run, step)| else 0;
      trimmed[..limit] + Suffix(run, step)
  }

  function WorkerInput(c: Context): string {
    var input := "User task:\n" + c.task + "\n\nPlanner output:\n" + c.plan + "\n\nRouter-selected worker:\n" + c.worker.name + " (" + c.worker.id + ")";
    if c.reason != "" then input + "\nSelection reason: " + c.reason else input
  }

  function ReviewerInput(c: Context, worker: string): string {
    "User task:\n" + c.task + "\n\nPlan:\n" + c.plan + "\n\nWorker result:\n" + worker
  }

  function FinalizerInput(c: Context, worker: string, review: string): string {
    ReviewerInput(c, worker) + "\n\nReview:\n" + review
  }

  /** The text has a part, somewhere. */
  predicate Has(text: string, part: string) {
    exists i :: 0 <= i <= |text| && part <= text[i..]
  }

  lemma HasPart(text: string, before: string, part: string, after: string)
    requires text == before + part + after
    ensures Has(text, part)
  {
    assert text[|before|..] == part + after;
  }

  lemma LastPart(a: string, h: string, name: string, open: string, id: string, close: string, rest: string)
    ensures Has(a + h + name + open + id + close + rest, name + open + id + close)
  {
    var who := name + open + id + close;
    assert a + h + name + open + id + close == a + h + who;
    HasPart(a + h + who + rest, a + h, who, rest);
  }

  /** The worker is told the task, the plan and who it is, and last the reason if there is one. */
  lemma WorkerIsTold(c: Context)
    ensures "User task:\n" + c.task + "\n\nPlanner output:\n" + c.plan <= WorkerInput(c)
    ensures Has(WorkerInput(c), c.worker.name + " (" + c.worker.id + ")")
    ensures c.reason != "" ==> "Selection reason: " + c.reason == WorkerInput(c)[|WorkerInput(c)| - |"Selection reason: " + c.reason|..]
  {
    hide Has;
    var start, h := "User task:\n" + c.task + "\n\nPlanner output:\n" + c.plan, "\n\nRouter-selected worker:\n";
    var bare := start + h + c.worker.name + " (" + c.worker.id + ")";
    var n, heading := "\n", "Selection reason: ";
    var why := n + heading + c.reason;
    assert n + heading == "\nSelection reason: ";
    LastPart(start, h, c.worker.name, " (", c.worker.id, ")", if c.reason == "" then "" else why);
    if c.reason == "" {
      assert WorkerInput(c) == bare == bare + "";
    } else {
      EndsInReason(bare, n, heading, c.reason);
      assert WorkerInput(c) == bare + (n + heading) + c.reason;
    }
    StartsWith(start, h, c.worker.name, c.worker.id);
  }

  lemma StartsWith(start: string, h: string, name: string, id: string)
    ensures start <= start + h + name + " (" + id + ")"
  {
  }

  lemma EndsInReason(bare: string, n: string, heading: string, reason: string)
    ensures bare + (n + heading) + reason == bare + (n + heading + reason)
    ensures var t := bare + (n + heading) + reason; |t| >= |heading + reason| && t[|t| - |heading + reason|..] == heading + reason
  {
  }

  /** The reviewer is told the task, the plan and the worker's result; the finalizer all that, and then the review. */
  lemma ReviewerAndFinalizerAreTold(c: Context, worker: string, review: string)
    ensures "User task:\n" + c.task + "\n\nPlan:\n" + c.plan <= ReviewerInput(c, worker)
    ensures ReviewerInput(c, worker)[|ReviewerInput(c, worker)| - |worker|..] == worker
    ensures ReviewerInput(c, worker) <= FinalizerInput(c, worker, review)
    ensures FinalizerInput(c, worker, review)[|FinalizerInput(c, worker, review)| - |review|..] == review
  {
    var start := "User task:\n" + c.task + "\n\nPlan:\n" + c.plan;
    assert ReviewerInput(c, worker) == start + ("\n\nWorker result:\n" + worker);
  }

  /** No two reviews, and no two results, make the same input: nothing of what a stage is given is left out. */
  lemma InputsTellApart(c: Context, worker: string, review: string, worker': string, review': string)
    ensures ReviewerInput(c, worker) == ReviewerInput(c, worker') <==> worker == worker'
    ensures FinalizerInput(c, worker, review) == FinalizerInput(c, worker, review') <==> review == review'
    ensures FinalizerInput(c, worker, review) == FinalizerInput(c, worker', review) <==> worker == worker'
  {
    ReviewerAndFinalizerAreTold(c, worker, review);
    ReviewerAndFinalizerAreTold(c, worker, review');
    ReviewerAndFinalizerAreTold(c, worker', review);
    var x, y := ReviewerInput(c, worker), ReviewerInput(c, worker');
    var tail := "\n\nReview:\n" + review;
    assert FinalizerInput(c, worker, review) == x + tail && FinalizerInput(c, worker', review) == y + tail;
    if x + tail == y + tail { assert x == (x + tail)[..|x|] == (y + tail)[..|y|] == y; }
  }

  /**
    A handoff is the whole trimmed output if it fits, and otherwise as much of its beginning as leaves room for
    the note that says where the rest is.
   */
  lemma HandoffExactly(run: string, step: string, output: string)
    ensures |TrimSpace(output)| <= 4000 ==> Handoff(run, step, output) == TrimSpace(output)
    ensures |TrimSpace(output)| > 4000 ==>
      var note := "\n...[worker output truncated; see stage]\n\nFull output: run://" + run + "/stages/" + step;
      exists n :: 0 <= n <= |TrimSpace(output)| && Handoff(run, step, output) == TrimSpace(output)[..n] + note
        && (n > 0 ==> n + |note| == 4000) && (n == 0 ==> |note| >= 4000)
  {
    hide TrimSpace;
    var note := Suffix(run, step);
    var n := if |note| <= 4000 then 4000 - |note| else 0;
    if |TrimSpace(output)| > 4000 { assert Handoff(run, step, output) == TrimSpace(output)[..n] + note; }
  }

  /** What the stages come to, the worker's step being `id`. */
  function WorkOf(turns: Turns, c: Context): string { turns(Worker, c.worker.id, WorkerInput(c)) }

  function HandedOn(turns: Turns, c: Context, id: string): string { Handoff(c.run, id, WorkOf(turns, c)) }

  function ReviewOf(turns: Turns, c: Context, id: string): string { turns(Reviewer, "", ReviewerInput(c, HandedOn(turns, c, id))) }

  function FinalOf(turns: Turns, c: Context, id: string): string {
    turns(Finalizer, "", FinalizerInput(c, HandedOn(turns, c, id), ReviewOf(turns, c, id)))
  }

  // ---------------------------------------------------------------------------------------------
  // Steps
  // ---------------------------------------------------------------------------------------------

  predicate IsDone(s: Step, role: Role) { s.role == role && s.status == Completed }

  function Latest(steps: seq<Step>, role: Role): Option<Step>
    decreases |steps|
  {
    if steps == [] then None
    else if IsDone(steps[|steps| - 1], role) then Some(steps[|steps| - 1])
    else Latest(steps[..|steps| - 1], role)
  }

  /** latestCompletedCollaborationStep: the scan from the end finds it. */
  method LatestCompleted(steps: seq<Step>, role: Role) returns (found: Option<Step>)
    ensures found == Latest(steps, role)
    ensures found.None? <==> forall i :: 0 <= i < |steps| ==> !CompletedAt(steps, role, i)
    ensures found.Some? ==> exists i :: LastOf(steps, role, i) && found.value == steps[i]
  {
    LatestExactly(steps, role);
    var index := |steps| - 1;
    assert steps[..|steps|] == steps;
    while index >= 0
      invariant -1 <= index < |steps|
      invariant Latest(steps, role) == Latest(steps[..index + 1], role)
    {
      if IsDone(steps[index], role) { return Some(steps[index]); }
      assert steps[..index + 1][..index] == steps[..index];
      index := index - 1;
    }
    return None;
  }

  predicate CompletedAt(steps: seq<Step>, role: Role, i: int)
    requires 0 <= i < |steps|
  {
    steps[i].role == role && steps[i].status.Completed?
  }

  /** The last completed step of the role is the i-th. */
  ghost predicate LastOf(steps: seq<Step>, role: Role, i: int) {
    0 <= i < |steps| && CompletedAt(steps, role, i) && forall j :: i < j < |steps| ==> !CompletedAt(steps, role, j)
  }

  lemma {:induction false} LatestIs(steps: seq<Step>, role: Role, i: int)
    requires LastOf(steps, role, i)
    ensures Latest(steps, role) == Some(steps[i])
    decreases |steps|
  {
    var n := |steps| - 1;
    if i < n {
      assert !CompletedAt(steps, role, n);
      assert forall j :: 0 <= j < n ==> CompletedAt(steps[..n], role, j) == CompletedAt(steps, role, j);
      LatestIs(steps[..n], role, i);
    }
  }

  lemma {:induction false} NoneCompleted(steps: seq<Step>, role: Role)
    requires forall i :: 0 <= i < |steps| ==> !CompletedAt(steps, role, i)
    ensures Latest(steps, role).None?
    decreases |steps|
  {
    if steps != [] {
      var n := |steps| - 1;
      assert !CompletedAt(steps, role, n);
      assert forall j :: 0 <= j < n ==> CompletedAt(steps[..n], role, j) == CompletedAt(steps, role, j);
      NoneCompleted(steps[..n], role);
    }
  }

  lemma LatestExactly(steps: seq<Step>, role: Role)
    ensures Latest(steps, role).None? <==> forall i :: 0 <= i < |steps| ==> !CompletedAt(steps, role, i)
    ensures Latest(steps, role).Some? ==> exists i :: LastOf(steps, role, i) && Latest(steps, role).value == steps[i]
  {
    hide Latest, CompletedAt;
    var i := |steps|;
    while i > 0 && !CompletedAt(steps, role, i - 1)
      invariant 0 <= i <= |steps| && forall j :: i <= j < |steps| ==> !CompletedAt(steps, role, j)
    {
      i := i - 1;
    }
    if i > 0 {
      LatestIs(steps, role, i - 1);
    } else {
      NoneCompleted(steps, role);
    }
  }

  lemma LatestGrows(steps: seq<Step>, s: Step, role: Role)
    ensures Latest(steps + [s], role) == if IsDone(s, role) then Some(s) else Latest(steps, role)
  {
    assert (steps + [s])[..|steps|] == steps;
  }

  /** The stages completed so far are a prefix of the tail, and each came to what an uninterrupted tail comes to. */
  predicate Progress(turns: Turns, c: Context, steps: seq<Step>) {
    var w, v, z := Latest(steps, Worker), Latest(steps, Reviewer), Latest(steps, Finalizer);
    && (w.Some? ==> w.value.output == WorkOf(turns, c))
    && (v.Some? ==> w.Some? && v.value.output == ReviewOf(turns, c, w.value.id))
    && (z.Some? ==> v.Some? && z.value.output == FinalOf(turns, c, w.value.id))
  }

  // ---------------------------------------------------------------------------------------------
  // Deltas
  // ---------------------------------------------------------------------------------------------

  function Joined(parts: seq<string>): string
    decreases |parts|
  {
    if parts == [] then "" else Joined(parts[..|parts| - 1]) + parts[|parts| - 1]
  }

  /** Not empty, and with no space but at its end. */
  predicate IsWord(s: string) {
    s != "" && forall i :: 0 <= i < |s| - 1 ==> s[i] != ' '
  }

  /** emitFinalDeltas: in words, each with the space after it, and together the trimmed text. */
  method EmitFinalDeltas(text: string) returns (deltas: seq<string>)
    ensures Joined(deltas) == TrimSpace(text)
    ensures forall i :: 0 <= i < |deltas| ==> IsWord(deltas[i]) && (i < |deltas| - 1 ==> deltas[i][|deltas[i]| - 1] == ' ')
  {
    var trimmed := TrimSpace(text);
    deltas := [];
    var start := 0;
    for i := 0 to |trimmed|
      invariant 0 <= start <= i && Joined(deltas) == trimmed[..start]
      invariant forall k :: 0 <= k < |deltas| ==> IsWord(deltas[k]) && deltas[k][|deltas[k]| - 1] == ' '
      invariant forall k :: start <= k < i ==> trimmed[k] != ' '
    {
      if trimmed[i] == ' ' {
        JoinedGrows(deltas, trimmed[start..i + 1]);
        assert trimmed[..start] + trimmed[start..i + 1] == trimmed[..i + 1];
        deltas := deltas + [trimmed[start..i + 1]];
        start := i + 1;
      }
    }
    if start < |trimmed| {
      JoinedGrows(deltas, trimmed[start..]);
      assert trimmed[..start] + trimmed[start..] == trimmed;
      deltas := deltas + [trimmed[start..]];
    } else {
      assert trimmed[..start] == trimmed;
    }
  }

  lemma JoinedGrows(parts: seq<string>, part: string)
    ensures Joined(parts + [part]) == Joined(parts) + part
  {
    assert (parts + [part])[..|parts|] == parts;
  }

  // ---------------------------------------------------------------------------------------------
  // The store and the runtime
  // ---------------------------------------------------------------------------------------------

  datatype RunState = WaitingForUser | InProgress | Recoverable

  class CollaborationStore {
    var steps: seq<Step>
    var selections: seq<Selection>
    var status: RunState
    /** Whether each operation yet to come fails; one that is not listed succeeds. */
    var outages: seq<bool>
    const names: nat -> string

    constructor (planner: Step, outages: seq<bool>, names: nat -> string)
      ensures steps == [planner] && selections == [] && status == WaitingForUser && this.outages == outages && this.names == names
    {
      steps, selections, status := [planner], [], WaitingForUser;
      this.outages, this.names := outages, names;
    }

    method Fails() returns (failed: bool)
      modifies this`outages
      ensures failed ==> old(outages) != []
      ensures old(outages) == [] ==> outages == []
    {
      failed := outages != [] && outages[0];
      outages := if outages == [] then [] else outages[1..];
    }

    method CreateStep(role: Role, agent: string, status: StepStatus, input: string, output: string) returns (step: Option<Step>)
      modifies this`steps, this`outages
      ensures old(outages) == [] ==> outages == []
      ensures step.None? ==> steps == old(steps) && old(outages) != []
      ensures step.Some? ==> step.value == Step(names(|old(steps)|), role, agent, status, input, output) && steps == old(steps) + [step.value]
    {
      var failed := Fails();
      if failed { return None; }
      var s := Step(names(|steps|), role, agent, status, input, output);
      steps := steps + [s];
      return Some(s);
    }

    /** Ends the step created last; nothing else of it changes. */
    method EndStep(status: StepStatus, output: string) returns (ok: bool)
      requires steps != []
      modifies this`steps, this`outages
      ensures old(outages) == [] ==> outages == [] && ok
      ensures steps == if ok then old(steps)[..|old(steps)| - 1] + [old(steps)[|old(steps)| - 1].(status := status, output := output)] else old(steps)
    {
      var failed := Fails();
      if failed { return false; }
      steps := steps[..|steps| - 1] + [steps[|steps| - 1].(status := status, output := output)];
      return true;
    }

    method PublishSelection(stage: string, agent: string, reason: string) returns (ok: bool)
      modifies this`selections, this`outages
      ensures old(outages) == [] ==> outages == [] && ok
      ensures selections == if ok then old(selections) + [Selection(stage, agent, reason)] else old(selections)
    {
      var failed := Fails();
      if failed { return false; }
      selections := selections + [Selection(stage, agent, reason)];
      return true;
    }
  }

  /** One attempt at the tail, from one log of steps to the next, and the text it emitted if it came to its end. */
  ghost predicate Attempted(turns: Turns, c: Context, before: seq<Step>, after: seq<Step>, text: Option<string>) {
    && (Progress(turns, c, before) ==> Progress(turns, c, after))
    && (Latest(before, Worker).Some? ==> Latest(after, Worker) == Latest(before, Worker))
    && (Progress(turns, c, before) && text.Some? ==>
          Latest(after, Worker).Some? && text.value == TrimSpace(FinalOf(turns, c, Latest(after, Worker).value.id)))
  }

  function TextOf(deltas: Option<seq<string>>): Option<string> {
    if deltas.Some? then Some(Joined(deltas.value)) else None
  }

  class Runtime {
    const store: CollaborationStore
    const turns: Turns
    const candidates: seq<Agent>

    constructor (store: CollaborationStore, turns: Turns, candidates: seq<Agent>)
      ensures this.store == store && this.turns == turns && this.candidates == candidates
    {
      this.store, this.turns, this.candidates := store, turns, candidates;
    }

    /**
      One stage: a step, its turn, its result. It may be completed in the store and still fail for its caller,
      when only its last event cannot be written.
     */
    method RunStage(role: Role, agent: string, input: string) returns (output: Option<Step>)
      modifies store`steps, store`outages
      ensures store.steps == old(store.steps) || (|store.steps| == |old(store.steps)| + 1 && store.steps[..|old(store.steps)|] == old(store.steps))
      ensures |store.steps| > |old(store.steps)| ==>
        var s := store.steps[|old(store.steps)|];
        s.role == role && s.agent == agent && s.input == input && (s.status == Completed ==> s.output == turns(role, agent, input))
      ensures old(store.outages) == [] ==> output.Some? && store.outages == []
      ensures output.Some? ==> |store.steps| > |old(store.steps)| && output.value == store.steps[|old(store.steps)|] && output.value.status == Completed
    {
      var created := store.CreateStep(role, agent, Running, input, "");
      if created.None? { return None; }
      var started := store.Fails();
      if started { return None; }
      var turnFails := store.Fails();
      if turnFails {
        var updated := store.EndStep(Failed, "");
        if updated { var _ := store.Fails(); }
        return None;
      }
      var updated := store.EndStep(Completed, turns(role, agent, input));
      if !updated { return None; }
      var unpublished := store.Fails();
      if unpublished { return None; }
      return Some(store.steps[|store.steps| - 1]);
    }

    /** What is kept by every attempt at the tail: progress only, and the first worker to complete is the worker. */
    twostate predicate Kept(c: Context)
      reads store
    {
      && Progress(turns, c, store.steps)
      && (old(Latest(store.steps, Worker)).Some? ==> Latest(store.steps, Worker) == old(Latest(store.steps, Worker)))
      && Latest(store.steps, Planner) == old(Latest(store.steps, Planner))
      && Latest(store.steps, Router) == old(Latest(store.steps, Router))
    }

    /** runCollaborationTail, on the steps completed so far: the text it emits is the text of an uninterrupted tail. */
    method RunTail(c: Context) returns (deltas: Option<seq<string>>)
      requires Progress(turns, c, store.steps)
      modifies store`steps, store`outages
      ensures Kept(c) && Attempted(turns, c, old(store.steps), store.steps, TextOf(deltas))
      ensures old(store.outages) == [] ==> deltas.Some?
      ensures deltas.Some? ==> Latest(store.steps, Worker).Some?
      ensures deltas.Some? ==> Joined(deltas.value) == TrimSpace(FinalOf(turns, c, Latest(store.steps, Worker).value.id))
      ensures deltas.Some? ==>
        var w, v, z := Latest(store.steps, Worker).value, Latest(store.steps, Reviewer), Latest(store.steps, Finalizer);
        && v.Some? && z.Some?
        && (old(Latest(store.steps, Reviewer)).None? ==> v.value.input == ReviewerInput(c, Handoff(c.run, w.id, w.output)))
        && (old(Latest(store.steps, Finalizer)).None? ==> z.value.input == FinalizerInput(c, Handoff(c.run, w.id, w.output), v.value.output))
    {
      hide Handoff, WorkerInput, ReviewerInput, FinalizerInput;
      var workerStep := LatestCompleted(store.steps, Worker);
      var review := LatestCompleted(store.steps, Reviewer);
      var final := LatestCompleted(store.steps, Finalizer);
      if workerStep.None? {
        workerStep := NextStage(c, Worker, c.worker.id, WorkerInput(c));
        if workerStep.None? { return None; }
      }
      var worker := Handoff(c.run, workerStep.value.id, workerStep.value.output);
      if review.None? {
        review := NextStage(c, Reviewer, "", ReviewerInput(c, worker));
        if review.None? { return None; }
      }
      if final.None? {
        final := NextStage(c, Finalizer, "", FinalizerInput(c, worker, review.value.output));
        if final.None? { return None; }
      }
      var parts := EmitFinalDeltas(final.value.output);
      return Some(parts);
    }

    /** A stage of the tail whose role has not completed yet. */
    method NextStage(c: Context, role: Role, agent: string, input: string) returns (step: Option<Step>)
      requires Progress(turns, c, store.steps) && Latest(store.steps, role).None?
      requires IsNext(turns, c, store.steps, role, agent, input)
      modifies store`steps, store`outages
      ensures Kept(c)
      ensures old(store.outages) == [] ==> step.Some? && store.outages == []
      ensures forall r :: r != role ==> Latest(store.steps, r) == old(Latest(store.steps, r))
      ensures step.Some? ==> Latest(store.steps, role) == step && step.value.input == input
    {
      hide Handoff, WorkerInput, ReviewerInput, FinalizerInput;
      ghost var before := store.steps;
      step := RunStage(role, agent, input);
      if |store.steps| > |before| {
        ghost var s := store.steps[|before|];
        assert store.steps == before + [s];
        forall r { LatestGrows(before, s, r); }
      }
    }

    /** persistedSelectionReason: the last decision recorded for the router's step and its agent. */
    method PersistedReason(router: Step) returns (reason: string)
      ensures reason == ReasonFor(store.selections, router)
      ensures (forall i :: !LastDecision(store.selections, router, i)) ==> reason == ""
      ensures forall i :: LastDecision(store.selections, router, i) ==> reason == store.selections[i].reason
    {
      ReasonExactly(store.selections, router);
      var i := |store.selections| - 1;
      assert store.selections[..|store.selections|] == store.selections;
      while i >= 0
        invariant -1 <= i < |store.selections|
        invariant ReasonFor(store.selections, router) == ReasonFor(store.selections[..i + 1], router)
      {
        var item := store.selections[i];
        if item.stage == router.id && item.agent == router.agent { return item.reason; }
        assert store.selections[..i + 1][..i] == store.selections[..i];
        i := i - 1;
      }
      return "";
    }

    /** ResumeRecoverableCollaboration, once the checkpoints accept: what the store has decides what is left. */
    method Resume(run: string, clarified: string -> string, accepted: bool) returns (deltas: Option<seq<string>>)
      requires Recorded(store.steps, store.selections, candidates, run, clarified).Some? ==>
        Progress(turns, Recorded(store.steps, store.selections, candidates, run, clarified).value, store.steps)
      modifies store
      ensures store.selections == old(store.selections)
      ensures var c := Recorded(old(store.steps), old(store.selections), candidates, run, clarified);
        && (deltas.Some? ==> c.Some? && Latest(store.steps, Worker).Some?)
        && (deltas.Some? ==> Joined(deltas.value) == TrimSpace(FinalOf(turns, c.value, Latest(store.steps, Worker).value.id)))
        && (c.Some? ==> Attempted(turns, c.value, old(store.steps), store.steps, TextOf(deltas)))
        && (c.Some? ==> Kept(c.value) && Recorded(store.steps, store.selections, candidates, run, clarified) == c)
        && (c.None? ==> deltas.None? && store.steps == old(store.steps))
        && (c.Some? && accepted && old(store.status) == Recoverable && old(store.outages) == [] ==> deltas.Some?)
    {
      if store.status != Recoverable || !accepted { return None; }
      var planner := LatestCompleted(store.steps, Planner);
      if planner.None? { return None; }
      var router := LatestCompleted(store.steps, Router);
      if router.None? { return None; }
      var worker := FindAgent(router.value.agent);
      if worker.None? { return None; }
      var reason := PersistedReason(router.value);
      var failed := store.Fails();
      if failed { return None; }
      store.status := InProgress;
      var refused := store.Fails();
      if refused { return None; }
      deltas := RunTail(Context(run, clarified(planner.value.input), planner.value.output, worker.value, reason));
    }

    method FindAgent(id: string) returns (agent: Option<Agent>)
      ensures agent == AgentIn(candidates, id)
      ensures agent.None? <==> forall i :: 0 <= i < |candidates| ==> candidates[i].id != id
      ensures forall i :: FirstAgent(candidates, id, i) ==> agent == Some(candidates[i])
    {
      AgentExactly(candidates, id);
      for i := 0 to |candidates|
        invariant AgentIn(candidates, id) == AgentIn(candidates[i..], id)
      {
        if candidates[i].id == id { return Some(candidates[i]); }
        assert candidates[i..][1..] == candidates[i + 1..];
      }
      return None;
    }

    /**
      ContinueCollaboration from the approval of the plan on. What was approved is the plan from then on, unless
      nothing was, and the planner's own output stands: it is what the planner's step says once the router's step
      is there, what the stages work on, and what a resumption works on. Cut anywhere after its router's step, it leaves a
      store from which the run can be resumed, with the reason if the decision was recorded and without it if not.
     */
    method Continue(run: string, clarified: string -> string, approved: string, route: Option<(Agent, string, string)>)
      returns (deltas: Option<seq<string>>, ghost decided: bool)
      requires |store.steps| == 1 && IsDone(store.steps[0], Planner) && store.selections == []
      requires route.Some? ==> AgentIn(candidates, route.value.0.id) == Some(route.value.0)
      modifies store
      ensures decided <==> store.selections != []
      ensures deltas.Some? ==> route.Some? && decided && Latest(store.steps, Worker).Some?
      ensures route.Some? && old(store.status) == WaitingForUser && old(store.outages) == [] ==> deltas.Some?
      ensures Latest(store.steps, Router).Some? ==>
        && Latest(store.steps, Planner).Some?
        && Latest(store.steps, Planner).value.output == if TrimSpace(approved) != "" then TrimSpace(approved) else old(store.steps[0].output)
      ensures route.Some? ==>
        var plan := if TrimSpace(approved) != "" then TrimSpace(approved) else old(store.steps[0].output);
        var c := Context(run, clarified(old(store.steps[0].input)), plan, route.value.0, route.value.1);
        && (deltas.Some? ==> Joined(deltas.value) == TrimSpace(FinalOf(turns, c, Latest(store.steps, Worker).value.id)))
        && (decided ==> Attempted(turns, c, old(store.steps), store.steps, TextOf(deltas)))
        && (Latest(store.steps, Router).Some? ==>
              var kept := if decided then c else c.(reason := "");
              Recorded(store.steps, store.selections, candidates, run, clarified) == Some(kept) && Progress(turns, kept, store.steps))
    {
      hide Progress, Attempted, FinalOf, Recorded;
      decided := false;
      deltas := None;
      OnlyPlanner(store.steps);
      if store.status != WaitingForUser { return; }
      var plan := store.steps[0].output;
      if TrimSpace(approved) != "" { plan := TrimSpace(approved); }
      var failed := store.Fails();
      if failed { return; }
      store.status := InProgress;
      var planned := store.EndStep(Completed, plan);
      if !planned { return; }
      ghost var before := store.steps;
      deltas, decided := Route(run, clarified, route);
      if route.Some? {
        ghost var c := Context(run, clarified(before[0].input), plan, route.value.0, route.value.1);
        OnlyPlanner(before);
        SameStart(turns, c, before, old(store.steps), store.steps, TextOf(deltas));
      }
    }

    /** From the approved plan on: the router's decision, and the tail. */
    method Route(run: string, clarified: string -> string, route: Option<(Agent, string, string)>)
      returns (deltas: Option<seq<string>>, ghost decided: bool)
      requires |store.steps| == 1 && IsDone(store.steps[0], Planner) && store.selections == []
      requires route.Some? ==> AgentIn(candidates, route.value.0.id) == Some(route.value.0)
      modifies store
      ensures decided <==> store.selections != []
      ensures deltas.Some? ==> route.Some? && decided && Latest(store.steps, Worker).Some?
      ensures route.Some? && old(store.outages) == [] ==> deltas.Some?
      ensures Latest(store.steps, Planner) == Some(old(store.steps[0]))
      ensures Latest(store.steps, Router).Some? ==> route.Some?
      ensures route.Some? ==>
        var c := Context(run, clarified(old(store.steps[0].input)), old(store.steps[0].output), route.value.0, route.value.1);
        && (deltas.Some? ==> Joined(deltas.value) == TrimSpace(FinalOf(turns, c, Latest(store.steps, Worker).value.id)))
        && (decided ==> Attempted(turns, c, old(store.steps), store.steps, TextOf(deltas)))
        && (Latest(store.steps, Router).Some? ==>
              var kept := if decided then c else c.(reason := "");
              Recorded(store.steps, store.selections, candidates, run, clarified) == Some(kept) && Progress(turns, kept, store.steps))
    {
      hide FinalOf, TrimSpace, Progress, Attempted, Recorded, ReasonFor, Latest;
      decided := false;
      deltas := None;
      OnlyPlanner(store.steps);
      ghost var before := store.steps;
      var planner := store.steps[0];
      var router := RecordRoute(run, clarified, planner.output, route);
      if router.None? || route.None? { return; }
      ghost var c := Context(run, clarified(planner.input), planner.output, route.value.0, route.value.1);
      NothingYet(turns, c, before, store.steps);
      NothingYet(turns, c.(reason := ""), before, store.steps);
      NoReason(store.selections, router.value);
      RecordedIs(store.steps, store.selections, candidates, run, clarified, route.value.0);
      var unpublished := store.Fails();
      if unpublished { return; }
      var published := store.PublishSelection(router.value.id, route.value.0.id, route.value.1);
      decided := published;
      if !published { return; }
      OneReason(store.selections[0], router.value);
      assert store.selections == [store.selections[0]];
      RecordedIs(store.steps, store.selections, candidates, run, clarified, route.value.0);
      var agentFails := store.Fails();
      if agentFails { return; }
      ghost var decidedOn := store.steps;
      deltas := RunTail(Context(run, clarified(planner.input), planner.output, route.value.0, route.value.1));
      SameStart(turns, c, before, decidedOn, store.steps, TextOf(deltas));
      RecordedIs(store.steps, store.selections, candidates, run, clarified, route.value.0);
    }

    /** The router's step, before its decision is recorded. */
    method RecordRoute(run: string, clarified: string -> string, plan: string, route: Option<(Agent, string, string)>) returns (router: Option<Step>)
      requires |store.steps| == 1 && IsDone(store.steps[0], Planner) && store.steps[0].output == plan && store.selections == []
      requires route.Some? ==> AgentIn(candidates, route.value.0.id) == Some(route.value.0)
      modifies store`steps, store`outages
      ensures old(store.outages) == [] ==> store.outages == [] && router.Some?
      ensures |store.steps| >= 1 && store.steps[0] == old(store.steps[0])
      ensures router.None? ==> store.steps == old(store.steps)
      ensures Latest(store.steps, Planner) == Some(store.steps[0])
      ensures Latest(store.steps, Worker).None? && Latest(store.steps, Reviewer).None? && Latest(store.steps, Finalizer).None?
      ensures Latest(store.steps, Router).Some? <==> router.Some? && route.Some?
      ensures router.Some? && route.Some? ==> Latest(store.steps, Router) == router && router.value.agent == route.value.0.id
    {
      ghost var before := store.steps;
      OnlyPlanner(before);
      if route.Some? {
        router := store.CreateStep(Router, route.value.0.id, Completed, plan, route.value.2);
      } else {
        router := store.CreateStep(Router, "", Failed, plan, "");
      }
      if router.Some? { forall r { LatestGrows(before, router.value, r); } }
    }
  }

  function AgentIn(agents: seq<Agent>, id: string): Option<Agent> {
    if agents == [] then None else if agents[0].id == id then Some(agents[0]) else AgentIn(agents[1..], id)
  }

  function ReasonFor(selections: seq<Selection>, router: Step): string
    decreases |selections|
  {
    if selections == [] then ""
    else
      var last := selections[|selections| - 1];
      if last.stage == router.id && last.agent == router.agent then last.reason else ReasonFor(selections[..|selections| - 1], router)
  }

  ghost predicate FirstAgent(agents: seq<Agent>, id: string, i: int) {
    0 <= i < |agents| && agents[i].id == id && forall j :: 0 <= j < i ==> agents[j].id != id
  }

  lemma {:induction false} AgentExactly(agents: seq<Agent>, id: string)
    ensures AgentIn(agents, id).None? <==> forall i :: 0 <= i < |agents| ==> agents[i].id != id
    ensures forall i :: FirstAgent(agents, id, i) ==> AgentIn(agents, id) == Some(agents[i])
  {
    if agents != [] {
      AgentExactly(agents[1..], id);
      assert forall i :: 0 < i < |agents| ==> agents[i] == agents[1..][i - 1];
      forall i | FirstAgent(agents, id, i) ensures AgentIn(agents, id) == Some(agents[i]) {
        if i > 0 { assert FirstAgent(agents[1..], id, i - 1); }
      }
    }
  }

  /** The last decision recorded for the router's step and agent is the i-th. */
  ghost predicate LastDecision(selections: seq<Selection>, router: Step, i: int) {
    && 0 <= i < |selections| && selections[i].stage == router.id && selections[i].agent == router.agent
    && forall j :: i < j < |selections| ==> selections[j].stage != router.id || selections[j].agent != router.agent
  }

  lemma {:induction false} ReasonExactly(selections: seq<Selection>, router: Step)
    ensures (forall i :: !LastDecision(selections, router, i)) ==> ReasonFor(selections, router) == ""
    ensures forall i :: LastDecision(selections, router, i) ==> ReasonFor(selections, router) == selections[i].reason
    decreases |selections|
  {
    if selections != [] {
      var n := |selections| - 1;
      ReasonExactly(selections[..n], router);
      if selections[n].stage == router.id && selections[n].agent == router.agent {
        assert LastDecision(selections, router, n);
      } else {
        assert forall i :: LastDecision(selections, router, i) <==> LastDecision(selections[..n], router, i);
      }
    }
  }

  /** What a resumption reads of the run it takes up; nothing before its router has completed. */
  function Recorded(steps: seq<Step>, selections: seq<Selection>, candidates: seq<Agent>, run: string, clarified: string -> string): Option<Context> {
    var planner, router := Latest(steps, Planner), Latest(steps, Router);
    if planner.None? || router.None? then None
    else
      match AgentIn(candidates, router.value.agent)
      case None => None
      case Some(worker) => Some(Context(run, clarified(planner.value.input), planner.value.output, worker, ReasonFor(selections, router.value)))
  }

  /** The input a stage of the tail gets. */
  predicate IsNext(turns: Turns, c: Context, steps: seq<Step>, role: Role, agent: string, input: string) {
    var w, v := Latest(steps, Worker), Latest(steps, Reviewer);
    match role
    case Worker => agent == c.worker.id && input == WorkerInput(c)
    case Reviewer => w.Some? && agent == "" && input == ReviewerInput(c, HandedOn(turns, c, w.value.id))
    case Finalizer => w.Some? && v.Some? && agent == "" && input == FinalizerInput(c, HandedOn(turns, c, w.value.id), ReviewOf(turns, c, w.value.id))
    case _ => false
  }

  lemma OnlyPlanner(steps: seq<Step>)
    requires |steps| == 1 && IsDone(steps[0], Planner)
    ensures Latest(steps, Planner) == Some(steps[0])
    ensures forall r :: r != Planner ==> Latest(steps, r) == None
  {
    assert steps[..0] == [];
    forall r | r != Planner ensures Latest(steps, r) == None { assert Latest(steps, r) == Latest(steps[..0], r); }
  }

  /** No stage of the tail has completed. */
  predicate TailUntouched(steps: seq<Step>) {
    Latest(steps, Worker).None? && Latest(steps, Reviewer).None? && Latest(steps, Finalizer).None?
  }

  /** An attempt that began before the tail may as well have begun at any other moment before it. */
  lemma SameStart(turns: Turns, c: Context, before: seq<Step>, other: seq<Step>, after: seq<Step>, text: Option<string>)
    requires TailUntouched(before) && TailUntouched(other)
    ensures Attempted(turns, c, before, after, text) <==> Attempted(turns, c, other, after, text)
  {
    hide FinalOf, WorkOf, ReviewOf, TrimSpace, Latest;
  }

  lemma NothingYet(turns: Turns, c: Context, before: seq<Step>, after: seq<Step>)
    requires TailUntouched(before) && TailUntouched(after)
    ensures Progress(turns, c, after) && Attempted(turns, c, before, after, None)
  {
    hide FinalOf, WorkOf, ReviewOf, TrimSpace, Latest;
  }

  lemma RecordedIs(steps: seq<Step>, selections: seq<Selection>, candidates: seq<Agent>, run: string, clarified: string -> string, worker: Agent)
    requires Latest(steps, Planner).Some? && Latest(steps, Router).Some?
    requires AgentIn(candidates, Latest(steps, Router).value.agent) == Some(worker)
    ensures var p, r := Latest(steps, Planner).value, Latest(steps, Router).value;
      Recorded(steps, selections, candidates, run, clarified)
        == Some(Context(run, clarified(p.input), p.output, worker, ReasonFor(selections, r)))
  {
    hide Latest, ReasonFor;
  }

  lemma NoReason(selections: seq<Selection>, router: Step)
    requires selections == []
    ensures ReasonFor(selections, router) == ""
  {
  }

  lemma OneReason(s: Selection, router: Step)
    ensures ReasonFor([s], router) == if s.stage == router.id && s.agent == router.agent then s.reason else ""
  {
    assert [s][..0] == [];
  }

  // ---------------------------------------------------------------------------------------------
  // Interrupted and uninterrupted
  // ---------------------------------------------------------------------------------------------

  ghost predicate Attempts(turns: Turns, c: Context, logs: seq<seq<Step>>, texts: seq<Option<string>>) {
    && |logs| == |texts| + 1 && Progress(turns, c, logs[0])
    && forall i :: 0 <= i < |texts| ==> Attempted(turns, c, logs[i], logs[i + 1], texts[i])
  }

  lemma {:induction false} AttemptsProgress(turns: Turns, c: Context, logs: seq<seq<Step>>, texts: seq<Option<string>>, i: nat, n: nat)
    requires Attempts(turns, c, logs, texts) && i <= n < |logs|
    ensures Progress(turns, c, logs[n])
    ensures Latest(logs[i], Worker).Some? ==> Latest(logs[n], Worker) == Latest(logs[i], Worker)
    decreases n
  {
    hide Progress;
    if n > 0 {
      AttemptsProgress(turns, c, logs, texts, if i < n then i else n - 1, n - 1);
      assert Attempted(turns, c, logs[n - 1], logs[n], texts[n - 1]);
    }
  }

  /** However often a run is interrupted and resumed, every time it comes to its end it emits the same text. */
  lemma ResumedRunsAgree(turns: Turns, c: Context, logs: seq<seq<Step>>, texts: seq<Option<string>>, i: nat, j: nat)
    requires Attempts(turns, c, logs, texts) && i < j < |texts| && texts[i].Some? && texts[j].Some?
    ensures texts[i] == texts[j]
    ensures Latest(logs[j + 1], Worker).Some? && texts[j].value == TrimSpace(FinalOf(turns, c, Latest(logs[j + 1], Worker).value.id))
  {
    hide Progress;
    AttemptsProgress(turns, c, logs, texts, 0, i);
    AttemptsProgress(turns, c, logs, texts, 0, j);
    assert Attempted(turns, c, logs[i], logs[i + 1], texts[i]) && Attempted(turns, c, logs[j], logs[j + 1], texts[j]);
    AttemptsProgress(turns, c, logs, texts, i + 1, j + 1);
  }

  /** Which step the worker's is makes no difference to an output that is handed on whole. */
  lemma ShortWorkSameText(turns: Turns, c: Context, a: string, b: string)
    requires |TrimSpace(WorkOf(turns, c))| <= HANDOFF_MAX
    ensures FinalOf(turns, c, a) == FinalOf(turns, c, b)
  {
  }

  /** A longer one names its step: two steps' handoffs of the same output are the same exactly when the steps are. */
  lemma LongWorkNamesItsStep(run: string, output: string, a: string, b: string)
    requires |TrimSpace(output)| > HANDOFF_MAX && |a| == |b|
    ensures Handoff(run, a, output) == Handoff(run, b, output) <==> a == b
  {
    hide Handoff;
    EndsWith(run, a, output);
    EndsWith(run, b, output);
  }

  lemma EndsWith(run: string, step: string, output: string)
    requires |TrimSpace(output)| > HANDOFF_MAX
    ensures var x := Handoff(run, step, output); |x| >= |step| && x[|x| - |step|..] == step
  {
    hide TrimSpace;
    var suffix := Suffix(run, step);
    assert suffix[|suffix| - |step|..] == step;
  }

  /** A resumption without the reason gives the worker the input of the uninterrupted run exactly when there was none to lose. */
  lemma LostReasonShows(c: Context)
    ensures WorkerInput(c) == WorkerInput(c.(reason := "")) <==> c.reason == ""
  {
    var bare := WorkerInput(c.(reason := ""));
    if c.reason != "" {
      assert WorkerInput(c) == bare + "\nSelection reason: " + c.reason;
      assert |WorkerInput(c)| > |bare|;
    }
  }
}
