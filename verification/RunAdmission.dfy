/**
  The run controller's methods as they execute, each a sequence of atomic sections of RunController's machine.
  `others` lists the steps other reservations take before each of this one's waits; the methods must cope with
  every such list. A wait that ends by its timeout is one that ran out of patience.
 */
module RunAdmission {
  import opened Results
  import opened RunController
  import K = KeyedSlots

  datatype AdmissionError = QueueFull | QueueTimeout | ShuttingDown | ConversationRequired

  /** What a reservation itself sees of the controller. */
  ghost predicate SameFor(c: Controller, d: Controller, p: nat) {
    && PhaseOf(d, p) == PhaseOf(c, p)
    && (p in c.writers.users ==> d.writers.users[p] == c.writers.users[p])
    && (p in d.stages <==> p in c.stages)
    && (p in c.stages ==> d.stages[p] == c.stages[p])
    && (c.closing ==> d.closing)
  }

  ghost predicate Gone(c: Controller, p: nat) {
    p !in c.stages && p !in c.reserved && p !in c.writers.users
  }

  lemma LiveOrGone(c: Controller, p: nat)
    requires Inv(c)
    ensures p !in c.stages ==> Gone(c, p)
    ensures p in c.writers.users ==> c.writers.users[p].entry in c.writers.heap
  {
    if p in c.writers.users { K.EntryIsKnown(c.writers, WRITER, p); }
    hide K.Inv;
  }

  /** What the steps between two waits do to the fields. */
  lemma SectionsAre(c: Controller, p: nat)
    requires Inv(c)
    ensures MayCancel(c, p) ==> Enabled(c, RunController.Cancel(p)) && p in c.reserved
    ensures MayCancel(c, p) ==>
      Apply(c, RunController.Cancel(p)) == c.(capacity := c.capacity - 1, pending := c.pending - 1, reserved := c.reserved - {p}, stages := c.stages - {p})
    ensures At(c, p, Active) ==>
      Enabled(c, Finish(p)) && Apply(c, Finish(p)) == c.(active := c.active - 1, stages := c.stages[p := Unwinding])
    ensures At(c, p, AwaitingSlot) ==>
      Enabled(c, SlotTimeout(p)) && Apply(c, SlotTimeout(p)) == c.(stages := c.stages[p := Unwinding])
    ensures At(c, p, AwaitingSlot) && c.active < c.maxActive ==>
      Enabled(c, RunController.TakeSlot(p)) && Apply(c, RunController.TakeSlot(p)) == c.(active := c.active + 1, stages := c.stages[p := Active])
    ensures p in c.stages ==> Fits(c.stages[p], PhaseOf(c, p))
  {
    hide K.Enter, K.Take, K.GiveUp, K.Drop, K.Leave, K.CanTake, K.Inv;
  }

  lemma LeaveIs(c: Controller, p: nat)
    requires Inv(c) && At(c, p, Unwinding) && PhaseOf(c, p) == Some(K.Leaving)
    ensures c.writers.users[p].entry in c.writers.heap && Enabled(c, LeaveWriter(p))
    ensures Apply(c, LeaveWriter(p)) == c.(writers := K.Leave(c.writers, p), stages := c.stages[p := Unwinding])
    ensures p !in K.Leave(c.writers, p).users
  {
    K.EntryIsKnown(c.writers, WRITER, p);
    hide K.Enter, K.Take, K.GiveUp, K.Drop, K.CanTake, K.Inv;
  }

  lemma EnterIs(c: Controller, p: nat, conversation: string)
    requires Inv(c) && At(c, p, Idle) && conversation != ""
    ensures Enabled(c, Acquire(p, conversation))
    ensures conversation in c.writers.entries ==> c.writers.entries[conversation] in c.writers.heap
    ensures Apply(c, Acquire(p, conversation))
      == c.(writers := K.Enter(c.writers, WRITER, p, conversation).0, stages := c.stages[p := Acquiring])
  {
    assert K.Distinct(c.writers);
    hide K.Inv;
  }

  lemma EnterLeavesFree(c: Controller, p: nat, conversation: string, rivals: set<nat>)
    requires Inv(c) && At(c, p, Idle) && conversation != ""
    requires conversation in c.writers.entries ==> c.writers.entries[conversation] in c.writers.heap
    ensures var d := c.(writers := K.Enter(c.writers, WRITER, p, conversation).0, stages := c.stages[p := Acquiring]);
      && (Free(c, p, conversation, rivals) ==> Free(d, p, conversation, rivals))
      && PhaseOf(d, p) == Some(K.Waiting) && d.writers.users[p].key == conversation
  {
    assert p !in c.writers.users;
    K.EnterKeepsInv(c.writers, WRITER, p, conversation);
    assert K.Enter(c.writers, WRITER, p, conversation).1;
    hide K.Enter, K.Inv, Inv;
    OneMoreWaits(c.writers, K.Enter(c.writers, WRITER, p, conversation).0, p, conversation, conversation);
  }

  lemma OneMoreWaits(s: K.State, t: K.State, p: nat, key: string, conversation: string)
    requires p in t.users && t.users == s.users[p := t.users[p]] && t.users[p].key == key && t.users[p].phase.Waiting? && p !in s.users
    ensures K.HoldersOf(t, conversation) == K.HoldersOf(s, conversation) && K.UsersOf(t, conversation) <= K.UsersOf(s, conversation) + {p}
  {
  }

  lemma DropIs(c: Controller, p: nat)
    requires Inv(c) && At(c, p, Unwinding) && PhaseOf(c, p) == Some(K.Holding)
    ensures c.writers.users[p].entry in c.writers.heap && Enabled(c, DropWriter(p))
    ensures Apply(c, DropWriter(p)) == c.(writers := K.Drop(c.writers, p), stages := c.stages[p := Unwinding])
    ensures p in K.Drop(c.writers, p).users && K.Drop(c.writers, p).users[p].phase.Leaving?
  {
    K.EntryIsKnown(c.writers, WRITER, p);
    hide K.Enter, K.Take, K.GiveUp, K.Leave, K.CanTake, K.Inv;
  }

  lemma ReserveIs(c: Controller, p: nat)
    requires p !in c.stages && p !in c.reserved && !c.closing && c.capacity < c.maxPending
    ensures Enabled(c, RunController.Reserve(p))
    ensures Apply(c, RunController.Reserve(p))
      == c.(capacity := c.capacity + 1, pending := c.pending + 1, reserved := c.reserved + {p}, stages := c.stages[p := Idle])
  {
  }

  // ---------------------------------------------------------------------------------------------
  // What others leave
  // ---------------------------------------------------------------------------------------------

  /** How many of the steps take a slot. */
  function SlotTakes(batch: seq<Step>): nat
    decreases |batch|
  {
    if batch == [] then 0 else (if batch[0].TakeSlot? then 1 else 0) + SlotTakes(batch[1..])
  }

  function AllSlotTakes(others: seq<seq<Step>>): nat
    decreases |others|
  {
    if others == [] then 0 else SlotTakes(others[0]) + AllSlotTakes(others[1..])
  }

  /** Only rivals ask for the conversation, and none of them takes it. */
  predicate YieldsStep(step: Step, conversation: string, rivals: set<nat>) {
    && (step.Acquire? && step.conversation == conversation ==> step.p in rivals)
    && (step.TakeWriter? ==> step.p !in rivals)
  }

  predicate Yield(batch: seq<Step>, conversation: string, rivals: set<nat>) {
    forall i :: 0 <= i < |batch| ==> YieldsStep(batch[i], conversation, rivals)
  }

  predicate AllYield(others: seq<seq<Step>>, conversation: string, rivals: set<nat>) {
    forall i :: 0 <= i < |others| ==> Yield(others[i], conversation, rivals)
  }

  /** Nobody owns the conversation, and only p and its rivals want it. */
  ghost predicate Free(c: Controller, p: nat, conversation: string, rivals: set<nat>) {
    K.HoldersOf(c.writers, conversation) == {} && K.UsersOf(c.writers, conversation) <= rivals + {p}
  }

  lemma StepLeavesFree(c: Controller, step: Step, p: nat, conversation: string, rivals: set<nat>)
    requires Enabled(c, step) && Actor(step) != Some(p) && YieldsStep(step, conversation, rivals) && Free(c, p, conversation, rivals)
    ensures Free(Apply(c, step), p, conversation, rivals)
  {
    var d := Apply(c, step);
    if step != BeginClose { OwnChange(c, step); }
    forall q | q in d.writers.users && d.writers.users[q].key == conversation
      ensures q in rivals + {p} && !d.writers.users[q].phase.Holding?
    {
      if Actor(step) != Some(q) {
        OthersUnmoved(c, step, q);
        assert PhaseOf(c, q).Some?;
        assert q in K.UsersOf(c.writers, conversation) && q !in K.HoldersOf(c.writers, conversation);
      } else if !step.Acquire? {
        assert q in K.UsersOf(c.writers, conversation) && q !in K.HoldersOf(c.writers, conversation);
      }
    }
  }

  lemma StepTakesOneSlot(c: Controller, step: Step)
    requires Enabled(c, step)
    ensures Apply(c, step).active <= c.active + (if step.TakeSlot? then 1 else 0)
  {
    hide K.Enter, K.Take, K.GiveUp, K.Drop, K.Leave, K.CanTake;
  }

  lemma OtherIs(c: Controller, step: Step, p: nat, conversation: string, rivals: set<nat>)
    requires Enabled(c, step) && Actor(step) != Some(p)
    ensures SameFor(c, Apply(c, step), p)
    ensures Apply(c, step).maxActive == c.maxActive && Apply(c, step).maxPending == c.maxPending
    ensures Apply(c, step).active <= c.active + (if step.TakeSlot? then 1 else 0)
    ensures YieldsStep(step, conversation, rivals) && Free(c, p, conversation, rivals) ==> Free(Apply(c, step), p, conversation, rivals)
  {
    OthersUnmoved(c, step, p);
    ApplyKeepsBounds(c, step);
    StepTakesOneSlot(c, step);
    hide Apply, Enabled, Free, YieldsStep;
    if YieldsStep(step, conversation, rivals) && Free(c, p, conversation, rivals) { StepLeavesFree(c, step, p, conversation, rivals); }
  }

  lemma TakeIs(c: Controller, p: nat)
    requires At(c, p, Acquiring) && K.CanTake(c.writers, WRITER, p)
    ensures Enabled(c, TakeWriter(p))
    ensures Apply(c, TakeWriter(p)) == c.(writers := K.Take(c.writers, WRITER, p), stages := c.stages[p := AwaitingSlot])
    ensures p in K.Take(c.writers, WRITER, p).users && K.Take(c.writers, WRITER, p).users[p] == c.writers.users[p].(phase := K.Holding)
  {
    hide K.Enter, K.GiveUp, K.Drop, K.Leave;
  }

  lemma GiveUpIs(c: Controller, p: nat)
    requires Inv(c) && At(c, p, Acquiring)
    ensures PhaseOf(c, p) == Some(K.Waiting) && Enabled(c, WriterTimeout(p))
    ensures Apply(c, WriterTimeout(p)) == c.(writers := K.GiveUp(c.writers, p), stages := c.stages[p := Unwinding])
    ensures p in K.GiveUp(c.writers, p).users && K.GiveUp(c.writers, p).users[p].phase.Leaving?
  {
    LiveOrGone(c, p);
    assert Fits(c.stages[p], PhaseOf(c, p));
    hide K.Enter, K.Take, K.Drop, K.Leave, K.CanTake, K.Inv;
  }

  class AdmissionController {
    const maxActive: nat
    const maxPending: nat
    var capacity: int
    var pending: int
    var active: int
    var closing: bool
    var writers: K.State
    var reserved: set<nat>
    var stages: map<nat, Stage>
    var others: seq<seq<Step>>
    ghost const initial: Controller
    ghost var history: seq<Step>

    function View(): Controller
      reads this
    {
      Controller(maxActive, maxPending, capacity, pending, active, closing, writers, reserved, stages)
    }

    ghost predicate Valid()
      reads this
    {
      Inv(initial) && Runs(initial, history, View())
    }

    constructor (maxConcurrent: int, queueSize: int, others: seq<seq<Step>>)
      ensures Valid() && View() == New(maxConcurrent, queueSize) == initial && this.others == others
      ensures maxActive == if maxConcurrent >= 1 then maxConcurrent else 1
      ensures maxPending == maxActive + if queueSize >= 0 then queueSize else 0
      ensures capacity == pending == active == 0 && !closing
    {
      maxActive := if maxConcurrent <= 0 then 1 else maxConcurrent;
      maxPending := (if maxConcurrent <= 0 then 1 else maxConcurrent) + (if queueSize < 0 then 0 else queueSize);
      capacity, pending, active, closing := 0, 0, 0, false;
      writers, reserved, stages := K.EMPTY, {}, map[];
      initial, history := New(maxConcurrent, queueSize), [];
      this.others := others;
      new;
      NewIsInv(maxConcurrent, queueSize);
    }

    /** An atomic section has ended: what it did to the fields was the step. */
    ghost method Record(was: Controller, step: Step)
      requires Inv(initial) && Runs(initial, history, was) && Enabled(was, step) && View() == Apply(was, step)
      modifies this`history
      ensures Valid() && history == old(history) + [step] && Inv(View())
    {
      hide K.Inv, Enabled, Apply;
      RunsThen(initial, history, was, step);
      history := history + [step];
      RunsKeepInv(initial, history, View());
    }

    /** One atomic section on the writers and the stages: what it makes of them is the step. */
    method Commit(writers: K.State, stages: map<nat, Stage>, ghost step: Step)
      requires Valid() && Enabled(View(), step) && Apply(View(), step) == View().(writers := writers, stages := stages)
      modifies this`writers, this`stages, this`history
      ensures Valid() && Inv(View()) && View() == old(View()).(writers := writers, stages := stages)
    {
      hide Inv, Runs, Enabled, Apply, K.Enter, K.Take, K.GiveUp, K.Drop, K.Leave;
      ghost var was := View();
      this.writers, this.stages := writers, stages;
      Record(was, step);
    }

    /** The others' next steps, those that are possible when they come to them. */
    method Interleave(p: nat, ghost conversation: string := "", ghost rivals: set<nat> := {})
      requires Valid()
      modifies this
      ensures Valid() && Inv(View()) && SameFor(old(View()), View(), p)
      ensures active + AllSlotTakes(others) <= old(active + AllSlotTakes(others))
      ensures old(AllYield(others, conversation, rivals)) ==> AllYield(others, conversation, rivals)
      ensures old(AllYield(others, conversation, rivals) && Free(View(), p, conversation, rivals)) ==> Free(View(), p, conversation, rivals)
    {
      hide Apply, Enabled, Inv, Runs, Free;
      RunsKeepInv(initial, history, View());
      var batch := if others == [] then [] else others[0];
      others := if others == [] then [] else others[1..];
      ghost var free := Yield(batch, conversation, rivals) && Free(View(), p, conversation, rivals);
      for i := 0 to |batch|
        invariant Valid() && Inv(View()) && SameFor(old(View()), View(), p)
        invariant others == if old(others) == [] then [] else old(others)[1..]
        invariant active + SlotTakes(batch[i..]) <= old(active) + SlotTakes(batch)
        invariant free ==> Free(View(), p, conversation, rivals)
      {
        assert batch[i..][1..] == batch[i + 1..];
        if Enabled(View(), batch[i]) && Actor(batch[i]) != Some(p) {
          Other(batch[i], p, conversation, rivals);
        }
      }
    }

    method Other(step: Step, p: nat, ghost conversation: string, ghost rivals: set<nat>)
      requires Valid() && Enabled(View(), step) && Actor(step) != Some(p)
      modifies this
      ensures Valid() && Inv(View()) && SameFor(old(View()), View(), p) && others == old(others)
      ensures active <= old(active) + (if step.TakeSlot? then 1 else 0)
      ensures YieldsStep(step, conversation, rivals) && old(Free(View(), p, conversation, rivals)) ==> Free(View(), p, conversation, rivals)
    {
      ghost var was := View();
      OtherIs(was, step, p, conversation, rivals);
      hide Apply, Enabled, Inv, Runs, Free, SameFor, YieldsStep;
      Become(Apply(View(), step), step);
    }

    method Become(next: Controller, ghost step: Step)
      requires Valid() && Enabled(View(), step) && Apply(View(), step) == next
      requires next.maxActive == maxActive && next.maxPending == maxPending
      modifies this
      ensures Valid() && Inv(View()) && View() == next && others == old(others)
    {
      ghost var was := View();
      hide Apply, Enabled, Inv, Runs;
      capacity, pending, active, closing := next.capacity, next.pending, next.active, next.closing;
      writers, reserved, stages := next.writers, next.reserved, next.stages;
      Record(was, step);
    }

    method Reserve(p: nat) returns (r: Result<(), AdmissionError>)
      requires Valid() && p !in stages && p !in reserved
      modifies this
      ensures Valid()
      ensures r == if old(closing) then Err(ShuttingDown) else if old(capacity) >= maxPending then Err(QueueFull) else Ok(())
      ensures if r.Ok? then View() == Apply(old(View()), RunController.Reserve(p)) && At(View(), p, Idle) else View() == old(View())
    {
      if closing { return Err(ShuttingDown); }
      if capacity >= maxPending { return Err(QueueFull); }
      ghost var was := View();
      ReserveIs(was, p);
      hide Apply, Enabled, Inv, Runs;
      capacity := capacity + 1;
      pending := pending + 1;
      reserved := reserved + {p};
      stages := stages[p := Idle];
      Record(was, RunController.Reserve(p));
      return Ok(());
    }

    /** Gives the place back, the first time it is called. */
    method Cancel(p: nat)
      requires Valid() && (p in stages ==> MayCancel(View(), p))
      modifies this
      ensures Valid() && Inv(View()) && Gone(View(), p)
      ensures View() == if old(p in stages) then Apply(old(View()), RunController.Cancel(p)) else old(View())
    {
      RunsKeepInv(initial, history, View());
      LiveOrGone(View(), p);
      SectionsAre(View(), p);
      hide Apply, Enabled, Inv, Runs;
      if p in reserved {
        GivePlaceBack(p);
        LiveOrGone(View(), p);
      }
    }

    method GivePlaceBack(p: nat)
      requires Valid() && Inv(View()) && MayCancel(View(), p) && Enabled(View(), RunController.Cancel(p))
      modifies this
      ensures Valid() && Inv(View()) && p !in stages
      ensures View() == Apply(old(View()), RunController.Cancel(p))
    {
      ghost var was := View();
      SectionsAre(was, p);
      hide Apply, Enabled, Inv, Runs;
      capacity := capacity - 1;
      reserved := reserved - {p};
      pending := pending - 1;
      stages := stages - {p};
      Record(was, RunController.Cancel(p));
    }

    /** The conversation and a slot are free, and the others will leave them so. */
    ghost predicate LeftFree(p: nat, conversation: string, rivals: set<nat>)
      reads this
    {
      && Free(View(), p, conversation, rivals) && AllYield(others, conversation, rivals)
      && active + AllSlotTakes(others) < maxActive
    }

    /**
      Waits for the conversation, then for a slot, with others in between; on every failing path everything taken
      is given back. It does start when the conversation and a slot are free and the others leave them: no rival
      takes the conversation, and fewer slots are taken than are free.
     */
    method Start(p: nat, conversation: string, patience: nat, ghost rivals: set<nat>) returns (r: Result<(), AdmissionError>)
      requires Valid() && At(View(), p, Idle)
      modifies this
      ensures Valid() && Inv(View())
      ensures r.Ok? ==> At(View(), p, Active) && Owns(View(), p, conversation)
      ensures r.Err? ==> Gone(View(), p)
      ensures conversation != "" && old(LeftFree(p, conversation, rivals)) ==> r.Ok?
      ensures r == Err(ConversationRequired) <==> conversation == ""
      ensures r.Err? ==> r.error.ConversationRequired? || r.error.QueueTimeout?
    {
      hide Apply, Enabled, Inv, Runs, Free, AllYield, K.HoldersOf;
      if conversation == "" {
        Cancel(p);
        return Err(ConversationRequired);
      }
      var acquired := AcquireWriter(p, conversation, patience, rivals);
      Interleave(p);
      if !acquired {
        Cancel(p);
        return Err(QueueTimeout);
      }
      var taken := TakeSlot(p, conversation, patience);
      if !taken {
        Interleave(p);
        ReleaseWriter(p);
        Interleave(p);
        Cancel(p);
        return Err(QueueTimeout);
      }
      return Ok(());
    }

    method AcquireWriter(p: nat, conversation: string, patience: nat, ghost rivals: set<nat>) returns (acquired: bool)
      requires Valid() && At(View(), p, Idle) && conversation != ""
      modifies this
      ensures Valid() && Inv(View())
      ensures if acquired then At(View(), p, AwaitingSlot) && Owns(View(), p, conversation) else Unwound(p)
      ensures active + AllSlotTakes(others) <= old(active + AllSlotTakes(others))
      ensures old(Free(View(), p, conversation, rivals) && AllYield(others, conversation, rivals)) ==> acquired
    {
      hide Free, K.CanTake;
      ghost var free := Free(View(), p, conversation, rivals) && AllYield(others, conversation, rivals);
      EnterEntry(p, conversation, rivals);
      Interleave(p, conversation, rivals);
      FreeCanTake(p, conversation, rivals);
      var left := patience;
      while left > 0 && !K.CanTake(writers, WRITER, p)
        invariant Valid() && Inv(View())
        invariant At(View(), p, Acquiring) && Asks(p, conversation)
        invariant active + AllSlotTakes(others) <= old(active + AllSlotTakes(others))
        invariant free ==> K.CanTake(writers, WRITER, p)
      {
        Interleave(p);
        left := left - 1;
      }
      acquired := K.CanTake(writers, WRITER, p);
      if acquired { TakeToken(p, conversation); } else { GiveUpWaiting(p, conversation); }
    }

    lemma FreeCanTake(p: nat, conversation: string, rivals: set<nat>)
      requires Inv(View()) && Asks(p, conversation)
      ensures Free(View(), p, conversation, rivals) ==> K.CanTake(writers, WRITER, p)
    {
      if Free(View(), p, conversation, rivals) { K.FreeSlot(writers, WRITER, p); }
    }

    predicate Asks(p: nat, conversation: string)
      reads this
    {
      PhaseOf(View(), p) == Some(K.Waiting) && writers.users[p].key == conversation
    }

    predicate Unwound(p: nat)
      reads this
    {
      At(View(), p, Unwinding) && p !in writers.users
    }

    method EnterEntry(p: nat, conversation: string, ghost rivals: set<nat>)
      requires Valid() && At(View(), p, Idle) && conversation != ""
      modifies this
      ensures Valid() && Inv(View()) && At(View(), p, Acquiring) && Asks(p, conversation)
      ensures active == old(active) && others == old(others)
      ensures old(Free(View(), p, conversation, rivals)) ==> Free(View(), p, conversation, rivals)
    {
      RunsKeepInv(initial, history, View());
      EnterIs(View(), p, conversation);
      EnterLeavesFree(View(), p, conversation, rivals);
      hide Apply, Enabled, Inv, Runs, Free, K.Enter;
      Commit(K.Enter(writers, WRITER, p, conversation).0, stages[p := Acquiring], Acquire(p, conversation));
    }

    method TakeToken(p: nat, conversation: string)
      requires Valid() && At(View(), p, Acquiring) && Asks(p, conversation) && K.CanTake(writers, WRITER, p)
      modifies this
      ensures Valid() && Inv(View()) && At(View(), p, AwaitingSlot) && Owns(View(), p, conversation) && active == old(active) && others == old(others)
    {
      TakeIs(View(), p);
      hide Apply, Enabled, Inv, Runs, K.Enter, K.Take, K.GiveUp, K.Drop, K.Leave;
      Commit(K.Take(writers, WRITER, p), stages[p := AwaitingSlot], TakeWriter(p));
    }

    method GiveUpWaiting(p: nat, conversation: string)
      requires Valid() && Inv(View()) && At(View(), p, Acquiring) && Asks(p, conversation)
      modifies this
      ensures Valid() && Inv(View()) && Unwound(p)
      ensures active + AllSlotTakes(others) <= old(active + AllSlotTakes(others))
    {
      hide Apply, Enabled, Inv, Runs;
      StopWaiting(p);
      ReturnReference(p);
    }

    method StopWaiting(p: nat)
      requires Valid() && Inv(View()) && At(View(), p, Acquiring)
      modifies this`writers, this`stages, this`history
      ensures Valid() && Inv(View()) && At(View(), p, Unwinding) && PhaseOf(View(), p) == Some(K.Leaving)
    {
      GiveUpIs(View(), p);
      hide Apply, Enabled, Inv, Runs, K.Enter, K.Take, K.GiveUp, K.Drop, K.Leave, K.CanTake;
      Commit(K.GiveUp(writers, p), stages[p := Unwinding], WriterTimeout(p));
    }

    method TakeSlot(p: nat, ghost conversation: string, patience: nat) returns (taken: bool)
      requires Valid() && Inv(View()) && At(View(), p, AwaitingSlot) && Owns(View(), p, conversation)
      modifies this
      ensures Valid() && Inv(View()) && Owns(View(), p, conversation)
      ensures At(View(), p, if taken then Active else Unwinding)
      ensures old(active) < maxActive ==> taken
    {
      var left := patience;
      while left > 0 && active >= maxActive
        invariant Valid() && Inv(View()) && At(View(), p, AwaitingSlot) && Owns(View(), p, conversation)
        invariant old(active) < maxActive ==> active < maxActive
      {
        hide Apply, Enabled, Inv, Runs;
        Interleave(p);
        left := left - 1;
      }
      taken := active < maxActive;
      LeaveQueue(p, taken);
    }

    method LeaveQueue(p: nat, taken: bool)
      requires Valid() && Inv(View()) && At(View(), p, AwaitingSlot) && (taken ==> active < maxActive)
      modifies this
      ensures Valid() && Inv(View()) && At(View(), p, if taken then Active else Unwinding)
      ensures writers == old(writers)
    {
      ghost var was := View();
      SectionsAre(was, p);
      hide Apply, Enabled, Inv, Runs;
      stages := stages[p := if taken then Active else Unwinding];
      if taken { active := active + 1; }
      ghost var step := if taken then RunController.TakeSlot(p) else SlotTimeout(p);
      assert View() == Apply(was, step);
      Record(was, step);
    }

    /** The token first, then the reference: a newcomer cannot find the entry gone under a holder. */
    method ReleaseWriter(p: nat)
      requires Valid() && Inv(View()) && At(View(), p, Unwinding) && PhaseOf(View(), p) == Some(K.Holding)
      modifies this
      ensures Valid() && Inv(View()) && Unwound(p)
    {
      DropIs(View(), p);
      hide Apply, Enabled, Inv, Runs, K.Enter, K.Take, K.GiveUp, K.Drop, K.Leave, K.CanTake;
      Commit(K.Drop(writers, p), stages[p := Unwinding], DropWriter(p));
      ReturnReference(p);
    }

    /** Others may come in between, and the reference is still there to be returned. */
    method ReturnReference(p: nat)
      requires Valid() && Inv(View()) && At(View(), p, Unwinding) && PhaseOf(View(), p) == Some(K.Leaving)
      modifies this
      ensures Valid() && Inv(View()) && Unwound(p)
      ensures active + AllSlotTakes(others) <= old(active + AllSlotTakes(others))
    {
      Interleave(p);
      LeaveEntry(p);
    }

    method LeaveEntry(p: nat)
      requires Valid() && Inv(View()) && At(View(), p, Unwinding) && PhaseOf(View(), p) == Some(K.Leaving)
      modifies this`writers, this`stages, this`history
      ensures Valid() && Inv(View()) && Unwound(p)
    {
      LeaveIs(View(), p);
      hide Apply, Enabled, Inv, Runs, K.Enter, K.Take, K.GiveUp, K.Drop, K.Leave, K.CanTake;
      Commit(K.Leave(writers, p), stages[p := Unwinding], LeaveWriter(p));
    }

    method FinishRun(p: nat)
      requires Valid() && Inv(View()) && At(View(), p, Active)
      modifies this
      ensures Valid() && Inv(View()) && At(View(), p, Unwinding) && PhaseOf(View(), p) == Some(K.Holding)
    {
      ghost var was := View();
      SectionsAre(was, p);
      hide Apply, Enabled, Inv, Runs;
      active := active - 1;
      stages := stages[p := Unwinding];
      Record(was, Finish(p));
      Interleave(p);
    }

    /** The release a started run is given: slot, writer, place, in that order; a second call does nothing. */
    method Release(p: nat)
      requires Valid() && (p in stages ==> stages[p].Active?)
      modifies this
      ensures Valid() && Inv(View()) && Gone(View(), p)
      ensures old(p !in stages) ==> View() == old(View())
    {
      RunsKeepInv(initial, history, View());
      LiveOrGone(View(), p);
      hide Apply, Enabled, Inv, Runs;
      if p in stages {
        FinishRun(p);
        ReleaseWriter(p);
        Interleave(p);
        Cancel(p);
      }
    }

    /**
      Stops admission and waits for the reservations there are, or for the context. Without an error nothing is
      left; with both at once, the select may report the context's error all the same.
     */
    method CloseAndWait(p: nat, patience: nat, expired: bool) returns (drained: bool)
      requires Valid()
      modifies this
      ensures Valid() && Inv(View()) && closing
      ensures drained <==> Drained(View()) && !expired
    {
      ghost var was := View();
      closing := true;
      Record(was, BeginClose);
      var left := patience;
      while left > 0 && pending > 0
        invariant Valid() && Inv(View()) && closing
      {
        Interleave(p);
        left := left - 1;
      }
      drained := pending == 0 && !expired;
      ZeroIsDrained(View());
    }
  }
}
