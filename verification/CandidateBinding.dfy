/**
  The candidate answer of a run: its message is saved first, then a receipt that names it and, if the run has a
  completion contract, binds it to the question it answers. Read back later, question and answer come from one
  completion, wherever the completions were cut; without a contract the question is the conversation's own.
 */
module CandidateBinding {
  import opened Results
  import opened Text

  datatype RunInfo = RunInfo(id: string, conversation: string, workspace: string, contracted: bool)

  datatype Message = Message(assistant: bool, conversation: string, workspace: string, content: string)

  /** The binding hash: injective in what it hashes. */
  datatype Digest = Digest(run: string, message: nat, question: string, output: string)

  /** A receipt names its message; the primary one, of the answer's own citations, carries the binding. */
  datatype Event = Receipt(primary: bool, run: string, conversation: string, message: Option<nat>, question: Option<string>, hash: Option<Digest>) | OtherEvent

  datatype Candidate = Candidate(question: string, output: string)

  datatype BindingError = NoCandidate | InvalidCandidate

  datatype Call = Call(question: string, output: string, web: bool)

  // ---------------------------------------------------------------------------------------------
  // Reading the candidate
  // ---------------------------------------------------------------------------------------------

  predicate IsPrimary(e: Event) { e.Receipt? && e.primary }

  /** The last primary receipt. */
  function LastPrimary(events: seq<Event>): Option<nat>
    decreases |events|
  {
    if events == [] then None
    else if IsPrimary(events[|events| - 1]) then Some(|events| - 1)
    else LastPrimary(events[..|events| - 1])
  }

  predicate HasReceipt(events: seq<Event>) {
    exists i :: 0 <= i < |events| && events[i].Receipt?
  }

  predicate Consistent(run: RunInfo, events: seq<Event>, binding: nat)
    requires binding < |events| && events[binding].Receipt?
  {
    && events[binding].message.Some?
    && forall i :: binding <= i < |events| && events[i].Receipt? ==>
         events[i].run == run.id && events[i].conversation == run.conversation && events[i].message == events[binding].message
  }

  predicate Binds(run: RunInfo, e: Event)
    requires e.Receipt?
  {
    run.contracted || e.question.Some? || e.hash.Some? ==> e.question.Some? && e.hash.Some?
  }

  predicate IsAnswer(run: RunInfo, m: Message, id: nat, e: Event)
    requires e.Receipt?
  {
    && m.assistant && m.conversation == run.conversation && m.workspace == run.workspace && TrimSpace(m.content) != ""
    && (e.hash.Some? && e.question.Some? ==> e.hash.value == Digest(run.id, id, e.question.value, m.content))
  }

  /** boundCandidate; `history` is the question that the conversation itself suggests, for receipts without one. */
  function Bound(run: RunInfo, messages: seq<Message>, events: seq<Event>, history: string): Result<Candidate, BindingError> {
    match LastPrimary(events)
    case None => Err(if HasReceipt(events) then InvalidCandidate else NoCandidate)
    case Some(i) =>
      LastPrimaryIs(events);
      var binding := events[i];
      if !Consistent(run, events, i) || !Binds(run, binding) then Err(InvalidCandidate)
      else if binding.message.value >= |messages| then Err(InvalidCandidate)
      else
        var message := messages[binding.message.value];
        if !IsAnswer(run, message, binding.message.value, binding) then Err(InvalidCandidate)
        else Ok(Candidate(if binding.question.Some? then binding.question.value else history, message.content))
  }

  lemma {:induction false} LastPrimaryIs(events: seq<Event>)
    ensures LastPrimary(events).Some? ==>
      var i := LastPrimary(events).value;
      i < |events| && IsPrimary(events[i]) && forall k :: i < k < |events| ==> !IsPrimary(events[k])
    ensures LastPrimary(events).None? ==> forall k :: 0 <= k < |events| ==> !IsPrimary(events[k])
    decreases |events|
  {
    if events != [] { LastPrimaryIs(events[..|events| - 1]); }
  }

  /** The last primary receipt is the b-th event. */
  ghost predicate BindsLast(events: seq<Event>, b: int) {
    && 0 <= b < |events| && events[b].Receipt? && events[b].primary
    && forall i :: b < i < |events| && events[i].Receipt? ==> !events[i].primary
  }

  /**
    The last primary receipt and all receipts after it are of this run and conversation and name one message. That
    is an assistant's, of the run's conversation and workspace, and not blank. A contract asks for the question and
    the hash; either asks for the other, and the hash is that of this run, message, question and answer.
   */
  ghost predicate Acceptable(run: RunInfo, messages: seq<Message>, events: seq<Event>, b: int) {
    && BindsLast(events, b)
    && events[b].message.Some? && events[b].message.value < |messages|
    && (forall i :: b <= i < |events| && events[i].Receipt? ==>
          events[i].run == run.id && events[i].conversation == run.conversation && events[i].message == events[b].message)
    && var m := messages[events[b].message.value];
    && m.assistant && m.conversation == run.conversation && m.workspace == run.workspace && TrimSpace(m.content) != ""
    && (run.contracted ==> events[b].question.Some?)
    && (events[b].question.Some? <==> events[b].hash.Some?)
    && (events[b].question.Some? ==>
          events[b].hash.value == Digest(run.id, events[b].message.value, events[b].question.value, m.content))
  }

  lemma BoundExactly(run: RunInfo, messages: seq<Message>, events: seq<Event>, history: string)
    ensures var r := Bound(run, messages, events, history);
      && (r.Ok? <==> exists b :: Acceptable(run, messages, events, b))
      && (r == Err(NoCandidate) <==> forall i :: 0 <= i < |events| ==> !events[i].Receipt?)
      && (forall b :: Acceptable(run, messages, events, b) ==>
            r == Ok(Candidate(if events[b].question.Some? then events[b].question.value else history, messages[events[b].message.value].content)))
  {
    LastPrimaryIs(events);
    if LastPrimary(events).Some? {
      var b := LastPrimary(events).value;
      assert BindsLast(events, b);
      assert forall c :: BindsLast(events, c) ==> c == b;
      if Bound(run, messages, events, history).Ok? { assert Acceptable(run, messages, events, b); }
    } else {
      assert forall b :: !BindsLast(events, b);
    }
  }

  /** The scans of the log and of the messages. */
  method BoundCandidate(run: RunInfo, messages: seq<Message>, events: seq<Event>, history: string) returns (r: Result<Candidate, BindingError>)
    ensures r == Bound(run, messages, events, history)
    ensures r.Ok? <==> exists b :: Acceptable(run, messages, events, b)
    ensures r == Err(NoCandidate) <==> forall i :: 0 <= i < |events| ==> !events[i].Receipt?
    ensures forall b :: Acceptable(run, messages, events, b) ==>
      r == Ok(Candidate(if events[b].question.Some? then events[b].question.value else history, messages[events[b].message.value].content))
  {
    BoundExactly(run, messages, events, history);
    hide Acceptable;
    var bindingIndex, hasReceipt := -1, false;
    for i := 0 to |events|
      invariant -1 <= bindingIndex < i
      invariant LastPrimary(events[..i]) == if bindingIndex < 0 then None else Some(bindingIndex)
      invariant hasReceipt <==> HasReceipt(events[..i])
    {
      assert events[..i + 1][..i] == events[..i] && events[..i + 1][i] == events[i];
      ReceiptGrows(events, i);
      if events[i].Receipt? {
        hasReceipt := true;
        if events[i].primary { bindingIndex := i; }
      }
    }
    assert events[..|events|] == events;
    if bindingIndex < 0 { return Err(if hasReceipt then InvalidCandidate else NoCandidate); }
    LastPrimaryIs(events);
    var binding := events[bindingIndex];
    if binding.message.None? { return Err(InvalidCandidate); }
    for i := bindingIndex to |events|
      invariant forall k :: bindingIndex <= k < i && events[k].Receipt? ==>
        events[k].run == run.id && events[k].conversation == run.conversation && events[k].message == binding.message
    {
      var item := events[i];
      if item.Receipt? && (item.message.None? || item.run != run.id || item.conversation != run.conversation || item.message != binding.message) {
        return Err(InvalidCandidate);
      }
    }
    if !Binds(run, binding) || binding.message.value >= |messages| { return Err(InvalidCandidate); }
    var message := messages[binding.message.value];
    if !IsAnswer(run, message, binding.message.value, binding) { return Err(InvalidCandidate); }
    return Ok(Candidate(if binding.question.Some? then binding.question.value else history, message.content));
  }

  lemma ReceiptGrows(events: seq<Event>, i: nat)
    requires i < |events|
    ensures HasReceipt(events[..i + 1]) <==> HasReceipt(events[..i]) || events[i].Receipt?
  {
    var shorter, longer := events[..i], events[..i + 1];
    assert longer[i] == events[i] && forall k :: 0 <= k < i ==> longer[k] == shorter[k];
    if HasReceipt(shorter) {
      var k :| 0 <= k < i && shorter[k].Receipt?;
      assert longer[k].Receipt?;
    }
  }

  // ---------------------------------------------------------------------------------------------
  // Completing
  // ---------------------------------------------------------------------------------------------

  /** What the call whose message this is would have the receipt say. */
  function ReceiptOf(run: RunInfo, call: Call, message: nat, primary: bool): Event {
    if primary && run.contracted then
      Receipt(true, run.id, run.conversation, Some(message), Some(call.question), Some(Digest(run.id, message, call.question, call.output)))
    else Receipt(primary, run.id, run.conversation, Some(message), None, None)
  }

  /** Whose completion each message is, where it is one. */
  type Calls = seq<Option<Call>>

  /** Every receipt is of a call, whose message holds its output; with a contract, a web receipt follows its call's own. */
  ghost predicate Traced(run: RunInfo, messages: seq<Message>, events: seq<Event>, calls: Calls) {
    && |calls| == |messages|
    && (forall m :: 0 <= m < |messages| && calls[m].Some? ==> messages[m] == Message(true, run.conversation, run.workspace, calls[m].value.output))
    && (forall i :: 0 <= i < |events| && events[i].Receipt? ==> IsReceipt(run, events, calls, i))
  }

  ghost predicate IsReceipt(run: RunInfo, events: seq<Event>, calls: Calls, i: nat)
    requires i < |events| && events[i].Receipt?
  {
    && events[i].message.Some? && events[i].message.value < |calls| && calls[events[i].message.value].Some?
    && events[i] == ReceiptOf(run, calls[events[i].message.value].value, events[i].message.value, events[i].primary)
    && (!events[i].primary && run.contracted ==> LastPrimary(events[..i]).Some? && FollowsItsOwn(events, i))
  }

  ghost predicate FollowsItsOwn(events: seq<Event>, i: nat)
    requires i < |events| && events[i].Receipt?
  {
    var last := LastPrimary(events[..i]);
    last.Some? ==> last.value < i && events[last.value].Receipt? && events[last.value].message == events[i].message
  }

  function CandidateOf(run: RunInfo, call: Call, history: string): Result<Candidate, BindingError> {
    if TrimSpace(call.output) == "" then Err(InvalidCandidate)
    else Ok(Candidate(if run.contracted then call.question else history, call.output))
  }

  /** Whether the k-th write from now fails; one that is not listed succeeds. */
  predicate Fails(outages: seq<bool>, k: nat) { k < |outages| && outages[k] }

  class CompletionStore {
    const run: RunInfo
    var messages: seq<Message>
    var events: seq<Event>
    var outages: seq<bool>
    ghost var calls: Calls

    ghost predicate Valid()
      reads this
    {
      Traced(run, messages, events, calls)
    }

    constructor (run: RunInfo, outages: seq<bool>)
      ensures Valid() && this.run == run && messages == [] && events == [] && this.outages == outages
    {
      this.run, messages, events, this.outages, calls := run, [], [], outages, [];
    }

    method NextFails() returns (failed: bool)
      modifies this`outages
      ensures failed == Fails(old(outages), 0) && forall k: nat :: Fails(outages, k) == Fails(old(outages), k + 1)
    {
      failed := outages != [] && outages[0];
      outages := if outages == [] then [] else outages[1..];
    }

    /** A message of the conversation that is no completion of this run. */
    method AddMessage(m: Message)
      requires Valid()
      modifies this
      ensures Valid() && events == old(events) && messages == old(messages) + [m]
    {
      MessageKeepsTrace(run, messages, events, calls, m, None);
      messages := messages + [m];
      calls := calls + [None];
    }

    /** Any event but a receipt. */
    method AddEvent()
      requires Valid()
      modifies this
      ensures Valid() && messages == old(messages) && events == old(events) + [OtherEvent]
    {
      EventKeepsTrace(run, messages, events, calls, OtherEvent);
      events := events + [OtherEvent];
    }

    /**
      Complete, up to the gate: its answer, its receipt, and, if there were web sources, their receipt, whose
      failure nobody notices. Cut before its receipt it leaves the candidate of before, and after it, its own. A run
      without a contract goes on when its receipt fails; a web receipt astray then leaves no valid candidate.
     */
    method Complete(call: Call, history: string) returns (bound: bool, astray: bool)
      requires Valid()
      modifies this
      ensures Valid()
      ensures bound <==> !Fails(old(outages), 0) && !Fails(old(outages), 1)
      ensures astray <==> !run.contracted && call.web && !Fails(old(outages), 0) && Fails(old(outages), 1) && !Fails(old(outages), 2)
      ensures !bound && !astray ==> events == old(events) && Bound(run, messages, events, history) == Bound(run, old(messages), old(events), history)
      ensures bound && TrimSpace(call.output) == "" ==> Bound(run, messages, events, history) == Err(InvalidCandidate)
      ensures bound && TrimSpace(call.output) != "" ==>
        Bound(run, messages, events, history) == Ok(Candidate(if run.contracted then call.question else history, call.output))
      ensures astray ==> Bound(run, messages, events, history) == Err(InvalidCandidate)
    {
      ghost var was := messages;
      var failed := NextFails();
      if failed { return false, false; }
      var id, answer := |messages|, Message(true, run.conversation, run.workspace, call.output);
      MessageKeepsTrace(run, messages, events, calls, answer, Some(call));
      messages := messages + [answer];
      calls := calls + [Some(call)];
      SameBound(run, was, messages, events, calls, history);
      failed := NextFails();
      if failed && run.contracted { return false, false; }
      bound, astray := !failed, false;
      if bound {
        PrimaryKeepsTrace(run, messages, events, calls, call, id);
        events := events + [ReceiptOf(run, call, id, true)];
        PrimaryBinds(run, messages, events, calls, history, id, call);
      }
      if call.web {
        failed := NextFails();
        if !failed {
          astray := !bound;
          WebKeepsTrace(run, messages, events, calls, call, id);
          if astray { AstrayIsInvalid(run, was, events, calls, history, id, call); }
          events := events + [ReceiptOf(run, call, id, false)];
          if bound { WebBinds(run, messages, events, calls, history, id, call); }
        }
      }
    }
  }

  lemma MessageKeepsTrace(run: RunInfo, messages: seq<Message>, events: seq<Event>, calls: Calls, m: Message, call: Option<Call>)
    requires Traced(run, messages, events, calls)
    requires call.Some? ==> m == Message(true, run.conversation, run.workspace, call.value.output)
    ensures Traced(run, messages + [m], events, calls + [call])
  {
    forall i | 0 <= i < |events| && events[i].Receipt? ensures IsReceipt(run, events, calls + [call], i) {
      assert IsReceipt(run, events, calls, i);
    }
  }

  lemma LastGrows(events: seq<Event>, e: Event)
    ensures LastPrimary(events + [e]) == if IsPrimary(e) then Some(|events|) else LastPrimary(events)
  {
    assert (events + [e])[..|events|] == events;
  }

  /** An event after the others leaves them as they were. */
  lemma EarlierStay(run: RunInfo, events: seq<Event>, calls: Calls, e: Event, i: nat)
    requires i < |events| && events[i].Receipt? && IsReceipt(run, events, calls, i)
    ensures (events + [e])[i] == events[i] && IsReceipt(run, events + [e], calls, i)
  {
    assert (events + [e])[..i] == events[..i];
  }

  lemma EventKeepsTrace(run: RunInfo, messages: seq<Message>, events: seq<Event>, calls: Calls, e: Event)
    requires Traced(run, messages, events, calls) && (e.Receipt? ==> IsReceipt(run, events + [e], calls, |events|))
    ensures Traced(run, messages, events + [e], calls)
  {
    var longer := events + [e];
    hide IsReceipt;
    forall i | 0 <= i < |longer| && longer[i].Receipt? ensures IsReceipt(run, longer, calls, i) {
      if i < |events| { EarlierStay(run, events, calls, e, i); }
    }
  }

  lemma PrimaryKeepsTrace(run: RunInfo, messages: seq<Message>, events: seq<Event>, calls: Calls, call: Call, id: nat)
    requires Traced(run, messages, events, calls) && id < |calls| && calls[id] == Some(call)
    ensures Traced(run, messages, events + [ReceiptOf(run, call, id, true)], calls)
  {
    EventKeepsTrace(run, messages, events, calls, ReceiptOf(run, call, id, true));
  }

  lemma WebKeepsTrace(run: RunInfo, messages: seq<Message>, events: seq<Event>, calls: Calls, call: Call, id: nat)
    requires Traced(run, messages, events, calls) && id < |calls| && calls[id] == Some(call)
    requires run.contracted ==> events != [] && events[|events| - 1] == ReceiptOf(run, call, id, true)
    ensures Traced(run, messages, events + [ReceiptOf(run, call, id, false)], calls)
  {
    var e := ReceiptOf(run, call, id, false);
    assert (events + [e])[..|events|] == events;
    EventKeepsTrace(run, messages, events, calls, e);
  }

  /** In a traced log of a contracted run, what follows the last primary receipt is of the same message. */
  lemma TailIsOfOne(run: RunInfo, messages: seq<Message>, events: seq<Event>, calls: Calls)
    requires run.contracted && Traced(run, messages, events, calls) && LastPrimary(events).Some?
    ensures LastPrimary(events).value < |events| && events[LastPrimary(events).value].Receipt? && Consistent(run, events, LastPrimary(events).value)
  {
    LastPrimaryIs(events);
    var b := LastPrimary(events).value;
    assert IsReceipt(run, events, calls, b);
    forall i | b <= i < |events| && events[i].Receipt?
      ensures events[i].run == run.id && events[i].conversation == run.conversation && events[i].message == events[b].message
    {
      assert IsReceipt(run, events, calls, i);
      if i > b { LastBefore(events, b, i); }
    }
  }

  lemma {:induction false} LastBefore(events: seq<Event>, b: nat, i: nat)
    requires b < i <= |events| && IsPrimary(events[b]) && forall k :: b < k < i ==> !IsPrimary(events[k])
    ensures LastPrimary(events[..i]) == Some(b)
    decreases i
  {
    assert events[..i][..i - 1] == events[..i - 1];
    if b < i - 1 { LastBefore(events, b, i - 1); }
  }

  /** The call whose receipt is the last primary one; its candidate is the run's, unless a later receipt went astray. */
  lemma BoundCall(run: RunInfo, messages: seq<Message>, events: seq<Event>, calls: Calls, history: string) returns (m: nat)
    requires Traced(run, messages, events, calls) && LastPrimary(events).Some?
    ensures LastPrimary(events).value < |events| && events[LastPrimary(events).value].Receipt? && events[LastPrimary(events).value].message == Some(m)
    ensures m < |calls| && calls[m].Some? && (run.contracted ==> Consistent(run, events, LastPrimary(events).value))
    ensures Bound(run, messages, events, history)
      == if Consistent(run, events, LastPrimary(events).value) then CandidateOf(run, calls[m].value, history) else Err(InvalidCandidate)
  {
    if run.contracted { TailIsOfOne(run, messages, events, calls); }
    var b := LastPrimary(events).value;
    LastPrimaryIs(events);
    assert IsReceipt(run, events, calls, b);
    m := events[b].message.value;
  }

  lemma PrimaryBinds(run: RunInfo, messages: seq<Message>, events: seq<Event>, calls: Calls, history: string, id: nat, call: Call)
    requires Traced(run, messages, events, calls) && id < |calls| && calls[id] == Some(call)
    requires events != [] && events[|events| - 1] == ReceiptOf(run, call, id, true)
    ensures Bound(run, messages, events, history) == CandidateOf(run, call, history)
  {
    assert LastPrimary(events) == Some(|events| - 1);
    var m := BoundCall(run, messages, events, calls, history);
    hide Bound, Traced;
  }

  lemma WebBinds(run: RunInfo, messages: seq<Message>, events: seq<Event>, calls: Calls, history: string, id: nat, call: Call)
    requires Traced(run, messages, events, calls) && id < |calls| && calls[id] == Some(call) && |events| >= 2
    requires events[|events| - 1] == ReceiptOf(run, call, id, false) && events[|events| - 2] == ReceiptOf(run, call, id, true)
    ensures Bound(run, messages, events, history) == CandidateOf(run, call, history)
  {
    assert events[..|events| - 1][..|events| - 2] == events[..|events| - 2];
    assert LastPrimary(events) == Some(|events| - 2);
    var m := BoundCall(run, messages, events, calls, history);
    hide Bound, Traced;
  }

  /** A web receipt without its call's own leaves nothing to be bound. */
  lemma AstrayIsInvalid(run: RunInfo, was: seq<Message>, events: seq<Event>, calls: Calls, history: string, id: nat, call: Call)
    requires |calls| == |was| + 1 && id == |was| && Traced(run, was, events, calls[..id])
    ensures forall messages :: Bound(run, messages, events + [ReceiptOf(run, call, id, false)], history) == Err(InvalidCandidate)
  {
    var e := ReceiptOf(run, call, id, false);
    var longer := events + [e];
    LastGrows(events, e);
    LastPrimaryIs(longer);
    assert longer[|events|] == e;
    if LastPrimary(events).Some? {
      var b := LastPrimary(events).value;
      LastPrimaryIs(events);
      assert IsReceipt(run, events, calls[..id], b);
      assert longer[b] == events[b] && longer[b].message != e.message;
    }
  }

  /** A message more changes nothing of what is bound. */
  lemma SameBound(run: RunInfo, messages: seq<Message>, more: seq<Message>, events: seq<Event>, calls: Calls, history: string)
    requires |messages| + 1 == |more| && messages == more[..|messages|] && |calls| == |more|
    requires Traced(run, messages, events, calls[..|messages|]) && Traced(run, more, events, calls)
    ensures Bound(run, more, events, history) == Bound(run, messages, events, history)
  {
    if LastPrimary(events).Some? {
      var m := BoundCall(run, messages, events, calls[..|messages|], history);
      var n := BoundCall(run, more, events, calls, history);
      hide Bound, Traced;
    }
  }

  /** A receipt that is not of the last primary one's message. */
  ghost predicate Astray(run: RunInfo, events: seq<Event>) {
    LastPrimaryIs(events);
    match LastPrimary(events)
    case None => true
    case Some(b) => !Consistent(run, events, b)
  }

  /**
    After any series of completions, cut anywhere: there is no candidate exactly when no receipt was written; a
    candidate's output is that of one call, the last whose receipt was, and its question is that call's, or the
    conversation's own without a contract; and it is refused only when that output is blank, or, without a
    contract, when a web receipt went astray.
   */
  lemma OneCallsCandidate(run: RunInfo, messages: seq<Message>, events: seq<Event>, calls: Calls, history: string)
    requires Traced(run, messages, events, calls)
    ensures Bound(run, messages, events, history) == Err(NoCandidate) <==> !HasReceipt(events)
    ensures var b := Bound(run, messages, events, history);
      b.Ok? ==> exists m :: 0 <= m < |calls| && calls[m].Some? && CandidateOf(run, calls[m].value, history) == b
    ensures Bound(run, messages, events, history) == Err(InvalidCandidate) ==>
      (exists m :: 0 <= m < |calls| && calls[m].Some? && TrimSpace(calls[m].value.output) == "") || (!run.contracted && Astray(run, events))
  {
    LastPrimaryIs(events);
    if LastPrimary(events).Some? {
      var m := BoundCall(run, messages, events, calls, history);
    } else if run.contracted {
      forall i | 0 <= i < |events| ensures !events[i].Receipt? {
        NoneBefore(events, i);
        assert !IsPrimary(events[i]);
      }
    }
  }

  lemma {:induction false} NoneBefore(events: seq<Event>, i: nat)
    requires i <= |events| && forall k :: 0 <= k < |events| ==> !IsPrimary(events[k])
    ensures LastPrimary(events[..i]).None?
    decreases i
  {
    if i > 0 {
      assert events[..i][..i - 1] == events[..i - 1];
      NoneBefore(events, i - 1);
    }
  }
}
