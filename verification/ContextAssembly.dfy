/**
  Packing a model request: what is required goes in, and then history that was retrieved, recent history,
  memories and knowledge, each under its own cap and all under what the input budget leaves. The candidates are
  marked in place; the specifications say which marks that leaves, and what the totals of the manifest are.
 */
module ContextAssembly {
  import opened Results

  datatype Source = System | CurrentInput | Required | History | Memory | Knowledge | HistorySearch | Tool | Compaction | TaskState

  /** A candidate's manifest entry, with the text it would add and the reason it would be selected for. */
  datatype Candidate = Candidate(
    source: Source, reference: string, selected: bool, reason: string, tokens: int, originalBytes: int, includedBytes: int,
    formatted: nat, selectedReason: string)

  const DUPLICATE := "duplicate_project_guidance"
  const SUPERSEDED := "superseded_by_history_retrieval"
  const INPUT_EXCEEDED := "input_budget_exceeded"
  const RETRIEVAL_EXCEEDED := "history_retrieval_budget_exceeded"
  const MEMORY_EXCEEDED := "memory_budget_exceeded"
  const KNOWLEDGE_EXCEEDED := "knowledge_budget_exceeded"
  const HISTORY_EXCEEDED := "history_budget_exceeded"

  // ---------------------------------------------------------------------------------------------
  // Sums
  // ---------------------------------------------------------------------------------------------

  function SelectedTokens(items: seq<Candidate>): int
    decreases |items|
  {
    if items == [] then 0
    else SelectedTokens(items[..|items| - 1]) + (if items[|items| - 1].selected then items[|items| - 1].tokens else 0)
  }

  function AllTokens(items: seq<Candidate>): int
    decreases |items|
  {
    if items == [] then 0 else AllTokens(items[..|items| - 1]) + items[|items| - 1].tokens
  }

  lemma {:induction false} SumsAdd(x: seq<Candidate>, y: seq<Candidate>)
    ensures SelectedTokens(x + y) == SelectedTokens(x) + SelectedTokens(y)
    ensures AllTokens(x + y) == AllTokens(x) + AllTokens(y)
    decreases |y|
  {
    if y == [] {
      assert x + y == x;
    } else {
      var rest := y[..|y| - 1];
      assert (x + y)[..|x + y| - 1] == x + rest;
      SumsAdd(x, rest);
    }
  }

  /** One candidate marked differently. */
  lemma SumsChange(items: seq<Candidate>, i: nat, c: Candidate)
    requires i < |items|
    ensures SelectedTokens(items[i := c]) - (if c.selected then c.tokens else 0)
      == SelectedTokens(items) - (if items[i].selected then items[i].tokens else 0)
    ensures AllTokens(items[i := c]) - c.tokens == AllTokens(items) - items[i].tokens
  {
    var front, back := items[..i], items[i + 1..];
    assert items == front + [items[i]] + back;
    assert items[i := c] == front + [c] + back;
    SumsAdd(front + [items[i]], back);
    SumsAdd(front, [items[i]]);
    SumsAdd(front + [c], back);
    SumsAdd(front, [c]);
    OneSum(items[i]);
    OneSum(c);
  }

  lemma OneSum(c: Candidate)
    ensures SelectedTokens([c]) == (if c.selected then c.tokens else 0) && AllTokens([c]) == c.tokens
  {
    assert [c][..0] == [];
  }

  // ---------------------------------------------------------------------------------------------
  // Greedy selection
  // ---------------------------------------------------------------------------------------------

  /** What a source may still take, and what is said of a candidate its own budget keeps out. */
  datatype Room = Room(budget: int, remaining: int, reason: string)
  {
    predicate Allows(used: int, tokens: int) { used + tokens <= budget && tokens <= remaining - used }
  }

  predicate Untouched(a: Candidate, b: Candidate) {
    a.source == b.source && a.reference == b.reference && a.tokens == b.tokens && a.originalBytes == b.originalBytes && a.formatted == b.formatted
  }

  /** Whether a pass looks at a candidate at all. */
  predicate Eligible(c: Candidate, recent: bool) {
    c.tokens > 0 && (if recent then c.source.History? else c.reason != DUPLICATE)
  }

  /** What a pass took before it came to the candidate at `i`: from the front, or from the back when it prefers the recent. */
  function TakenBefore(before: seq<Candidate>, after: seq<Candidate>, recent: bool, i: nat): int
    requires i < |before| == |after|
  {
    if recent then SelectedTokens(after[i + 1..]) - SelectedTokens(before[i + 1..])
    else SelectedTokens(after[..i]) - SelectedTokens(before[..i])
  }

  /** A candidate marked in its turn, so much having been taken before it. */
  function Marked(c: Candidate, recent: bool, room: Room, taken: int): Candidate {
    if !Eligible(c, recent) then (if !recent && c.reason != DUPLICATE then c.(reason := "empty") else c)
    else if taken + c.tokens > room.budget then c.(reason := room.reason)
    else if c.tokens > room.remaining - taken then c.(reason := INPUT_EXCEEDED)
    else if recent then c.(selected := true, reason := "recent", includedBytes := c.originalBytes)
    else c.(selected := true, reason := if c.selectedReason == "" then "relevant" else c.selectedReason, includedBytes := c.formatted)
  }

  predicate ChosenAt(before: seq<Candidate>, after: seq<Candidate>, recent: bool, room: Room, i: nat)
    requires i < |before| == |after|
  {
    after[i] == Marked(before[i], recent, room, TakenBefore(before, after, recent, i))
  }

  /** Each candidate in its turn is taken exactly if it fits beside those taken before it, and marked accordingly. */
  predicate Greedy(before: seq<Candidate>, after: seq<Candidate>, recent: bool, room: Room) {
    |after| == |before| && forall i :: 0 <= i < |before| ==> ChosenAt(before, after, recent, room, i)
  }

  /**
    What a greedy pass leaves of candidates: it selects only eligible ones, uses what it selects, stays within
    both budgets, passes over an eligible candidate only when adding it to all that was selected would break one
    of them, and makes the greedy choice each time.
   */
  predicate Picked(before: seq<Candidate>, after: seq<Candidate>, recent: bool, room: Room, used: int) {
    && |after| == |before|
    && used >= 0 && SelectedTokens(after) == SelectedTokens(before) + used && AllTokens(after) == AllTokens(before)
    && (used > 0 ==> used <= room.budget && used <= room.remaining)
    && (forall i :: 0 <= i < |before| ==> Untouched(before[i], after[i]))
    && (forall i :: 0 <= i < |before| && after[i].selected ==> before[i].selected || Eligible(before[i], recent))
    && (forall i :: 0 <= i < |before| && before[i].selected ==> after[i].selected)
    && (forall i :: 0 <= i < |before| && Eligible(before[i], recent) && !after[i].selected ==> !room.Allows(used, before[i].tokens))
    && Greedy(before, after, recent, room)
  }

  /**
    What a candidate's mark says, so much having been taken before it. It is selected exactly if it fits both what
    its source may take and what is left of the input; if not, the reason names the source whenever the source's
    budget is what keeps it out, and the input only if that alone does.
   */
  ghost predicate Tells(a: Candidate, b: Candidate, recent: bool, room: Room, taken: int) {
    var looked := a.tokens > 0 && if recent then a.source.History? else a.reason != "duplicate_project_guidance";
    && Untouched(a, b)
    && (looked && !a.selected ==> (b.selected <==> taken + a.tokens <= room.budget && taken + a.tokens <= room.remaining))
    && (looked && taken + a.tokens > room.budget ==> b.reason == room.reason)
    && (looked && taken + a.tokens <= room.budget && taken + a.tokens > room.remaining ==> b.reason == "input_budget_exceeded")
    && (looked && !a.selected && b.selected ==>
          && b.includedBytes == (if recent then a.originalBytes else a.formatted)
          && b.reason == if recent then "recent" else if a.selectedReason == "" then "relevant" else a.selectedReason)
    && (looked && !b.selected ==> b.includedBytes == a.includedBytes)
    && (!looked ==> b.selected == a.selected && b.includedBytes == a.includedBytes)
    && (!looked && (recent || a.reason == "duplicate_project_guidance") ==> b == a)
    && (!looked && !recent && a.reason != "duplicate_project_guidance" ==> b.reason == "empty")
  }

  ghost predicate AllTell(before: seq<Candidate>, after: seq<Candidate>, recent: bool, room: Room) {
    |after| == |before| && forall i :: 0 <= i < |before| ==> Tells(before[i], after[i], recent, room, TakenBefore(before, after, recent, i))
  }

  lemma MarkTells(c: Candidate, recent: bool, room: Room, taken: int)
    ensures Tells(c, Marked(c, recent, room, taken), recent, room, taken)
  {
  }

  lemma GreedyTells(before: seq<Candidate>, after: seq<Candidate>, recent: bool, room: Room)
    requires Greedy(before, after, recent, room)
    ensures AllTell(before, after, recent, room)
  {
    hide Marked, Tells, TakenBefore;
    forall i | 0 <= i < |before| ensures Tells(before[i], after[i], recent, room, TakenBefore(before, after, recent, i)) {
      assert ChosenAt(before, after, recent, room, i);
      MarkTells(before[i], recent, room, TakenBefore(before, after, recent, i));
    }
  }

  /** Nothing of these is selected yet. */
  predicate Fresh(items: seq<Candidate>) {
    forall i :: 0 <= i < |items| ==> !items[i].selected
  }

  /** selectRelevant: in order of relevance, skipping what is too big for what is left. */
  method SelectRelevant(items: array<Candidate>, sourceBudget: int, remaining: int, sourceReason: string) returns (used: int)
    requires Fresh(items[..])
    modifies items
    ensures Picked(old(items[..]), items[..], false, Room(sourceBudget, remaining, sourceReason), used)
    ensures AllTell(old(items[..]), items[..], false, Room(sourceBudget, remaining, sourceReason))
  {
    hide AllTell;
    used := 0;
    ghost var before := items[..];
    for i := 0 to items.Length
      invariant PickedSoFar(before, items[..], false, Room(sourceBudget, remaining, sourceReason), used, 0, i)
      invariant GreedySoFar(before, items[..], false, Room(sourceBudget, remaining, sourceReason), 0, i)
    {
      var entry := items[i];
      ghost var was, spent := items[..], used;
      if entry.reason == DUPLICATE {
      } else if entry.tokens <= 0 {
        items[i] := entry.(reason := "empty");
      } else if used + entry.tokens > sourceBudget {
        items[i] := entry.(reason := sourceReason);
      } else if entry.tokens > remaining - used {
        items[i] := entry.(reason := INPUT_EXCEEDED);
      } else {
        items[i] := entry.(selected := true, reason := if entry.selectedReason == "" then "relevant" else entry.selectedReason, includedBytes := entry.formatted);
        used := used + entry.tokens;
      }
      assert items[..] == was[i := items[i]];
      OneMorePicked(before, was, items[..], false, Room(sourceBudget, remaining, sourceReason), spent, used, 0, i, i);
      OneMoreGreedy(before, was, items[..], false, Room(sourceBudget, remaining, sourceReason), spent, used, 0, i, i);
    }
    PassEnds(before, items[..], false, Room(sourceBudget, remaining, sourceReason), used);
    GreedyTells(before, items[..], false, Room(sourceBudget, remaining, sourceReason));
  }

  /** selectRecentHistory: from the latest back. */
  method SelectRecentHistory(items: array<Candidate>, sourceBudget: int, remaining: int) returns (used: int)
    requires forall i :: 0 <= i < items.Length && items[i].source.History? ==> !items[i].selected
    modifies items
    ensures Picked(old(items[..]), items[..], true, Room(sourceBudget, remaining, HISTORY_EXCEEDED), used)
    ensures AllTell(old(items[..]), items[..], true, Room(sourceBudget, remaining, "history_budget_exceeded"))
  {
    hide AllTell;
    used := 0;
    ghost var before := items[..];
    var i := items.Length;
    while i > 0
      invariant 0 <= i <= items.Length
      invariant PickedSoFar(before, items[..], true, Room(sourceBudget, remaining, HISTORY_EXCEEDED), used, i, items.Length)
      invariant GreedySoFar(before, items[..], true, Room(sourceBudget, remaining, HISTORY_EXCEEDED), i, items.Length)
    {
      i := i - 1;
      var entry := items[i];
      ghost var was, spent := items[..], used;
      if !entry.source.History? || entry.tokens <= 0 {
      } else if used + entry.tokens > sourceBudget {
        items[i] := entry.(reason := HISTORY_EXCEEDED);
      } else if entry.tokens > remaining - used {
        items[i] := entry.(reason := INPUT_EXCEEDED);
      } else {
        items[i] := entry.(selected := true, reason := "recent", includedBytes := entry.originalBytes);
        used := used + entry.tokens;
      }
      assert items[..] == was[i := items[i]];
      OneMorePicked(before, was, items[..], true, Room(sourceBudget, remaining, HISTORY_EXCEEDED), spent, used, i + 1, items.Length, i);
      OneMoreGreedy(before, was, items[..], true, Room(sourceBudget, remaining, HISTORY_EXCEEDED), spent, used, i + 1, items.Length, i);
    }
    PassEnds(before, items[..], true, Room(sourceBudget, remaining, HISTORY_EXCEEDED), used);
    GreedyTells(before, items[..], true, Room(sourceBudget, remaining, HISTORY_EXCEEDED));
  }

  /** A pass that has looked at the candidates from `low` up to `high`. */
  ghost predicate PickedSoFar(before: seq<Candidate>, now: seq<Candidate>, recent: bool, room: Room, used: int, low: nat, high: nat) {
    && |now| == |before| && low <= high <= |before|
    && used >= 0 && SelectedTokens(now) == SelectedTokens(before) + used && AllTokens(now) == AllTokens(before)
    && (used > 0 ==> used <= room.budget && used <= room.remaining)
    && (forall i :: 0 <= i < |before| ==> Untouched(before[i], now[i]) && StepIs(before[i], now[i], recent))
    && (forall i :: 0 <= i < |before| && !(low <= i < high) ==> now[i] == before[i])
    && (forall i :: low <= i < high && Eligible(before[i], recent) && !now[i].selected ==> !room.Allows(used, before[i].tokens))
  }

  /** A candidate before and after it was looked at. */
  predicate StepIs(a: Candidate, b: Candidate, recent: bool) {
    (a.selected ==> b.selected) && (b.selected ==> a.selected || Eligible(a, recent))
  }

  /** The candidate at `i` is looked at next, and passed over or selected. */
  predicate LooksAt(a: Candidate, b: Candidate, recent: bool, room: Room, used: int, more: int) {
    && Untouched(a, b)
    && if more == used then b.selected == a.selected && (Eligible(a, recent) && !b.selected ==> !room.Allows(used, a.tokens))
       else b.selected && !a.selected && Eligible(a, recent) && more == used + a.tokens && room.Allows(used, a.tokens)
  }

  lemma OneMorePicked(before: seq<Candidate>, was: seq<Candidate>, now: seq<Candidate>, recent: bool, room: Room, used: int, more: int, low: nat, high: nat, i: nat)
    requires PickedSoFar(before, was, recent, room, used, low, high) && i < |was| == |now| && now == was[i := now[i]]
    requires (i == high || i + 1 == low) && LooksAt(was[i], now[i], recent, room, used, more)
    ensures PickedSoFar(before, now, recent, room, more, if i < low then i else low, if i < low then high else i + 1)
  {
    SumsChange(was, i, now[i]);
    hide SelectedTokens, AllTokens;
    forall k | 0 <= k < |before| ensures Untouched(before[k], now[k]) && StepIs(before[k], now[k], recent) {
      assert Untouched(before[k], was[k]) && StepIs(before[k], was[k], recent);
    }
  }

  ghost predicate GreedySoFar(before: seq<Candidate>, now: seq<Candidate>, recent: bool, room: Room, low: nat, high: nat) {
    |now| == |before| && low <= high <= |before| && forall i :: low <= i < high ==> ChosenAt(before, now, recent, room, i)
  }

  /** What was taken so far is what was taken before the next candidate. */
  lemma UsedIsTaken(before: seq<Candidate>, was: seq<Candidate>, recent: bool, room: Room, used: int, low: nat, high: nat, i: nat)
    requires PickedSoFar(before, was, recent, room, used, low, high) && i < |was|
    requires if recent then i + 1 == low && high == |before| else i == high && low == 0
    ensures TakenBefore(before, was, recent, i) == used
  {
    hide SelectedTokens, AllTokens;
    var k := if recent then i + 1 else i;
    assert before == before[..k] + before[k..] && was == was[..k] + was[k..];
    SumsAdd(before[..k], before[k..]);
    SumsAdd(was[..k], was[k..]);
    assert if recent then was[..k] == before[..k] else was[k..] == before[k..];
  }

  lemma ChoiceStays(before: seq<Candidate>, was: seq<Candidate>, now: seq<Candidate>, recent: bool, room: Room, k: nat, i: nat)
    requires i < |was| && k < |was| && |before| == |was| == |now| && now == was[i := now[i]] && (if recent then i < k else k < i)
    ensures ChosenAt(before, now, recent, room, k) == ChosenAt(before, was, recent, room, k)
  {
    assert if recent then now[k + 1..] == was[k + 1..] else now[..k] == was[..k];
  }

  lemma OneMoreGreedy(before: seq<Candidate>, was: seq<Candidate>, now: seq<Candidate>, recent: bool, room: Room, used: int, more: int, low: nat, high: nat, i: nat)
    requires PickedSoFar(before, was, recent, room, used, low, high) && GreedySoFar(before, was, recent, room, low, high)
    requires i < |was| == |now| && now == was[i := now[i]] && LooksAt(was[i], now[i], recent, room, used, more)
    requires now[i] == Marked(was[i], recent, room, used)
    requires if recent then i + 1 == low && high == |before| else i == high && low == 0
    ensures GreedySoFar(before, now, recent, room, if i < low then i else low, if i < low then high else i + 1)
  {
    UsedIsTaken(before, was, recent, room, used, low, high, i);
    assert now[..i] == was[..i] && now[i + 1..] == was[i + 1..];
    assert was[i] == before[i];
    assert ChosenAt(before, now, recent, room, i);
    hide SelectedTokens, AllTokens, ChosenAt;
    forall k | low <= k < high ensures ChosenAt(before, now, recent, room, k) {
      ChoiceStays(before, was, now, recent, room, k, i);
    }
  }

  lemma {:induction false} SameFromTheFront(before: seq<Candidate>, a: seq<Candidate>, b: seq<Candidate>, room: Room, n: nat)
    requires n <= |before| && Greedy(before, a, false, room) && Greedy(before, b, false, room)
    ensures a[..n] == b[..n]
    decreases n
  {
    if n > 0 {
      SameFromTheFront(before, a, b, room, n - 1);
      assert ChosenAt(before, a, false, room, n - 1) && ChosenAt(before, b, false, room, n - 1);
      assert a[..n] == a[..n - 1] + [a[n - 1]] && b[..n] == b[..n - 1] + [b[n - 1]];
    }
  }

  lemma {:induction false} SameFromTheBack(before: seq<Candidate>, a: seq<Candidate>, b: seq<Candidate>, room: Room, n: nat)
    requires n <= |before| && Greedy(before, a, true, room) && Greedy(before, b, true, room)
    ensures a[n..] == b[n..]
    decreases |before| - n
  {
    if n < |before| {
      SameFromTheBack(before, a, b, room, n + 1);
      assert ChosenAt(before, a, true, room, n) && ChosenAt(before, b, true, room, n);
      assert a[n..] == [a[n]] + a[n + 1..] && b[n..] == [b[n]] + b[n + 1..];
    }
  }

  /** The greedy choices leave no freedom: two passes over the same candidates with the same room mark them the same. */
  lemma GreedyIsUnique(before: seq<Candidate>, a: seq<Candidate>, b: seq<Candidate>, recent: bool, room: Room)
    requires Greedy(before, a, recent, room) && Greedy(before, b, recent, room)
    ensures a == b
  {
    if recent {
      SameFromTheBack(before, a, b, room, 0);
    } else {
      SameFromTheFront(before, a, b, room, |before|);
      assert a[..|before|] == a && b[..|before|] == b;
    }
  }

  lemma PassEnds(before: seq<Candidate>, now: seq<Candidate>, recent: bool, room: Room, used: int)
    requires PickedSoFar(before, now, recent, room, used, 0, |before|) && GreedySoFar(before, now, recent, room, 0, |before|)
    ensures Picked(before, now, recent, room, used)
  {
    hide SelectedTokens, AllTokens, ChosenAt;
    forall i | 0 <= i < |before| ensures StepIs(before[i], now[i], recent) && Untouched(before[i], now[i]) {}
  }

  // ---------------------------------------------------------------------------------------------
  // No message twice
  // ---------------------------------------------------------------------------------------------

  const PREFIX := "message:"

  /** Whether a selected retrieval is of this message. */
  predicate Retrieves(c: Candidate, reference: string) {
    c.selected && c.reference == PREFIX + reference
  }

  predicate Retrieved(retrieved: seq<Candidate>, reference: string) {
    exists i :: 0 <= i < |retrieved| && Retrieves(retrieved[i], reference)
  }

  function SuppressedOne(c: Candidate, retrieved: seq<Candidate>): Candidate {
    if c.source.History? && Retrieved(retrieved, c.reference) then c.(reason := SUPERSEDED, tokens := 0) else c
  }

  function Suppressed(messages: seq<Candidate>, retrieved: seq<Candidate>): seq<Candidate> {
    seq(|messages|, i requires 0 <= i < |messages| => SuppressedOne(messages[i], retrieved))
  }

  /** suppressRetrievedHistoryDuplicates: a history message that was retrieved no longer counts, nor can it be selected. */
  method SuppressRetrievedDuplicates(messages: array<Candidate>, retrieved: array<Candidate>)
    requires messages != retrieved
    modifies messages
    ensures messages[..] == Suppressed(old(messages[..]), retrieved[..])
  {
    var selected: set<string> := {};
    for i := 0 to retrieved.Length
      invariant forall r :: r in selected <==> Retrieved(retrieved[..i], r)
      invariant messages[..] == old(messages[..])
    {
      var item := retrieved[i];
      assert retrieved[..i + 1] == retrieved[..i] + [item];
      RetrievedGrows(retrieved[..i], item);
      if item.selected && PREFIX <= item.reference {
        assert item.reference == PREFIX + item.reference[|PREFIX|..];
        selected := selected + {item.reference[|PREFIX|..]};
      }
    }
    assert retrieved[..retrieved.Length] == retrieved[..];
    for i := 0 to messages.Length
      invariant forall k :: i <= k < messages.Length ==> messages[k] == old(messages[k])
      invariant forall k :: 0 <= k < i ==> messages[k] == SuppressedOne(old(messages[k]), retrieved[..])
    {
      if messages[i].source.History? && messages[i].reference in selected {
        messages[i] := messages[i].(reason := SUPERSEDED, tokens := 0);
      }
    }
  }

  lemma RetrievedGrows(retrieved: seq<Candidate>, item: Candidate)
    ensures forall r :: Retrieved(retrieved + [item], r) <==> Retrieved(retrieved, r) || Retrieves(item, r)
    ensures forall r, q :: Retrieves(item, r) && Retrieves(item, q) ==> r == q
  {
    var longer := retrieved + [item];
    assert longer[|retrieved|] == item;
    forall r | Retrieved(retrieved, r) ensures Retrieved(longer, r) {
      var i :| 0 <= i < |retrieved| && Retrieves(retrieved[i], r);
      assert longer[i] == retrieved[i];
    }
    forall r, q | Retrieves(item, r) && Retrieves(item, q) ensures r == q {
      assert r == (PREFIX + r)[|PREFIX|..] && q == (PREFIX + q)[|PREFIX|..];
    }
  }

  /** No message is in twice, as recent history and as retrieved. */
  predicate NoneTwice(messages: seq<Candidate>, retrieved: seq<Candidate>) {
    forall i :: 0 <= i < |messages| && messages[i].source.History? && messages[i].selected ==> !Retrieved(retrieved, messages[i].reference)
  }

  lemma SuppressedAreNotPicked(messages: seq<Candidate>, after: seq<Candidate>, retrieved: seq<Candidate>, room: Room, used: int)
    requires HistoryIsOpen(messages) && Picked(Suppressed(messages, retrieved), after, true, room, used)
    ensures NoneTwice(after, retrieved)
  {
    var before := Suppressed(messages, retrieved);
    forall i | 0 <= i < |after| && after[i].source.History? && after[i].selected ensures !Retrieved(retrieved, after[i].reference) {
      assert Untouched(before[i], after[i]) && before[i] == SuppressedOne(messages[i], retrieved);
      assert Eligible(before[i], true);
    }
  }

  lemma {:induction false} SuppressionSelectsNothing(messages: seq<Candidate>, retrieved: seq<Candidate>)
    requires HistoryIsOpen(messages)
    ensures HistoryIsOpen(Suppressed(messages, retrieved))
    ensures SelectedTokens(Suppressed(messages, retrieved)) == SelectedTokens(messages)
    decreases |messages|
  {
    var s := Suppressed(messages, retrieved);
    if messages != [] {
      var rest := messages[..|messages| - 1];
      SuppressionSelectsNothing(rest, retrieved);
      assert s[..|s| - 1] == Suppressed(rest, retrieved);
    }
  }

  // ---------------------------------------------------------------------------------------------
  // Assembling
  // ---------------------------------------------------------------------------------------------

  datatype Caps = Caps(historyRetrieval: int, history: int, memory: int, knowledge: int)

  datatype Manifest = Manifest(estimatedInput: int, excluded: int, entries: seq<Candidate>)

  datatype BudgetError = InputBudgetError(required: int, available: int)

  /** History is never required. */
  predicate HistoryIsOpen(messages: seq<Candidate>) {
    forall i :: 0 <= i < |messages| && messages[i].source.History? ==> !messages[i].selected
  }

  /** What a source took, and that it took all it could: nothing it passed over fits its cap and what is left at the end. */
  predicate Packed(before: seq<Candidate>, after: seq<Candidate>, recent: bool, cap: int, left: int) {
    var used := SelectedTokens(after) - SelectedTokens(before);
    && |after| == |before| && used >= 0 && (used > 0 ==> used <= cap)
    && (forall i :: 0 <= i < |before| ==> Untouched(before[i], after[i]))
    && (forall i :: 0 <= i < |before| && after[i].selected && !before[i].selected ==> Eligible(before[i], recent))
    && (forall i :: 0 <= i < |before| && before[i].selected ==> after[i].selected)
    && (forall i :: 0 <= i < |before| && Eligible(before[i], recent) && !after[i].selected ==> used + before[i].tokens > cap || before[i].tokens > left)
  }

  lemma PickedIsPacked(before: seq<Candidate>, after: seq<Candidate>, recent: bool, room: Room, used: int, left: int)
    requires Picked(before, after, recent, room, used) && left <= room.remaining - used
    ensures Packed(before, after, recent, room.budget, left)
  {
    hide SelectedTokens, AllTokens;
  }

  function Spent(before: seq<Candidate>, after: seq<Candidate>): int { SelectedTokens(after) - SelectedTokens(before) }

  /** The four passes, one after the other: each is greedy in the room the earlier ones left. */
  predicate InTurn(m: seq<Candidate>, messages: seq<Candidate>, r: seq<Candidate>, retrieved: seq<Candidate>, k: seq<Candidate>, memories: seq<Candidate>,
                   q: seq<Candidate>, knowledge: seq<Candidate>, caps: Caps, remaining: int)
  {
    var s := Suppressed(m, retrieved);
    && Greedy(r, retrieved, false, Room(caps.historyRetrieval, remaining, RETRIEVAL_EXCEEDED))
    && Greedy(s, messages, true, Room(caps.history, remaining - Spent(r, retrieved), HISTORY_EXCEEDED))
    && Greedy(k, memories, false, Room(caps.memory, remaining - Spent(r, retrieved) - Spent(s, messages), MEMORY_EXCEEDED))
    && Greedy(q, knowledge, false, Room(caps.knowledge, remaining - Spent(r, retrieved) - Spent(s, messages) - Spent(k, memories), KNOWLEDGE_EXCEEDED))
  }

  /** The four optional sources in their order, each under its cap and what is left. */
  method SelectOptional(messages: array<Candidate>, retrieved: array<Candidate>, memories: array<Candidate>, knowledge: array<Candidate>,
                        caps: Caps, inputBudget: int, required: int) returns (selected: int)
    requires messages != retrieved && messages != memories && messages != knowledge && retrieved != memories && retrieved != knowledge && memories != knowledge
    requires HistoryIsOpen(messages[..]) && Fresh(retrieved[..]) && Fresh(memories[..]) && Fresh(knowledge[..]) && required <= inputBudget
    modifies messages, retrieved, memories, knowledge
    ensures required <= selected <= inputBudget
    ensures selected - required == SelectedTokens(messages[..]) + SelectedTokens(retrieved[..]) + SelectedTokens(memories[..]) + SelectedTokens(knowledge[..])
      - SelectedTokens(old(messages[..])) - SelectedTokens(old(retrieved[..])) - SelectedTokens(old(memories[..])) - SelectedTokens(old(knowledge[..]))
    ensures Packed(old(retrieved[..]), retrieved[..], false, caps.historyRetrieval, inputBudget - selected)
    ensures Packed(Suppressed(old(messages[..]), retrieved[..]), messages[..], true, caps.history, inputBudget - selected)
    ensures Packed(old(memories[..]), memories[..], false, caps.memory, inputBudget - selected)
    ensures Packed(old(knowledge[..]), knowledge[..], false, caps.knowledge, inputBudget - selected)
    ensures NoneTwice(messages[..], retrieved[..])
    ensures InTurn(old(messages[..]), messages[..], old(retrieved[..]), retrieved[..], old(memories[..]), memories[..],
                   old(knowledge[..]), knowledge[..], caps, inputBudget - required)
  {
    hide SelectedTokens, AllTokens, Packed, Suppressed, NoneTwice, Picked, Greedy;
    ghost var m, r, k, q := messages[..], retrieved[..], memories[..], knowledge[..];
    var free := inputBudget - required;
    var a := SelectRelevant(retrieved, caps.historyRetrieval, free, RETRIEVAL_EXCEEDED);
    SuppressionSelectsNothing(m, retrieved[..]);
    SuppressRetrievedDuplicates(messages, retrieved);
    ghost var s := messages[..];
    var b := SelectRecentHistory(messages, caps.history, free - a);
    SuppressedAreNotPicked(m, messages[..], retrieved[..], Room(caps.history, free - a, HISTORY_EXCEEDED), b);
    var c := SelectRelevant(memories, caps.memory, free - a - b, MEMORY_EXCEEDED);
    var d := SelectRelevant(knowledge, caps.knowledge, free - a - b - c, KNOWLEDGE_EXCEEDED);
    selected := required + a + b + c + d;
    Spends(r, retrieved[..], false, Room(caps.historyRetrieval, free, RETRIEVAL_EXCEEDED), a);
    Spends(s, messages[..], true, Room(caps.history, free - a, HISTORY_EXCEEDED), b);
    Spends(k, memories[..], false, Room(caps.memory, free - a - b, MEMORY_EXCEEDED), c);
    Spends(q, knowledge[..], false, Room(caps.knowledge, free - a - b - c, KNOWLEDGE_EXCEEDED), d);
    ghost var left := free - a - b - c - d;
    PickedIsPacked(r, retrieved[..], false, Room(caps.historyRetrieval, free, RETRIEVAL_EXCEEDED), a, left);
    PickedIsPacked(s, messages[..], true, Room(caps.history, free - a, HISTORY_EXCEEDED), b, left);
    PickedIsPacked(k, memories[..], false, Room(caps.memory, free - a - b, MEMORY_EXCEEDED), c, left);
    PickedIsPacked(q, knowledge[..], false, Room(caps.knowledge, free - a - b - c, KNOWLEDGE_EXCEEDED), d, left);
  }

  lemma Spends(before: seq<Candidate>, after: seq<Candidate>, recent: bool, room: Room, used: int)
    requires Picked(before, after, recent, room, used)
    ensures 0 <= used && (used > 0 ==> used <= room.remaining) && SelectedTokens(after) == SelectedTokens(before) + used
    ensures Greedy(before, after, recent, room)
  {
    hide SelectedTokens, AllTokens, Greedy;
  }

  method CountSelected(items: seq<Candidate>) returns (tokens: int)
    ensures tokens == SelectedTokens(items)
  {
    tokens := 0;
    for i := 0 to |items|
      invariant tokens == SelectedTokens(items[..i])
    {
      assert items[..i + 1][..i] == items[..i];
      if items[i].selected { tokens := tokens + items[i].tokens; }
    }
    assert items[..|items|] == items;
  }

  /** excludeOptional */
  method ExcludeOptional(items: array<Candidate>, reason: string)
    modifies items
    ensures forall i :: 0 <= i < items.Length ==> items[i] == if old(items[i]).selected then old(items[i]) else old(items[i]).(reason := reason)
    ensures SelectedTokens(items[..]) == SelectedTokens(old(items[..]))
  {
    ghost var before := items[..];
    for i := 0 to items.Length
      invariant forall k :: 0 <= k < i ==> items[k] == if before[k].selected then before[k] else before[k].(reason := reason)
      invariant forall k :: i <= k < items.Length ==> items[k] == before[k]
      invariant SelectedTokens(items[..]) == SelectedTokens(before)
    {
      ghost var was := items[..];
      if !items[i].selected { items[i] := items[i].(reason := reason); }
      assert items[..] == was[i := items[i]];
      SumsChange(was, i, items[i]);
    }
  }

  /** newManifest: what is not selected is excluded, and the two are everything. */
  method NewManifest(selected: int, entries: seq<Candidate>) returns (manifest: Manifest)
    requires selected == SelectedTokens(entries)
    ensures manifest.entries == entries && manifest.estimatedInput == selected
    ensures manifest.estimatedInput + manifest.excluded == AllTokens(entries)
  {
    var excluded := 0;
    for i := 0 to |entries|
      invariant excluded == AllTokens(entries[..i]) - SelectedTokens(entries[..i])
    {
      assert entries[..i + 1][..i] == entries[..i];
      if !entries[i].selected { excluded := excluded + entries[i].tokens; }
    }
    assert entries[..|entries|] == entries;
    return Manifest(selected, excluded, entries);
  }

  function Optional(c: Option<Candidate>): seq<Candidate> {
    if c.Some? then [c.value] else []
  }

  predicate AllSelected(items: seq<Candidate>) {
    forall i :: 0 <= i < |items| ==> items[i].selected
  }

  /**
    Assemble, from the candidates on: the manifest accounts for every token, the request fits whenever what is
    required does, and then no source holds back anything that both its cap and the budget still had room for.
   */
  method Assemble(messages: array<Candidate>, tools: seq<Candidate>, memories: array<Candidate>, knowledge: array<Candidate>, retrieved: array<Candidate>,
                  diagnostics: seq<Candidate>, compaction: Option<Candidate>, taskState: Option<Candidate>, caps: Caps, inputBudget: int)
    returns (manifest: Manifest, error: Option<BudgetError>)
    requires messages != retrieved && messages != memories && messages != knowledge && retrieved != memories && retrieved != knowledge && memories != knowledge
    requires HistoryIsOpen(messages[..]) && Fresh(retrieved[..]) && Fresh(memories[..]) && Fresh(knowledge[..]) && Fresh(diagnostics)
    requires AllSelected(tools) && AllSelected(Optional(compaction)) && AllSelected(Optional(taskState))
    modifies messages, memories, knowledge, retrieved
    ensures manifest.entries == messages[..] + tools + memories[..] + knowledge[..] + retrieved[..] + diagnostics + Optional(compaction) + Optional(taskState)
    ensures manifest.estimatedInput + manifest.excluded == AllTokens(manifest.entries)
    ensures manifest.estimatedInput == SelectedTokens(manifest.entries)
    ensures var required := SelectedTokens(old(messages[..])) + SelectedTokens(tools) + SelectedTokens(Optional(compaction)) + SelectedTokens(Optional(taskState));
      && error == (if required > inputBudget then Some(InputBudgetError(required, inputBudget)) else None)
      && (error.Some? ==> manifest.estimatedInput == required)
    ensures error.None? ==>
      var left := inputBudget - manifest.estimatedInput;
      && left >= 0 && NoneTwice(messages[..], retrieved[..])
      && Packed(old(retrieved[..]), retrieved[..], false, caps.historyRetrieval, left)
      && Packed(Suppressed(old(messages[..]), retrieved[..]), messages[..], true, caps.history, left)
      && Packed(old(memories[..]), memories[..], false, caps.memory, left)
      && Packed(old(knowledge[..]), knowledge[..], false, caps.knowledge, left)
    ensures var required := SelectedTokens(old(messages[..])) + SelectedTokens(tools) + SelectedTokens(Optional(compaction)) + SelectedTokens(Optional(taskState));
      error.None? ==>
        InTurn(old(messages[..]), messages[..], old(retrieved[..]), retrieved[..], old(memories[..]), memories[..],
               old(knowledge[..]), knowledge[..], caps, inputBudget - required)
  {
    hide SelectedTokens, AllTokens, Packed, Suppressed, NoneTwice, InTurn;
    NothingSelected(retrieved[..]);
    NothingSelected(memories[..]);
    NothingSelected(knowledge[..]);
    NothingSelected(diagnostics);
    var m := CountSelected(messages[..]);
    var t := CountSelected(tools + Optional(compaction) + Optional(taskState));
    SumsAdd(tools + Optional(compaction), Optional(taskState));
    SumsAdd(tools, Optional(compaction));
    var required := m + t;
    var selected := required;
    if required <= inputBudget {
      selected := SelectOptional(messages, retrieved, memories, knowledge, caps, inputBudget, required);
      error := None;
    } else {
      ExcludeOptional(messages, INPUT_EXCEEDED);
      ExcludeOptional(retrieved, INPUT_EXCEEDED);
      ExcludeOptional(memories, INPUT_EXCEEDED);
      ExcludeOptional(knowledge, INPUT_EXCEEDED);
      error := Some(InputBudgetError(required, inputBudget));
    }
    var entries := messages[..] + tools + memories[..] + knowledge[..] + retrieved[..] + diagnostics + Optional(compaction) + Optional(taskState);
    EntriesSum(messages[..], tools, memories[..], knowledge[..], retrieved[..], diagnostics, Optional(compaction), Optional(taskState));
    manifest := NewManifest(selected, entries);
  }

  lemma {:induction false} NothingSelected(items: seq<Candidate>)
    requires Fresh(items)
    ensures SelectedTokens(items) == 0
    decreases |items|
  {
    if items != [] { NothingSelected(items[..|items| - 1]); }
  }

  lemma EntriesSum(a: seq<Candidate>, b: seq<Candidate>, c: seq<Candidate>, d: seq<Candidate>, e: seq<Candidate>, f: seq<Candidate>, g: seq<Candidate>, h: seq<Candidate>)
    ensures SelectedTokens(a + b + c + d + e + f + g + h) == SelectedTokens(a) + SelectedTokens(b) + SelectedTokens(c) + SelectedTokens(d)
      + SelectedTokens(e) + SelectedTokens(f) + SelectedTokens(g) + SelectedTokens(h)
  {
    hide SelectedTokens, AllTokens;
    SumsAdd(a, b);
    SumsAdd(a + b, c);
    SumsAdd(a + b + c, d);
    SumsAdd(a + b + c + d, e);
    SumsAdd(a + b + c + d + e, f);
    SumsAdd(a + b + c + d + e + f, g);
    SumsAdd(a + b + c + d + e + f + g, h);
  }
}
