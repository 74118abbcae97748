/**
  Several model calls of a run open at once. Each is quoted as if the others used their one reserved token, so
  calls that all keep to their quotes can exceed the budget together. What keeps it, exactly, is the cap quoted
  anew when a call is settled.
 */
module ConcurrentCalls {
  import opened Results
  import opened Costs
  import opened Ledger
  import opened UsageLog
  import opened Budget
  import opened UsageTracking

  /** A budget of completions only, and calls that cost nothing. */
  function CompletionsOnly(n: int): Limits { Limits(0, 0, n, 0, 0, 0, 0, 0) }

  const FREE := Price(0, 0, None)

  lemma QuoteOfCompletions(limits: Limits, n: int, price: Price, before: Sums)
    requires 2 <= n < MAX && limits == CompletionsOnly(n) && price == FREE && 0 <= before.completion < n
    ensures QuotedCap(limits, price, before, 0) == n - before.completion && Admitted(limits, price, before, 0)
  {
    CompletionRoomIs(limits, before, CallSums(price, 0, 1));
    hide UsageCost, Stored, Plus, CompletionRoom;
  }

  /** Two calls open at once: each settled within the cap it was quoted, together almost twice the budget. */
  lemma TwoOpenCallsOverrun(limits: Limits, n: int, price: Price, before: Sums)
    requires 2 <= n < MAX && limits == CompletionsOnly(n) && price == FREE && before == ZERO
    ensures var first, second := CallSums(price, 0, n), CallSums(price, 0, n - 1);
      && Admitted(limits, price, before, 0) && Admitted(limits, price, CallSums(price, 0, 1), 0)
      && QuotedCap(limits, price, before, 0) == n && QuotedCap(limits, price, CallSums(price, 0, 1), 0) == n - 1
      && !Within(limits, Plus(first, second))
  {
    hide UsageCost, QuotedCap, Admitted;
    QuoteOfCompletions(limits, n, price, before);
    QuoteOfCompletions(limits, n, price, CallSums(price, 0, 1));
  }

  // ---------------------------------------------------------------------------------------------
  // Settling one of many
  // ---------------------------------------------------------------------------------------------

  /** A reservation of the log that nothing has settled. */
  ghost predicate IsOpen(entries: seq<Entry>, e: Entry) {
    e in entries && e.kind.ModelReservation? && e.operation !in Latest(entries, ModelSettlement)
  }

  /** The settlement of an open reservation: its prompt, a completion, and nothing billed apart. */
  ghost predicate Settles(entries: seq<Entry>, e: Entry, s: Entry, price: Price) {
    && IsOpen(entries, e) && Is64(price.input) && Is64(price.output)
    && e == ReservationEntry(e.id, e.operation, price, e.prompt, e.timestamp, e.note)
    && s == SettlementEntry(s.id, e.operation, price, e.prompt, s.completion, 0, None, true, s.timestamp, s.note)
  }

  /** The cap quoted on the log as it is now. */
  ghost function CapNow(limits: Limits, entries: seq<Entry>, e: Entry, price: Price): int {
    Cap(PricedLimits(limits, price), Stored(Exact(entries)), e.prompt, Amount(e))
  }

  ghost predicate WithinCapNow(limits: Limits, entries: seq<Entry>, e: Entry, price: Price, c: int) {
    Limited(PricedLimits(limits, price)) ==> c <= CapNow(limits, entries, e, price)
  }

  /** What all the others use. */
  ghost function Others(entries: seq<Entry>, e: Entry): Sums {
    Minus(Exact(entries), Plus(Amount(e), OPEN))
  }

  lemma OpenIsLatest(entries: seq<Entry>, e: Entry)
    requires Recorded(entries) && IsOpen(entries, e)
    ensures e.operation in Latest(entries, ModelReservation) && Latest(entries, ModelReservation)[e.operation] == e
  {
    LatestIsAnEntry(entries, ModelReservation, e.operation);
    UniqueIsOne(entries, e, Latest(entries, ModelReservation)[e.operation]);
  }

  lemma OthersAreNotNegative(entries: seq<Entry>, e: Entry)
    requires Recorded(entries) && IsOpen(entries, e)
    ensures NotNegative(Others(entries, e)) && ValidEntry(e) && EntryIs64(e)
  {
    OpenIsLatest(entries, e);
    var r, s := Latest(entries, ModelReservation), Latest(entries, ModelSettlement);
    var parts := Parts(r, s, r.Keys);
    ToolsNotNegative(entries);
    forall k | k in parts ensures NotNegative(parts[k]) {
      LatestIsAnEntry(entries, ModelReservation, k);
      LatestIsAnEntry(entries, ModelSettlement, k);
    }
    assert parts[e.operation] == Plus(Amount(e), OPEN);
    var i :| 0 <= i < |entries| && entries[i] == e;
    hide Parts, Latest, ToolSum, Amount, WellFormed;
    SumWithout(parts, e.operation);
    PartsNotNegative(parts - {e.operation});
    OthersRest(ToolSum(entries), parts[e.operation], SumOver(parts - {e.operation}));
  }

  lemma OthersRest(tools: Sums, own: Sums, rest: Sums)
    requires NotNegative(tools) && NotNegative(rest)
    ensures NotNegative(Minus(Plus(tools, Plus(own, rest)), own))
  {
  }

  lemma OthersAndOwn(s: Sums, own: Sums)
    ensures Plus(Minus(s, Plus(own, OPEN)), Plus(own, OPEN)) == s
  {
  }

  lemma SettledIs(entries: seq<Entry>, e: Entry, s: Entry, price: Price)
    requires Recorded(entries) && Recorded(entries + [s]) && Settles(entries, e, s, price)
    ensures Exact(entries + [s]) == Plus(Others(entries, e), Amount(s)) && ValidEntry(s) && EntryIs64(s)
  {
    assert WellFormed(entries);
    hide Exact, Amount, Latest, Recorded, WellFormed;
    LastIsValid(entries, s);
    OpenIsLatest(entries, e);
    LogGrowsBy(entries, s);
  }

  /** Whether a settlement keeps the budget is a matter of its completion alone. */
  lemma FitsExactly(limits: Limits, price: Price, others: Sums, e: Entry, s: Entry)
    requires Within(limits, Plus(others, Plus(Amount(e), OPEN)))
    requires e.modelCalls == 1 && e.toolCalls == 0 && s.modelCalls == 1 && s.toolCalls == 0 && s.prompt == e.prompt
    requires s.total == e.prompt + s.completion && s.cost == UsageCost(price, e.prompt, s.completion, None, true)
    ensures Within(limits, Plus(others, Amount(s))) <==> Fits(limits, price, others, e.prompt, s.completion)
  {
    hide UsageCost;
  }

  /**
    Beside any number of open calls: a settlement keeps a run within its budget exactly when its completion is
    within the cap quoted anew on the log as it then is.
   */
  lemma SettlesExactly(limits: Limits, entries: seq<Entry>, e: Entry, s: Entry, price: Price)
    requires Are64(limits) && limits.cost < MAX && Recorded(entries) && Recorded(entries + [s])
    requires Within(limits, Exact(entries)) && Settles(entries, e, s, price)
    ensures Within(limits, Exact(entries + [s])) <==> WithinCapNow(limits, entries, e, price, s.completion)
  {
    hide Exact, Recorded, Latest, Stored, Cap, UsageCost, Wrap, Fits, Within, ValidEntry, EntryIs64;
    var others := Others(entries, e);
    OthersAreNotNegative(entries, e);
    SettledIs(entries, e, s, price);
    EntryFacts(e);
    EntryFacts(s);
    OthersAndOwn(Exact(entries), Amount(e));
    ReservationIs(price, e.prompt, e);
    SettlementSumsTo(price, e, s);
    FitsExactly(limits, price, others, e, s);
    OpenIsUnlimited(limits, others, Amount(e));
    hide Amount, Others, CallSums;
    CapSeesNoOpen(PricedLimits(limits, price), others, e.prompt, Amount(e));
    CapIsExact(limits, price, others, e.prompt, s.completion);
  }

  lemma EntryFacts(e: Entry)
    requires ValidEntry(e) && EntryIs64(e)
    ensures 0 <= e.prompt <= MAX && 0 <= e.completion <= MAX
  {
  }

  // ---------------------------------------------------------------------------------------------
  // Whole runs
  // ---------------------------------------------------------------------------------------------

  /** One entry: a reservation or tool call the check admits, or the settlement of any open call within the cap quoted anew. */
  ghost predicate Adds(limits: Limits, before: seq<Entry>, after: seq<Entry>) {
    Recorded(after) && exists e :: after == before + [e] && MayAdd(limits, before, e)
  }

  ghost predicate MayAdd(limits: Limits, before: seq<Entry>, e: Entry) {
    if e.kind.ModelSettlement? then exists r, price :: Settles(before, r, e, price) && WithinCapNow(limits, before, r, price, e.completion)
    else Admits(limits, Stored(Exact(before)), AddEntry(ZERO, e))
  }

  ghost predicate IsRun(limits: Limits, logs: seq<seq<Entry>>) {
    && logs != [] && logs[0] == []
    && forall i :: 0 <= i < |logs| - 1 ==> Adds(limits, logs[i], logs[i + 1])
  }

  lemma AddKeepsWithin(limits: Limits, before: seq<Entry>, after: seq<Entry>)
    requires Are64(limits) && limits.cost < MAX && Recorded(before) && Within(limits, Exact(before)) && Adds(limits, before, after)
    ensures Recorded(after) && Within(limits, Exact(after))
  {
    hide Exact, Recorded, Settles, WithinCapNow, Within, Admits;
    var e :| after == before + [e] && MayAdd(limits, before, e);
    if e.kind.ModelSettlement? {
      var r, price :| Settles(before, r, e, price) && WithinCapNow(limits, before, r, price, e.completion);
      SettlesExactly(limits, before, r, e, price);
    } else {
      AdmittedKeepsWithin(limits, before, e);
    }
  }

  /** With any number of calls open, settled in any order, a run that quotes anew before each settlement is always within its budget. */
  lemma {:induction false} RequotedRunStaysWithinBudget(limits: Limits, logs: seq<seq<Entry>>, n: nat)
    requires Are64(limits) && limits.cost < MAX && IsRun(limits, logs) && n < |logs|
    ensures Recorded(logs[n]) && Within(limits, Exact(logs[n]))
    decreases n
  {
    hide Exact, Recorded, Adds;
    if n == 0 {
      EmptyLog(logs[0]);
    } else {
      RequotedRunStaysWithinBudget(limits, logs, n - 1);
      assert Adds(limits, logs[n - 1], logs[n - 1 + 1]);
      AddKeepsWithin(limits, logs[n - 1], logs[n]);
    }
  }
}
