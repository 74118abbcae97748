/**
  The usage ledger of a run, rebuilt from its log each time: a reservation counts until its settlement replaces
  it. The totals are shown to be the exact sums, with wrapped counters and a saturated cost, whatever order the
  log or its operations are visited in.
 */
module Ledger {
  import opened Results
  import opened Costs

  datatype Kind = ModelReservation | ModelSettlement | ToolExecution | OtherKind(name: string)
  {
    predicate Counts() { !OtherKind? }
  }

  /** `note` stands for the fields the ledger never looks at: purpose, model, tool, stage and turn. */
  datatype Entry = Entry(
    id: string, operation: string, kind: Kind, modelCalls: int, toolCalls: int, prompt: int, completion: int, total: int,
    cost: int, details: Option<CostDetails>, timestamp: int, note: string)

  /** What is used; exact sums and stored totals alike. */
  datatype Sums = Sums(modelCalls: int, toolCalls: int, prompt: int, completion: int, total: int, cost: int, open: int, unknown: int)

  datatype UsageLedger = UsageLedger(totals: Sums, entries: seq<Entry>, updatedAt: Option<int>)

  const ZERO := Sums(0, 0, 0, 0, 0, 0, 0, 0)

  function Plus(a: Sums, b: Sums): Sums {
    Sums(a.modelCalls + b.modelCalls, a.toolCalls + b.toolCalls, a.prompt + b.prompt, a.completion + b.completion,
         a.total + b.total, a.cost + b.cost, a.open + b.open, a.unknown + b.unknown)
  }

  function Minus(a: Sums, b: Sums): Sums {
    Sums(a.modelCalls - b.modelCalls, a.toolCalls - b.toolCalls, a.prompt - b.prompt, a.completion - b.completion,
         a.total - b.total, a.cost - b.cost, a.open - b.open, a.unknown - b.unknown)
  }

  predicate CostUnknown(e: Entry) {
    e.modelCalls > 0 && ((e.details.Some? && e.details.value.unknown) || (e.details.None? && e.cost == 0))
  }

  /** What one entry adds, exactly. */
  function Amount(e: Entry): Sums {
    Sums(e.modelCalls, e.toolCalls, e.prompt, e.completion, e.total, e.cost, 0, if CostUnknown(e) then 1 else 0)
  }

  /** A call's cost is unknown if its details say so, and a call without details if it cost nothing; a tool's never is. */
  lemma UnknownExactly(e: Entry)
    ensures Amount(e).unknown == 1 <==>
      e.modelCalls > 0 && if e.details.Some? then e.details.value.unknown else e.cost == 0
    ensures Amount(e).unknown == 0 || Amount(e).unknown == 1
  {
  }

  const OPEN := Sums(0, 0, 0, 0, 0, 0, 1, 0)

  /** addEntry, in 64-bit counters. */
  function AddEntry(t: Sums, e: Entry): Sums {
    Sums(Wrap(t.modelCalls + e.modelCalls), Wrap(t.toolCalls + e.toolCalls), Wrap(t.prompt + e.prompt),
         Wrap(t.completion + e.completion), Wrap(t.total + e.total), AddCost(t.cost, e.cost), t.open,
         if CostUnknown(e) then Wrap(t.unknown + 1) else t.unknown)
  }

  function CountOpen(t: Sums): Sums { t.(open := Wrap(t.open + 1)) }

  /** Exact sums as 64-bit totals. */
  function Stored(s: Sums): Sums {
    Sums(Wrap(s.modelCalls), Wrap(s.toolCalls), Wrap(s.prompt), Wrap(s.completion), Wrap(s.total), Saturated(s.cost), Wrap(s.open), Wrap(s.unknown))
  }

  lemma WrapAdds(a: int, b: int)
    ensures Wrap(Wrap(a) + b) == Wrap(a + b)
  {
  }

  lemma StoredAdds(s: Sums, e: Entry)
    requires s.cost >= 0 && IsCost(e.cost)
    ensures AddEntry(Stored(s), e) == Stored(Plus(s, Amount(e)))
    ensures CountOpen(Stored(s)) == Stored(Plus(s, OPEN))
  {
    hide Wrap, AddCost;
    WrapAdds(s.modelCalls, e.modelCalls);
    WrapAdds(s.toolCalls, e.toolCalls);
    WrapAdds(s.prompt, e.prompt);
    WrapAdds(s.completion, e.completion);
    WrapAdds(s.total, e.total);
    WrapAdds(s.open, 1);
    WrapAdds(s.unknown, 1);
    AddCostIs(Saturated(s.cost), e.cost);
  }

  // ---------------------------------------------------------------------------------------------
  // Exact sums
  // ---------------------------------------------------------------------------------------------

  ghost function SumOver(m: map<string, Sums>): Sums
    decreases |m|
  {
    if m == map[] then ZERO else var k :| k in m; Plus(m[k], SumOver(m - {k}))
  }

  lemma {:induction false} SumWithout(m: map<string, Sums>, k: string)
    requires k in m
    ensures SumOver(m) == Plus(m[k], SumOver(m - {k}))
    decreases |m|
  {
    var first :| first in m && SumOver(m) == Plus(m[first], SumOver(m - {first}));
    if first != k {
      SumWithout(m - {first}, k);
      SumWithout(m - {k}, first);
      var rest := m - {first} - {k};
      assert rest == m - {k} - {first};
      PlusSwaps(m[first], m[k], SumOver(rest));
    }
  }

  lemma PlusSwaps(a: Sums, b: Sums, c: Sums)
    ensures Plus(a, Plus(b, c)) == Plus(b, Plus(a, c))
    ensures Plus(Plus(a, b), c) == Plus(a, Plus(b, c)) && Plus(a, b) == Plus(b, a)
  {
  }

  lemma SumWith(m: map<string, Sums>, k: string, x: Sums)
    requires k !in m
    ensures SumOver(m[k := x]) == Plus(x, SumOver(m))
  {
    SumWithout(m[k := x], k);
    assert m[k := x] - {k} == m;
  }

  /** The entries of a kind by operation; of duplicates, the last. */
  function Latest(entries: seq<Entry>, kind: Kind): map<string, Entry>
    decreases |entries|
  {
    if entries == [] then map[]
    else
      var earlier, last := Latest(entries[..|entries| - 1], kind), entries[|entries| - 1];
      if last.kind == kind then earlier[last.operation := last] else earlier
  }

  function ToolSum(entries: seq<Entry>): Sums
    decreases |entries|
  {
    if entries == [] then ZERO
    else
      var earlier, last := ToolSum(entries[..|entries| - 1]), entries[|entries| - 1];
      if last.kind.ToolExecution? then Plus(earlier, Amount(last)) else earlier
  }

  /** What a model operation counts for: its settlement once there is one, its reservation until then. */
  function Counted(reservations: map<string, Entry>, settlements: map<string, Entry>, operation: string): Sums
    requires operation in reservations
  {
    if operation in settlements then Amount(settlements[operation]) else Plus(Amount(reservations[operation]), OPEN)
  }

  function Parts(reservations: map<string, Entry>, settlements: map<string, Entry>, operations: set<string>): map<string, Sums>
    requires operations <= reservations.Keys
  {
    map operation | operation in operations :: Counted(reservations, settlements, operation)
  }

  ghost function Exact(entries: seq<Entry>): Sums {
    var reservations, settlements := Latest(entries, ModelReservation), Latest(entries, ModelSettlement);
    Plus(ToolSum(entries), SumOver(Parts(reservations, settlements, reservations.Keys)))
  }

  predicate CostsAreCosts(entries: seq<Entry>) {
    forall i :: 0 <= i < |entries| ==> IsCost(entries[i].cost)
  }

  lemma {:induction false} LatestIsAnEntry(entries: seq<Entry>, kind: Kind, operation: string)
    ensures operation in Latest(entries, kind) <==> exists e :: e in entries && e.kind == kind && e.operation == operation
    ensures operation in Latest(entries, kind) ==>
      var e := Latest(entries, kind)[operation]; e in entries && e.kind == kind && e.operation == operation
    decreases |entries|
  {
    if entries != [] {
      var rest, last := entries[..|entries| - 1], entries[|entries| - 1];
      LatestIsAnEntry(rest, kind, operation);
      assert entries == rest + [last];
    }
  }

  lemma {:induction false} ToolCostIsPositive(entries: seq<Entry>)
    requires CostsAreCosts(entries)
    ensures ToolSum(entries).cost >= 0
    decreases |entries|
  {
    if entries != [] { ToolCostIsPositive(entries[..|entries| - 1]); }
  }

  lemma {:induction false} SumCostIsPositive(m: map<string, Sums>)
    requires forall k :: k in m ==> m[k].cost >= 0
    ensures SumOver(m).cost >= 0
    decreases |m|
  {
    if m != map[] {
      var k :| k in m;
      SumWithout(m, k);
      SumCostIsPositive(m - {k});
    }
  }

  function LatestTime(entries: seq<Entry>): Option<int>
    decreases |entries|
  {
    if entries == [] then None
    else
      var earlier, last := LatestTime(entries[..|entries| - 1]), entries[|entries| - 1];
      if earlier.None? || last.timestamp > earlier.value then Some(last.timestamp) else earlier
  }

  /** BuildLedger: the operations are visited in any order, and the totals are the exact sums all the same. */
  method BuildLedger(entries: seq<Entry>) returns (ledger: UsageLedger)
    ensures CostsAreCosts(entries) ==> ledger.totals == Stored(Exact(entries))
    ensures ledger.entries == entries && ledger.updatedAt == LatestTime(entries)
  {
    var reservations: map<string, Entry>, settlements: map<string, Entry> := map[], map[];
    var totals, updatedAt := ZERO, None;
    for i := 0 to |entries|
      invariant reservations == Latest(entries[..i], ModelReservation)
      invariant settlements == Latest(entries[..i], ModelSettlement)
      invariant CostsAreCosts(entries) ==> totals == Stored(ToolSum(entries[..i]))
      invariant updatedAt == LatestTime(entries[..i])
    {
      var entry := entries[i];
      assert entries[..i + 1][..i] == entries[..i] && entries[..i + 1][i] == entry;
      match entry.kind {
        case ModelReservation => reservations := reservations[entry.operation := entry];
        case ModelSettlement => settlements := settlements[entry.operation := entry];
        case ToolExecution =>
          if CostsAreCosts(entries) {
            ToolCostIsPositive(entries[..i]);
            StoredAdds(ToolSum(entries[..i]), entry);
          }
          totals := AddEntry(totals, entry);
        case OtherKind(_) =>
      }
      if updatedAt.None? || entry.timestamp > updatedAt.value { updatedAt := Some(entry.timestamp); }
    }
    assert entries[..|entries|] == entries;
    totals := AddOperations(entries, reservations, settlements, totals);
    return UsageLedger(totals, entries, updatedAt);
  }

  method AddOperations(ghost entries: seq<Entry>, reservations: map<string, Entry>, settlements: map<string, Entry>, tools: Sums)
    returns (totals: Sums)
    requires reservations == Latest(entries, ModelReservation) && settlements == Latest(entries, ModelSettlement)
    requires CostsAreCosts(entries) ==> tools == Stored(ToolSum(entries))
    ensures CostsAreCosts(entries) ==> totals == Stored(Exact(entries))
  {
    hide Wrap, AddCost, SumOver, Latest, ToolSum, Stored, AddEntry, CountOpen, Plus, Parts;
    totals := tools;
    NoParts(entries, reservations, settlements);
    var left := reservations.Keys;
    ghost var done: set<string> := {};
    while left != {}
      invariant left <= reservations.Keys && done == reservations.Keys - left
      invariant CostsAreCosts(entries) ==> totals == Stored(Plus(ToolSum(entries), SumOver(Parts(reservations, settlements, done))))
    {
      var operation :| operation in left;
      if CostsAreCosts(entries) { OneMoreOperation(entries, reservations, settlements, done, operation); }
      left := left - {operation};
      done := done + {operation};
      if operation in settlements {
        totals := AddEntry(totals, settlements[operation]);
      } else {
        totals := CountOpen(AddEntry(totals, reservations[operation]));
      }
    }
    assert done == reservations.Keys;
  }

  lemma NoParts(entries: seq<Entry>, reservations: map<string, Entry>, settlements: map<string, Entry>)
    ensures Plus(ToolSum(entries), SumOver(Parts(reservations, settlements, {}))) == ToolSum(entries)
  {
    assert Parts(reservations, settlements, {}) == map[];
  }

  lemma OneMoreOperation(entries: seq<Entry>, reservations: map<string, Entry>, settlements: map<string, Entry>, done: set<string>, operation: string)
    requires reservations == Latest(entries, ModelReservation) && settlements == Latest(entries, ModelSettlement)
    requires CostsAreCosts(entries) && done <= reservations.Keys && operation in reservations && operation !in done
    ensures var before := Stored(Plus(ToolSum(entries), SumOver(Parts(reservations, settlements, done))));
      Stored(Plus(ToolSum(entries), SumOver(Parts(reservations, settlements, done + {operation}))))
        == if operation in settlements then AddEntry(before, settlements[operation]) else CountOpen(AddEntry(before, reservations[operation]))
  {
    hide Wrap, AddCost, SumOver, Latest, ToolSum, Stored, AddEntry, CountOpen;
    var parts, tools := Parts(reservations, settlements, done), ToolSum(entries);
    var sum := SumOver(parts);
    PartsArePositive(entries, reservations, settlements, done);
    CountedCost(entries, operation);
    OneMorePart(reservations, settlements, done, operation);
    var s := Plus(tools, sum);
    var e := if operation in settlements then settlements[operation] else reservations[operation];
    assert s.cost >= 0 && Plus(s, Amount(e)).cost >= 0;
    hide Amount, Plus, Parts;
    StoredAdds(s, e);
    StoredAdds(Plus(s, Amount(e)), e);
    PlusSwaps(s, Amount(e), OPEN);
    PlusSwaps(tools, Counted(reservations, settlements, operation), sum);
    PlusSwaps(Counted(reservations, settlements, operation), tools, sum);
    PlusSwaps(s, Counted(reservations, settlements, operation), ZERO);
  }

  lemma OneMorePart(reservations: map<string, Entry>, settlements: map<string, Entry>, done: set<string>, operation: string)
    requires done <= reservations.Keys && operation in reservations && operation !in done
    ensures SumOver(Parts(reservations, settlements, done + {operation}))
      == Plus(Counted(reservations, settlements, operation), SumOver(Parts(reservations, settlements, done)))
  {
    var parts := Parts(reservations, settlements, done);
    assert Parts(reservations, settlements, done + {operation}) == parts[operation := Counted(reservations, settlements, operation)];
    SumWith(parts, operation, Counted(reservations, settlements, operation));
  }

  lemma PartsArePositive(entries: seq<Entry>, reservations: map<string, Entry>, settlements: map<string, Entry>, done: set<string>)
    requires reservations == Latest(entries, ModelReservation) && settlements == Latest(entries, ModelSettlement)
    requires CostsAreCosts(entries) && done <= reservations.Keys
    ensures ToolSum(entries).cost >= 0 && SumOver(Parts(reservations, settlements, done)).cost >= 0
  {
    var parts := Parts(reservations, settlements, done);
    forall k | k in parts ensures parts[k].cost >= 0 { CountedCost(entries, k); }
    SumCostIsPositive(parts);
    ToolCostIsPositive(entries);
  }

  lemma CountedCost(entries: seq<Entry>, operation: string)
    requires CostsAreCosts(entries) && operation in Latest(entries, ModelReservation)
    ensures IsCost(Latest(entries, ModelReservation)[operation].cost)
    ensures operation in Latest(entries, ModelSettlement) ==> IsCost(Latest(entries, ModelSettlement)[operation].cost)
  {
    LatestIsAnEntry(entries, ModelReservation, operation);
    LatestIsAnEntry(entries, ModelSettlement, operation);
  }
}
