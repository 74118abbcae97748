/**
  The usage store and the tracker that drives it: what a run records of its model and tool calls, and that a run
  which makes one call at a time and keeps to the quoted caps never exceeds its budget.
 */
module UsageTracking {
  import opened Results
  import opened Text
  import opened Costs
  import opened Ledger
  import opened UsageLog
  import opened Budget

  datatype UsageError = InvalidEntry | Conflict | NoReservation | BudgetExceeded(row: Row) | BreakdownInvalid | RuntimeExceeded | ModelMismatch | RouteAbsent

  /** ValidateUsageEntry; the sum of prompt and completion is a 64-bit one. */
  predicate ValidEntry(e: Entry) {
    && TrimSpace(e.id) != "" && TrimSpace(e.operation) != ""
    && e.modelCalls >= 0 && e.toolCalls >= 0 && e.prompt >= 0 && e.completion >= 0 && e.total >= 0 && e.cost >= 0
    && match e.kind
       case ModelReservation | ModelSettlement => e.modelCalls == 1 && e.toolCalls == 0 && e.total >= Wrap(e.prompt + e.completion)
       case ToolExecution => e.toolCalls == 1 && e.modelCalls == 0 && e.prompt == 0 && e.completion == 0 && e.total == 0 && e.cost == 0
       case OtherKind(_) => false
  }

  predicate EntryIs64(e: Entry) {
    Is64(e.modelCalls) && Is64(e.toolCalls) && Is64(e.prompt) && Is64(e.completion) && Is64(e.total) && Is64(e.cost)
  }

  /** SameUsageEntry: the same but for when, and under which id, it was recorded. */
  predicate SameUsage(a: Entry, b: Entry) { a.(id := b.id, timestamp := b.timestamp) == b }

  /** What every log the store has built satisfies. */
  predicate Recorded(entries: seq<Entry>) {
    WellFormed(entries) && forall i :: 0 <= i < |entries| ==> ValidEntry(entries[i]) && EntryIs64(entries[i])
  }

  lemma RecordedCosts(entries: seq<Entry>)
    requires Recorded(entries)
    ensures CostsAreCosts(entries)
  {
  }

  lemma RecordedGrows(entries: seq<Entry>, e: Entry)
    requires Recorded(entries) && ValidEntry(e) && EntryIs64(e)
    requires forall x :: x in entries ==> !SameKey(x, e)
    requires e.kind == ModelSettlement ==> HasReservation(entries, e.operation)
    ensures Recorded(entries + [e])
  {
    var longer := entries + [e];
    OneMoreIsUnique(entries, e);
    ReservationSeen(entries, e);
    assert longer[|entries|] == e && forall k :: 0 <= k < |entries| ==> longer[k] == entries[k];
  }

  /** The entry, as recorded now or at an earlier time. */
  ghost predicate IsRecorded(entries: seq<Entry>, e: Entry) {
    exists x :: x in entries && SameUsage(x, e)
  }

  /** No entry of its operation and kind is in the way. */
  ghost predicate IsNew(entries: seq<Entry>, e: Entry) {
    forall x :: x in entries ==> !SameKey(x, e)
  }

  class UsageStore {
    const limits: Limits
    var entries: seq<Entry>

    ghost predicate Valid()
      reads this
    {
      Recorded(entries)
    }

    constructor (limits: Limits)
      ensures Valid() && this.limits == limits && entries == []
    {
      this.limits, entries := limits, [];
    }

    method FindEntry(e: Entry) returns (found: Option<Entry>)
      requires Valid()
      ensures found.None? <==> forall x :: x in entries ==> !SameKey(x, e)
      ensures found.Some? ==> found.value in entries && SameKey(found.value, e)
    {
      for i := 0 to |entries|
        invariant forall k :: 0 <= k < i ==> !SameKey(entries[k], e)
      {
        if SameKey(entries[i], e) { return Some(entries[i]); }
      }
      return None;
    }

    method ReservationFound(operation: string) returns (found: bool)
      ensures found <==> HasReservation(entries, operation)
    {
      for i := 0 to |entries|
        invariant forall k :: 0 <= k < i ==> !(entries[k].kind == ModelReservation && entries[k].operation == operation)
      {
        if entries[i].kind == ModelReservation && entries[i].operation == operation { return true; }
      }
      return false;
    }

    /**
      ApplyRunUsage: a reservation or tool entry is admitted exactly when the check passes on the totals so far,
      a settlement of a reservation always, even if it then exceeds the budget, and a repetition changes nothing.
     */
    method ApplyRunUsage(entry: Entry) returns (totals: Sums, applied: bool, error: Option<UsageError>)
      requires Valid() && EntryIs64(entry)
      modifies this
      ensures Valid() && entries == (if applied then old(entries) + [entry] else old(entries))
      ensures error == Some(InvalidEntry) <==> !ValidEntry(entry)
      ensures applied && error.Some? ==> entry.kind.ModelSettlement?
      ensures error.Some? ==> error.value.InvalidEntry? || error.value.Conflict? || error.value.NoReservation? || error.value.BudgetExceeded?
      ensures error != Some(InvalidEntry) ==> totals == Stored(Exact(entries))
      ensures ValidEntry(entry) && (exists x :: x in old(entries) && SameKey(x, entry)) ==>
        !applied && (error.None? || error == Some(Conflict))
      ensures error.None? ==> IsRecorded(entries, entry)
      ensures ValidEntry(entry) && !applied && error == Some(Conflict) ==> exists x :: x in old(entries) && SameKey(x, entry) && !SameUsage(x, entry)
      ensures ValidEntry(entry) && IsNew(old(entries), entry) ==>
        && (applied <==> if entry.kind.ModelSettlement? then HasReservation(old(entries), entry.operation)
                         else Admits(limits, Stored(Exact(old(entries))), AddEntry(ZERO, entry)))
        && (!applied ==> if entry.kind.ModelSettlement? then error == Some(NoReservation) else error.Some? && error.value.BudgetExceeded?)
        && (applied && error.Some? ==> entry.kind.ModelSettlement? && error.value.BudgetExceeded?)
        && (applied && entry.kind.ModelSettlement? ==> (error.None? <==> Admits(limits, ZERO, totals)))
    {
      hide Exact, Stored, ValidEntry, Recorded, AddEntry, HasReservation, Exceeded, SameKey, SameUsage;
      if !ValidEntry(entry) { return ZERO, false, Some(InvalidEntry); }
      RecordedCosts(entries);
      var ledger := BuildLedger(entries);
      var existing := FindEntry(entry);
      if existing.Some? {
        return ledger.totals, false, if SameUsage(existing.value, entry) then None else Some(Conflict);
      }
      if entry.kind.ModelSettlement? {
        var found := ReservationFound(entry.operation);
        if !found { return ledger.totals, false, Some(NoReservation); }
      } else {
        var exceeded := Check(limits, ledger.totals, AddEntry(ZERO, entry));
        if exceeded.Some? { return ledger.totals, false, Some(BudgetExceeded(exceeded.value)); }
      }
      totals, error := Append(entry);
      applied := true;
    }

    /** The insertion; a settlement that exceeds the budget is recorded and reported. */
    method Append(entry: Entry) returns (totals: Sums, error: Option<UsageError>)
      requires Valid() && EntryIs64(entry) && ValidEntry(entry) && IsNew(entries, entry)
      requires entry.kind.ModelSettlement? ==> HasReservation(entries, entry.operation)
      modifies this
      ensures Valid() && entries == old(entries) + [entry] && totals == Stored(Exact(entries)) && IsRecorded(entries, entry)
      ensures error.Some? ==> entry.kind.ModelSettlement? && error.value.BudgetExceeded?
      ensures entry.kind.ModelSettlement? ==> (error.None? <==> Admits(limits, ZERO, totals))
    {
      hide Exact, Stored, ValidEntry, Recorded, HasReservation, Exceeded, SameKey;
      RecordedGrows(entries, entry);
      entries := entries + [entry];
      assert entries[|entries| - 1] == entry && SameUsage(entry, entry);
      RecordedCosts(entries);
      var ledger := BuildLedger(entries);
      totals, error := ledger.totals, None;
      if entry.kind.ModelSettlement? {
        var exceeded := Check(limits, ZERO, totals);
        if exceeded.Some? { error := Some(BudgetExceeded(exceeded.value)); }
      }
    }
  }

  // ---------------------------------------------------------------------------------------------
  // The tracker
  // ---------------------------------------------------------------------------------------------

  datatype Reservation = Reservation(price: Price, operation: string, prompt: int, cap: int)

  /** What a model call reserves: its prompt, one token of completion, and their cost. */
  function ReservationEntry(id: string, operation: string, price: Price, prompt: int, timestamp: int, note: string): Entry {
    Entry(id, operation, ModelReservation, 1, 0, prompt, 1, Wrap(prompt + 1), UsageCost(price, prompt, 1, None, true),
          Some(Details(price, None, true)), timestamp, note)
  }

  /** What was used: absolute counters that take the reservation's place. */
  function SettlementEntry(id: string, operation: string, price: Price, prompt: int, completion: int, total: int, cached: Option<int>, estimated: bool, timestamp: int, note: string): Entry {
    var sum := Wrap(prompt + completion);
    Entry(id, operation, ModelSettlement, 1, 0, prompt, completion, Max(if total <= 0 then sum else total, sum),
          UsageCost(price, prompt, completion, cached, estimated), Some(Details(price, cached, estimated)), timestamp, note)
  }

  function ToolEntry(id: string, operation: string, timestamp: int, note: string): Entry {
    Entry(id, operation, ToolExecution, 0, 1, 0, 0, 0, 0, None, timestamp, note)
  }

  /** The log's entry for a reserved call: one call, its prompt, and a first token of completion, at its price. */
  ghost predicate Reserves(e: Entry, r: Reservation) {
    && e.kind.ModelReservation? && e.operation == r.operation && e.modelCalls == 1 && e.toolCalls == 0
    && e.prompt == r.prompt && e.completion == 1 && (r.prompt < MAX ==> e.total == r.prompt + 1)
    && e.cost == UsageCost(r.price, r.prompt, 1, None, true)
  }

  /**
    The log's entry for a settled call: what was used, negative counters as zero, in all the larger of the
    provider's total and the sum of the parts, unless the sum leaves 64 bits.
   */
  ghost predicate Settles(e: Entry, r: Reservation, prompt: int, completion: int, total: int, breakdown: Option<Breakdown>, estimated: bool) {
    && e.kind.ModelSettlement? && e.operation == r.operation && e.modelCalls == 1 && e.toolCalls == 0
    && e.prompt == (if prompt >= 0 then prompt else 0) && e.completion == (if completion >= 0 then completion else 0)
    && (e.prompt + e.completion <= MAX ==>
          e.total >= e.prompt + e.completion && e.total >= total && (e.total == e.prompt + e.completion || e.total == total))
    && (e.prompt + e.completion > MAX ==> if total > 0 then e.total == total else e.total < 0)
    && e.cost == UsageCost(r.price, e.prompt, e.completion, if breakdown.Some? then breakdown.value.cached else None, estimated)
  }

  lemma SettlementSettles(r: Reservation, id: string, prompt: int, completion: int, total: int, breakdown: Option<Breakdown>, estimated: bool, timestamp: int, note: string)
    requires Is64(prompt) && Is64(completion) && Is64(total)
    ensures Settles(SettlementEntry(id, r.operation, r.price, Max(0, prompt), Max(0, completion), total, CachedOf(breakdown), estimated, timestamp, note),
                    r, prompt, completion, total, breakdown, estimated)
  {
    hide UsageCost, Details;
  }

  /** A route of the run's frozen snapshot. */
  datatype Route = Route(id: string, model: string, pricing: Price)

  /** Rates that are all absent or zero are no proof of free use. */
  predicate IsQuoted(p: Price) { p.input > 0 || p.output > 0 || p.cached.Some? }

  function GlobalPricing(limits: Limits): Price { Price(limits.inputRate, limits.outputRate, None) }

  /** The first of the routes with this id. */
  function RouteOf(routes: seq<Route>, id: string): Option<Route> {
    if routes == [] then None else if routes[0].id == id then Some(routes[0]) else RouteOf(routes[1..], id)
  }

  /** What a call is priced at: its frozen route's rates if they are quoted, and the run's own otherwise. */
  function PriceFor(limits: Limits, routes: seq<Route>, routeID: string, model: string): Result<Price, UsageError> {
    if routeID == "" then Ok(GlobalPricing(limits))
    else
      match RouteOf(routes, routeID)
      case None => Err(RouteAbsent)
      case Some(route) =>
        if route.model != TrimSpace(model) then Err(ModelMismatch)
        else Ok(if IsQuoted(route.pricing) then route.pricing else GlobalPricing(limits))
  }

  /** The first route with this id is the i-th. */
  ghost predicate FirstRoute(routes: seq<Route>, id: string, i: int) {
    0 <= i < |routes| && routes[i].id == id && forall j :: 0 <= j < i ==> routes[j].id != id
  }

  /**
    A call without a route is priced at the run's own rates, and no cached rate is known. A call with a route
    must find it frozen in the run, for its model; rates that are all absent or zero fall back on the run's own.
   */
  ghost predicate IsPriced(limits: Limits, routes: seq<Route>, routeID: string, model: string, r: Result<Price, UsageError>) {
    var own := Price(limits.inputRate, limits.outputRate, None);
    && (routeID == "" ==> r == Ok(own))
    && (routeID != "" && (forall i :: 0 <= i < |routes| ==> routes[i].id != routeID) ==> r == Err(RouteAbsent))
    && forall i :: routeID != "" && FirstRoute(routes, routeID, i) ==>
        var rates := routes[i].pricing;
        r == if routes[i].model != TrimSpace(model) then Err(ModelMismatch)
             else if rates.input > 0 || rates.output > 0 || rates.cached.Some? then Ok(rates)
             else Ok(own)
  }

  lemma {:induction false} FindsFirst(routes: seq<Route>, id: string)
    ensures RouteOf(routes, id).None? <==> forall i :: 0 <= i < |routes| ==> routes[i].id != id
    ensures forall i :: FirstRoute(routes, id, i) ==> RouteOf(routes, id) == Some(routes[i])
  {
    if routes != [] {
      FindsFirst(routes[1..], id);
      assert forall i :: 0 < i < |routes| ==> routes[i] == routes[1..][i - 1];
      forall i | FirstRoute(routes, id, i) ensures RouteOf(routes, id) == Some(routes[i]) {
        if i > 0 { assert FirstRoute(routes[1..], id, i - 1); }
      }
    }
  }

  lemma PricedExactly(limits: Limits, routes: seq<Route>, routeID: string, model: string)
    ensures IsPriced(limits, routes, routeID, model, PriceFor(limits, routes, routeID, model))
  {
    FindsFirst(routes, routeID);
  }

  /** At the run's own price the limits of a call are the run's own limits. */
  lemma OwnPriceKeepsLimits(limits: Limits, routes: seq<Route>, routeID: string, model: string, r: Result<Price, UsageError>)
    requires IsPriced(limits, routes, routeID, model, r) && routeID == ""
    ensures r.Ok? && PricedLimits(limits, r.value) == limits
  {
  }

  predicate RoutesAre64(routes: seq<Route>) {
    forall i :: 0 <= i < |routes| ==> Is64(routes[i].pricing.input) && Is64(routes[i].pricing.output)
  }

  lemma {:induction false} PriceIs64(limits: Limits, routes: seq<Route>, routeID: string, model: string)
    requires Are64(limits) && RoutesAre64(routes)
    ensures PriceFor(limits, routes, routeID, model).Ok? ==>
      var price := PriceFor(limits, routes, routeID, model).value; Is64(price.input) && Is64(price.output)
    decreases |routes|
  {
    if routes != [] {
      assert forall i :: 0 <= i < |routes| - 1 ==> routes[1..][i] == routes[i + 1];
      PriceIs64(limits, routes[1..], routeID, model);
    }
  }

  /** A call's own operation id, or the one generated for it. */
  function Named(operation: string, generated: string): string {
    if TrimSpace(operation) == "" then generated else TrimSpace(operation)
  }

  /** How a provider breaks its usage down: counters that are part of the prompt and the completion. */
  datatype Breakdown = Breakdown(source: string, cached: Option<int>, reasoning: Option<int>)

  /** UsageBreakdown.Validate */
  predicate ValidBreakdown(b: Option<Breakdown>, prompt: int, completion: int) {
    b.None?
    || (b.value.source == "invalid_details" && b.value.cached.None? && b.value.reasoning.None?)
    || ((b.value.source == "openai_details" || b.value.source == "deepseek_cache")
        && (b.value.cached.Some? ==> 0 <= b.value.cached.value <= prompt)
        && (b.value.reasoning.Some? ==> 0 <= b.value.reasoning.value <= completion))
  }

  /** A counter that is part of a whole, or not reported. */
  predicate IsPart(part: Option<int>, whole: int) {
    part.None? || (0 <= part.value && part.value <= whole)
  }

  /** A breakdown is accepted from a known source with parts of what they are part of, or as invalid details without any. */
  lemma BreakdownExactly(b: Option<Breakdown>, prompt: int, completion: int)
    ensures ValidBreakdown(b, prompt, completion) <==>
      b.Some? ==>
        && (b.value.source == "openai_details" || b.value.source == "deepseek_cache" || b.value.source == "invalid_details")
        && IsPart(b.value.cached, prompt) && IsPart(b.value.reasoning, completion)
        && (b.value.source == "invalid_details" ==> b.value.cached.None? && b.value.reasoning.None?)
  {
  }

  /** An accepted call is billed for every token once: the uncached prompt, the cached prompt and the completion, each rounded up. */
  lemma BillAddsUp(price: Price, prompt: int, completion: int, b: Option<Breakdown>)
    requires ValidBreakdown(b, prompt, completion) && 0 <= prompt <= MAX && completion <= MAX
    requires price.input != 0 || price.output != 0 || price.cached.Some?
    ensures b.Some? && b.value.cached.Some? && price.cached.Some? ==>
      var cached := b.value.cached.value;
      UsageCost(price, prompt, completion, CachedOf(b), false)
        == Saturated(TokenCost(prompt - cached, price.input) + TokenCost(completion, price.output) + TokenCost(cached, price.cached.value))
    ensures b.None? || b.value.cached.None? || price.cached.None? ==>
      UsageCost(price, prompt, completion, CachedOf(b), false)
        == Saturated(TokenCost(prompt, price.input) + TokenCost(completion, price.output))
    ensures UsageCost(price, prompt, completion, CachedOf(b), true) == Saturated(TokenCost(prompt, price.input) + TokenCost(completion, price.output))
  {
    hide AddCost, TokenCost;
    BreakdownExactly(b, prompt, completion);
    var cached := CachedTokens(price, CachedOf(b), false);
    CostIsCost(prompt, price.input);
    CostIsCost(prompt - cached, price.input);
    CostIsCost(completion, price.output);
    AddCostIs(TokenCost(prompt, price.input), TokenCost(completion, price.output));
    AddCostIs(TokenCost(prompt - cached, price.input), TokenCost(completion, price.output));
    if cached > 0 {
      CostIsCost(cached, price.cached.value);
      AddCostIs(AddCost(TokenCost(prompt - cached, price.input), TokenCost(completion, price.output)), TokenCost(cached, price.cached.value));
    } else if price.cached.Some? {
      NothingCostsNothing(cached, price.cached.value);
    }
  }

  lemma NothingCostsNothing(tokens: int, rate: int)
    requires tokens <= 0
    ensures TokenCost(tokens, rate) == 0
  {
  }

  function CachedOf(b: Option<Breakdown>): Option<int> { if b.Some? then b.value.cached else None }

  class Tracker {
    const store: UsageStore
    const routes: seq<Route>

    constructor (store: UsageStore, routes: seq<Route>)
      ensures this.store == store && this.routes == routes
    {
      this.store, this.routes := store, routes;
    }

    method ModelPricing(routeID: string, model: string) returns (r: Result<Price, UsageError>)
      ensures r == PriceFor(store.limits, routes, routeID, model)
      ensures IsPriced(store.limits, routes, routeID, model, r)
    {
      PricedExactly(store.limits, routes, routeID, model);
      if routeID != "" {
        for i := 0 to |routes|
          invariant RouteOf(routes, routeID) == RouteOf(routes[i..], routeID)
        {
          assert routes[i..][1..] == routes[i + 1..];
          if routes[i].id == routeID {
            if routes[i].model != TrimSpace(model) { return Err(ModelMismatch); }
            return Ok(if IsQuoted(routes[i].pricing) then routes[i].pricing else GlobalPricing(store.limits));
          }
        }
        return Err(RouteAbsent);
      }
      return Ok(GlobalPricing(store.limits));
    }

    /**
      Reserves a model call at its route's price, under its own id or a generated one; the cap it quotes is exactly
      what the budget leaves beside everything else in the log.
     */
    method BeginModelCall(id: string, operation: string, generated: string, routeID: string, model: string, estimated: int, inTime: bool, timestamp: int, note: string)
      returns (r: Result<Reservation, UsageError>)
      requires store.Valid() && Are64(store.limits) && RoutesAre64(routes) && Is64(estimated)
      modifies store
      ensures store.Valid()
      ensures !inTime ==> r == Err(RuntimeExceeded)
      ensures inTime && PriceFor(store.limits, routes, routeID, model).Err? ==> r == Err(PriceFor(store.limits, routes, routeID, model).error)
      ensures r.Err? ==> store.entries == old(store.entries)
      ensures PriceFor(store.limits, routes, routeID, model).Ok? ==>
        var price, named := PriceFor(store.limits, routes, routeID, model).value, Named(operation, generated);
        var e := ReservationEntry(id, named, price, Max(0, estimated), timestamp, note);
        && (store.entries == old(store.entries) || store.entries == old(store.entries) + [e])
        && (inTime && ValidEntry(e) && IsNew(old(store.entries), e) ==> (r.Ok? <==> Admits(store.limits, Stored(Exact(old(store.entries))), AddEntry(ZERO, e))))
        && (r.Ok? ==> IsRecorded(store.entries, e) && r.value.operation == named && r.value.prompt == Max(0, estimated) && r.value.price == price)
        && (r.Ok? && store.entries != old(store.entries) && store.limits.cost < MAX && Within(store.limits, Exact(old(store.entries))) ==>
              QuotesExactly(store.limits, price, Exact(old(store.entries)), r.value.prompt, r.value.cap))
      ensures r.Ok? ==> IsPriced(store.limits, routes, routeID, model, Ok(r.value.price))
      ensures r.Ok? ==> r.value.operation == if TrimSpace(operation) == "" then generated else TrimSpace(operation)
      ensures r.Ok? && store.entries != old(store.entries) ==> Reserves(store.entries[|store.entries| - 1], r.value)
    {
      PricedExactly(store.limits, routes, routeID, model);
      hide PriceFor, IsPriced, Exact, Admits, QuotesExactly, ValidEntry, IsNew, IsRecorded;
      if !inTime { return Err(RuntimeExceeded); }
      var pricing := ModelPricing(routeID, model);
      if pricing.Err? { return Err(pricing.error); }
      PriceIs64(store.limits, routes, routeID, model);
      r := Reserve(id, Named(operation, generated), pricing.value, Max(0, estimated), timestamp, note);
    }

    method Reserve(id: string, operation: string, price: Price, prompt: int, timestamp: int, note: string) returns (r: Result<Reservation, UsageError>)
      requires store.Valid() && Are64(store.limits) && Is64(price.input) && Is64(price.output) && 0 <= prompt <= MAX
      modifies store
      ensures store.Valid()
      ensures var e := ReservationEntry(id, operation, price, prompt, timestamp, note);
        && (store.entries == old(store.entries) || store.entries == old(store.entries) + [e])
        && (r.Err? ==> store.entries == old(store.entries))
        && (ValidEntry(e) && IsNew(old(store.entries), e) ==> (r.Ok? <==> Admits(store.limits, Stored(Exact(old(store.entries))), AddEntry(ZERO, e))))
        && (r.Ok? ==> IsRecorded(store.entries, e) && r.value.operation == operation && r.value.prompt == prompt && r.value.price == price)
        && (r.Ok? && store.entries != old(store.entries) && store.limits.cost < MAX && Within(store.limits, Exact(old(store.entries))) ==>
              QuotesExactly(store.limits, price, Exact(old(store.entries)), prompt, r.value.cap))
    {
      var entry := ReservationEntry(id, operation, price, prompt, timestamp, note);
      UsageCostIsCost(price, prompt, 1, None, true);
      ghost var before := store.entries;
      var totals, applied, error := store.ApplyRunUsage(entry);
      if error.Some? { return Err(error.value); }
      var cap := MaxCompletionTokens(PricedLimits(store.limits, price), totals, prompt, Amount(entry));
      if applied && store.limits.cost < MAX && Within(store.limits, Exact(before)) {
        QuoteIsExact(store.limits, before, price, prompt, entry);
      }
      return Ok(Reservation(price, operation, prompt, cap));
    }

    /** Records what was used, once; the entry is there even when it reports that the budget was exceeded. */
    method SettleModelCall(reservation: Reservation, id: string, prompt: int, completion: int, total: int, breakdown: Option<Breakdown>, estimated: bool, timestamp: int, note: string)
      returns (error: Option<UsageError>)
      requires store.Valid() && Is64(prompt) && Is64(completion) && Is64(total)
      modifies store
      ensures store.Valid()
      ensures error == Some(BreakdownInvalid) <==> !ValidBreakdown(breakdown, prompt, completion)
      ensures breakdown.Some? && error != Some(BreakdownInvalid) ==> IsPart(breakdown.value.cached, prompt) && IsPart(breakdown.value.reasoning, completion)
      ensures error == Some(BreakdownInvalid) ==> store.entries == old(store.entries)
      ensures var e := SettlementEntry(id, reservation.operation, reservation.price, Max(0, prompt), Max(0, completion), total, CachedOf(breakdown), estimated, timestamp, note);
        && (store.entries == old(store.entries) || store.entries == old(store.entries) + [e])
        && (error.None? ==> IsRecorded(store.entries, e))
        && (ValidBreakdown(breakdown, prompt, completion) && ValidEntry(e) && IsNew(old(store.entries), e) && HasReservation(old(store.entries), e.operation) ==>
              store.entries == old(store.entries) + [e] && (error.None? <==> Admits(store.limits, ZERO, Stored(Exact(store.entries)))))
      ensures store.entries != old(store.entries) ==>
        Settles(store.entries[|store.entries| - 1], reservation, prompt, completion, total, breakdown, estimated)
    {
      SettlementSettles(reservation, id, prompt, completion, total, breakdown, estimated, timestamp, note);
      BreakdownExactly(breakdown, prompt, completion);
      hide Settles;
      if !ValidBreakdown(breakdown, prompt, completion) { return Some(BreakdownInvalid); }
      var entry := SettlementEntry(id, reservation.operation, reservation.price, Max(0, prompt), Max(0, completion), total, CachedOf(breakdown), estimated, timestamp, note);
      UsageCostIsCost(reservation.price, Max(0, prompt), Max(0, completion), CachedOf(breakdown), estimated);
      var _, _, e := store.ApplyRunUsage(entry);
      return e;
    }

    method RecordToolCall(id: string, operation: string, generated: string, inTime: bool, timestamp: int, note: string) returns (error: Option<UsageError>)
      requires store.Valid()
      modifies store
      ensures store.Valid()
      ensures store.entries == old(store.entries) || store.entries == old(store.entries) + [ToolEntry(id, Named(operation, generated), timestamp, note)]
      ensures !inTime ==> error == Some(RuntimeExceeded) && store.entries == old(store.entries)
      ensures error.None? ==> IsRecorded(store.entries, ToolEntry(id, Named(operation, generated), timestamp, note))
      ensures var e := ToolEntry(id, Named(operation, generated), timestamp, note);
        inTime && ValidEntry(e) && IsNew(old(store.entries), e) ==> (error.None? <==> Admits(store.limits, Stored(Exact(old(store.entries))), AddEntry(ZERO, e)))
      ensures store.entries != old(store.entries) ==>
        var e := store.entries[|store.entries| - 1];
        && e.kind.ToolExecution? && e.operation == (if TrimSpace(operation) == "" then generated else TrimSpace(operation))
        && e.toolCalls == 1 && e.modelCalls == 0 && e.total == 0 && e.cost == 0
    {
      if !inTime { return Some(RuntimeExceeded); }
      var _, _, e := store.ApplyRunUsage(ToolEntry(id, Named(operation, generated), timestamp, note));
      return e;
    }
  }

  /** A completion keeps the budget exactly when the quoted cap allows it. */
  ghost predicate QuotesExactly(limits: Limits, price: Price, before: Sums, prompt: int, cap: int) {
    if Limited(PricedLimits(limits, price)) then
      1 <= cap <= MAX && forall c :: 0 <= c <= MAX ==> (c <= cap <==> Fits(limits, price, before, prompt, c))
    else cap == 0 && forall c :: 0 <= c <= MAX ==> Fits(limits, price, before, prompt, c)
  }

  // ---------------------------------------------------------------------------------------------
  // One call at a time
  // ---------------------------------------------------------------------------------------------

  lemma {:induction false} ToolsNotNegative(entries: seq<Entry>)
    requires forall i :: 0 <= i < |entries| ==> ValidEntry(entries[i])
    ensures NotNegative(ToolSum(entries))
    decreases |entries|
  {
    if entries != [] { ToolsNotNegative(entries[..|entries| - 1]); }
  }

  lemma {:induction false} PartsNotNegative(m: map<string, Sums>)
    requires forall k :: k in m ==> NotNegative(m[k])
    ensures NotNegative(SumOver(m))
    decreases |m|
  {
    if m != map[] {
      var k :| k in m;
      SumWithout(m, k);
      PartsNotNegative(m - {k});
    }
  }

  lemma ExactIsNotNegative(entries: seq<Entry>)
    requires Recorded(entries)
    ensures NotNegative(Exact(entries))
  {
    ToolsNotNegative(entries);
    var r, s := Latest(entries, ModelReservation), Latest(entries, ModelSettlement);
    forall k | k in r ensures NotNegative(Parts(r, s, r.Keys)[k]) {
      LatestIsAnEntry(entries, ModelReservation, k);
      LatestIsAnEntry(entries, ModelSettlement, k);
    }
    PartsNotNegative(Parts(r, s, r.Keys));
  }

  lemma RequestIs(e: Entry)
    requires EntryIs64(e) && ValidEntry(e)
    ensures AddEntry(ZERO, e) == Amount(e) && NotNegative(Amount(e))
  {
    AddCostIs(0, e.cost);
  }

  lemma LastIsValid(entries: seq<Entry>, e: Entry)
    requires Recorded(entries + [e])
    ensures WellFormed(entries + [e]) && ValidEntry(e) && EntryIs64(e) && e.kind.Counts()
  {
    hide WellFormed;
    assert (entries + [e])[|entries|] == e;
  }

  lemma OpenIsUnlimited(limits: Limits, s: Sums, a: Sums)
    ensures Within(limits, Plus(s, Plus(a, OPEN))) <==> Within(limits, Plus(s, a))
  {
  }

  /** What the check admits keeps the budget, in exact sums. */
  lemma AdmittedKeepsWithin(limits: Limits, entries: seq<Entry>, e: Entry)
    requires Are64(limits) && Recorded(entries) && Recorded(entries + [e]) && Within(limits, Exact(entries))
    requires !e.kind.ModelSettlement? && Admits(limits, Stored(Exact(entries)), AddEntry(ZERO, e))
    ensures Within(limits, Exact(entries + [e])) && Within(limits, Plus(Exact(entries), Amount(e)))
  {
    assert WellFormed(entries);
    hide Exact, Stored, Admits, Amount, AddEntry, WellFormed, Recorded, Latest, Wrap, Within, Plus, Minus, ValidEntry, NotNegative, Are64;
    LastIsValid(entries, e);
    OpenIsUnlimited(limits, Exact(entries), Amount(e));
    ExactIsNotNegative(entries);
    RequestIs(e);
    CheckOnStored(limits, Exact(entries), Amount(e));
    LogGrowsBy(entries, e);
  }

  lemma QuoteIsExact(limits: Limits, before: seq<Entry>, price: Price, prompt: int, e: Entry)
    requires Are64(limits) && limits.cost < MAX && Is64(price.input) && Is64(price.output) && 0 <= prompt <= MAX
    requires Recorded(before) && Recorded(before + [e]) && Within(limits, Exact(before))
    requires e == ReservationEntry(e.id, e.operation, price, prompt, e.timestamp, e.note)
    requires Admits(limits, Stored(Exact(before)), AddEntry(ZERO, e))
    ensures QuotesExactly(limits, price, Exact(before), prompt, Cap(PricedLimits(limits, price), Stored(Exact(before + [e])), prompt, Amount(e)))
  {
    assert WellFormed(before);
    hide Exact, Stored, Admits, AddEntry, WellFormed, Recorded, Latest, Cap, UsageCost, QuotesExactly, Amount, Wrap, CallSums;
    LastIsValid(before, e);
    AdmittedKeepsWithin(limits, before, e);
    ExactIsNotNegative(before);
    LogGrowsBy(before, e);
    var s, reserved := Exact(before), CallSums(price, prompt, 1);
    ReservationIs(price, prompt, e);
    CapSeesNoOpen(PricedLimits(limits, price), s, prompt, reserved);
    CapQuotes(limits, price, s, prompt);
  }

  /** A valid reservation did not overflow, and counts as a call of one token. */
  lemma ReservationIs(price: Price, prompt: int, e: Entry)
    requires 0 <= prompt <= MAX && ValidEntry(e) && e == ReservationEntry(e.id, e.operation, price, prompt, e.timestamp, e.note)
    ensures prompt < MAX && Amount(e) == CallSums(price, prompt, 1)
  {
    hide UsageCost;
  }

  lemma CapQuotes(limits: Limits, price: Price, s: Sums, prompt: int)
    requires Are64(limits) && limits.cost < MAX && Is64(price.input) && Is64(price.output)
    requires NotNegative(s) && 0 <= prompt < MAX && Admitted(limits, price, s, prompt)
    ensures var reserved := CallSums(price, prompt, 1);
      QuotesExactly(limits, price, s, prompt, Cap(PricedLimits(limits, price), Stored(Plus(s, reserved)), prompt, reserved))
  {
    hide Cap, Stored, Wrap, UsageCost, Fits, CallSums;
    forall c | 0 <= c <= MAX
      ensures var cap := Cap(PricedLimits(limits, price), Stored(Plus(s, CallSums(price, prompt, 1))), prompt, CallSums(price, prompt, 1));
        if Limited(PricedLimits(limits, price)) then 1 <= cap <= MAX && (c <= cap <==> Fits(limits, price, s, prompt, c))
        else Fits(limits, price, s, prompt, c)
    {
      CapIsExact(limits, price, s, prompt, c);
    }
    CapIsExact(limits, price, s, prompt, 0);
  }

  lemma CapSeesNoOpen(limits: Limits, s: Sums, prompt: int, reserved: Sums)
    ensures Cap(limits, Stored(Plus(s, Plus(reserved, OPEN))), prompt, reserved) == Cap(limits, Stored(Plus(s, reserved)), prompt, reserved)
  {
  }

  /** What one tracker adds to the log, one call at a time; a call may also never be settled. */
  ghost predicate CallAdds(limits: Limits, before: seq<Entry>, e: Entry, after: seq<Entry>) {
    && Recorded(before + [e]) && Recorded(after)
    && !e.kind.ModelSettlement? && Admits(limits, Stored(Exact(before)), AddEntry(ZERO, e))
    && (after == before + [e] || exists s, price :: SettlesWithinCap(limits, before, e, s, price) && after == before + [e] + [s])
  }

  /** The settlement reports the reserved prompt, a completion within the cap, and nothing billed apart. */
  ghost predicate SettlesWithinCap(limits: Limits, before: seq<Entry>, e: Entry, s: Entry, price: Price) {
    && Is64(price.input) && Is64(price.output)
    && e == ReservationEntry(e.id, e.operation, price, e.prompt, e.timestamp, e.note)
    && s == SettlementEntry(s.id, e.operation, price, e.prompt, s.completion, 0, None, true, s.timestamp, s.note)
    && (Limited(PricedLimits(limits, price)) ==>
          s.completion <= Cap(PricedLimits(limits, price), Stored(Exact(before + [e])), e.prompt, Amount(e)))
  }

  lemma CallKeepsWithin(limits: Limits, before: seq<Entry>, e: Entry, after: seq<Entry>)
    requires Are64(limits) && limits.cost < MAX && Recorded(before) && Within(limits, Exact(before)) && CallAdds(limits, before, e, after)
    ensures Within(limits, Exact(after))
  {
    AdmittedKeepsWithin(limits, before, e);
    if after != before + [e] {
      var s, price :| SettlesWithinCap(limits, before, e, s, price) && after == before + [e] + [s];
      SettledKeepsWithin(limits, before, e, s, price);
    }
  }

  lemma SettledKeepsWithin(limits: Limits, before: seq<Entry>, e: Entry, s: Entry, price: Price)
    requires Are64(limits) && limits.cost < MAX && Recorded(before) && Recorded(before + [e]) && Recorded(before + [e] + [s])
    requires Within(limits, Exact(before)) && Admits(limits, Stored(Exact(before)), AddEntry(ZERO, e))
    requires SettlesWithinCap(limits, before, e, s, price)
    ensures Within(limits, Exact(before + [e] + [s]))
  {
    hide Exact, Cap, Recorded, Stored, Admits, Latest, Amount, WellFormed, UsageCost, Wrap, AddEntry;
    LastIsValid(before + [e], s);
    LastIsValid(before, e);
    AdmittedKeepsWithin(limits, before, e);
    QuoteIsExact(limits, before, price, e.prompt, e);
    SettlementTakesItsPlace(before, e, s);
    SettlementSumsTo(price, e, s);
    SettledFits(limits, price, Exact(before), e, s);
  }

  /** A valid settlement's total is the sum of its parts: had it overflowed, it would have been negative. */
  lemma SettlementSumsTo(price: Price, e: Entry, s: Entry)
    requires ValidEntry(s) && EntryIs64(s) && 0 <= e.prompt <= MAX && 0 <= s.completion <= MAX
    requires s == SettlementEntry(s.id, e.operation, price, e.prompt, s.completion, 0, None, true, s.timestamp, s.note)
    ensures s.total == e.prompt + s.completion
  {
  }

  lemma SettledFits(limits: Limits, price: Price, before: Sums, e: Entry, s: Entry)
    requires Within(limits, Plus(before, Amount(e))) && Fits(limits, price, before, e.prompt, s.completion)
    requires e.modelCalls == 1 && e.toolCalls == 0 && s.modelCalls == 1 && s.toolCalls == 0 && s.prompt == e.prompt
    requires s.total == e.prompt + s.completion && s.cost == UsageCost(price, e.prompt, s.completion, None, true)
    ensures Within(limits, Plus(before, Amount(s)))
  {
    hide UsageCost;
  }

  lemma SettlementTakesItsPlace(before: seq<Entry>, e: Entry, s: Entry)
    requires Recorded(before) && Recorded(before + [e]) && Recorded(before + [e] + [s])
    requires e.kind.ModelReservation? && s.kind.ModelSettlement? && s.operation == e.operation
    ensures Exact(before + [e] + [s]) == Plus(Exact(before), Amount(s))
  {
    assert WellFormed(before);
    var mid := before + [e];
    hide Exact, Amount, Latest, Recorded, WellFormed;
    LastIsValid(before, e);
    LastIsValid(mid, s);
    LogGrowsBy(before, e);
    LogGrowsBy(mid, s);
    LatestGrows(before, e, ModelReservation);
    assert Latest(mid, ModelReservation)[s.operation] == e;
    TakesPlace(Exact(before), Amount(e), Amount(s));
  }

  lemma TakesPlace(s: Sums, a: Sums, b: Sums)
    ensures Plus(Minus(Plus(s, Plus(a, OPEN)), Plus(a, OPEN)), b) == Plus(s, b)
  {
  }

  lemma LatestOfNone(entries: seq<Entry>, kind: Kind)
    requires entries == []
    ensures Latest(entries, kind) == map[] && ToolSum(entries) == ZERO
  {
  }

  lemma NothingIsRecorded(entries: seq<Entry>)
    requires entries == []
    ensures Recorded(entries)
  {
  }

  lemma EmptyLog(entries: seq<Entry>)
    requires entries == []
    ensures Exact(entries) == ZERO && Recorded(entries)
  {
    hide Latest, ToolSum, SumOver, Parts, Recorded;
    NothingIsRecorded(entries);
    LatestOfNone(entries, ModelReservation);
    NoOperations(Latest(entries, ModelReservation), Latest(entries, ModelSettlement));
  }

  lemma NoOperations(r: map<string, Entry>, s: map<string, Entry>)
    requires r == map[]
    ensures SumOver(Parts(r, s, r.Keys)) == ZERO
  {
    assert Parts(r, s, r.Keys) == map[];
  }

  /** A run's log after each of its calls. */
  ghost predicate IsSerialRun(limits: Limits, logs: seq<seq<Entry>>, calls: seq<Entry>) {
    && |logs| == |calls| + 1 && logs[0] == []
    && forall i :: 0 <= i < |calls| ==> CallAdds(limits, logs[i], calls[i], logs[i + 1])
  }

  /** Making one call at a time within the quoted caps, a run is within its budget after every call. */
  lemma {:induction false} SerialRunStaysWithinBudget(limits: Limits, logs: seq<seq<Entry>>, calls: seq<Entry>, n: nat)
    requires Are64(limits) && limits.cost < MAX && IsSerialRun(limits, logs, calls) && n < |logs|
    ensures Recorded(logs[n]) && Within(limits, Exact(logs[n]))
    decreases n
  {
    hide Exact, Recorded;
    if n == 0 {
      EmptyLog(logs[0]);
    } else {
      SerialRunStaysWithinBudget(limits, logs, calls, n - 1);
      assert CallAdds(limits, logs[n - 1], calls[n - 1], logs[n]);
      CallKeepsWithin(limits, logs[n - 1], calls[n - 1], logs[n]);
    }
  }
}
