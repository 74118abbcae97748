/**
  The limits of a run: what the check admits, and the completion cap that is quoted with a reservation. The cap
  is exactly what the limits leave: no more, and no less.
 */
module Budget {
  import opened Results
  import opened Costs
  import opened Ledger
  import opened UsageLog

  /** A limit that is not positive is no limit. */
  datatype Limits = Limits(modelCalls: int, prompt: int, completion: int, total: int, toolCalls: int, cost: int, inputRate: int, outputRate: int)

  datatype Resource = ModelCalls | PromptTokens | CompletionTokens | TotalTokens | ToolCalls | EstimatedCost

  datatype Row = Row(resource: Resource, limit: int, used: int, request: int)

  function Rows(limits: Limits, current: Sums, requested: Sums): seq<Row> {
    [Row(ModelCalls, limits.modelCalls, current.modelCalls, requested.modelCalls),
     Row(PromptTokens, limits.prompt, current.prompt, requested.prompt),
     Row(CompletionTokens, limits.completion, current.completion, requested.completion),
     Row(TotalTokens, limits.total, current.total, requested.total),
     Row(ToolCalls, limits.toolCalls, current.toolCalls, requested.toolCalls),
     Row(EstimatedCost, limits.cost, current.cost, requested.cost)]
  }

  /** The source's comparison, in 64-bit integers. */
  predicate Exceeded(row: Row) {
    row.limit > 0 && (row.used > row.limit || row.request > Wrap(row.limit - row.used))
  }

  predicate IsFirstExceeded(rows: seq<Row>, i: nat, row: Row)
    requires i < |rows|
  {
    rows[i] == row && Exceeded(row) && forall k :: 0 <= k < i ==> !Exceeded(rows[k])
  }

  /** The row gives the limit, the use and the request of the resource it names. */
  ghost predicate Reports(row: Row, limits: Limits, current: Sums, requested: Sums) {
    match row.resource
    case ModelCalls => row.limit == limits.modelCalls && row.used == current.modelCalls && row.request == requested.modelCalls
    case PromptTokens => row.limit == limits.prompt && row.used == current.prompt && row.request == requested.prompt
    case CompletionTokens => row.limit == limits.completion && row.used == current.completion && row.request == requested.completion
    case TotalTokens => row.limit == limits.total && row.used == current.total && row.request == requested.total
    case ToolCalls => row.limit == limits.toolCalls && row.used == current.toolCalls && row.request == requested.toolCalls
    case EstimatedCost => row.limit == limits.cost && row.used == current.cost && row.request == requested.cost
  }

  /** The first row exceeded, if one is. */
  method Check(limits: Limits, current: Sums, requested: Sums) returns (exceeded: Option<Row>)
    ensures exceeded.None? <==> forall i :: 0 <= i < 6 ==> !Exceeded(Rows(limits, current, requested)[i])
    ensures exceeded.Some? ==> exists i :: 0 <= i < 6 && IsFirstExceeded(Rows(limits, current, requested), i, exceeded.value)
    ensures exceeded.Some? ==> Reports(exceeded.value, limits, current, requested)
  {
    var checks := Rows(limits, current, requested);
    for i := 0 to |checks|
      invariant forall k :: 0 <= k < i ==> !Exceeded(checks[k])
    {
      if Exceeded(checks[i]) {
        assert IsFirstExceeded(checks, i, checks[i]);
        return Some(checks[i]);
      }
    }
    return None;
  }

  predicate Admits(limits: Limits, current: Sums, requested: Sums) {
    forall i :: 0 <= i < 6 ==> !Exceeded(Rows(limits, current, requested)[i])
  }

  predicate Below(limit: int, value: int) { limit > 0 ==> value <= limit }

  /** In integers without bound: every limited sum is within its limit. */
  predicate Within(limits: Limits, s: Sums) {
    && Below(limits.modelCalls, s.modelCalls) && Below(limits.prompt, s.prompt) && Below(limits.completion, s.completion)
    && Below(limits.total, s.total) && Below(limits.toolCalls, s.toolCalls) && Below(limits.cost, s.cost)
  }

  predicate NotNegative(s: Sums) {
    s.modelCalls >= 0 && s.prompt >= 0 && s.completion >= 0 && s.total >= 0 && s.toolCalls >= 0 && s.cost >= 0
  }

  predicate Are64(limits: Limits) {
    && Is64(limits.modelCalls) && Is64(limits.prompt) && Is64(limits.completion) && Is64(limits.total)
    && Is64(limits.toolCalls) && Is64(limits.cost) && Is64(limits.inputRate) && Is64(limits.outputRate)
  }

  /** A row's comparison never overflows into the wrong answer. */
  lemma RowIsExact(row: Row)
    requires Is64(row.limit) && row.used >= 0 && row.request >= 0
    ensures Exceeded(row) <==> !Below(row.limit, row.used + row.request)
  {
  }

  /** On usage that is not negative, the check admits exactly what fits when added without bound. */
  lemma CheckIsExact(limits: Limits, current: Sums, requested: Sums)
    requires Are64(limits) && NotNegative(current) && NotNegative(requested)
    ensures Admits(limits, current, requested) <==> Within(limits, Plus(current, requested))
  {
    var rows := Rows(limits, current, requested);
    forall i | 0 <= i < 6 ensures Exceeded(rows[i]) <==> !Below(rows[i].limit, rows[i].used + rows[i].request) { RowIsExact(rows[i]); }
    assert rows[0].limit == limits.modelCalls && rows[1].limit == limits.prompt && rows[2].limit == limits.completion;
    assert rows[3].limit == limits.total && rows[4].limit == limits.toolCalls && rows[5].limit == limits.cost;
  }

  /** The counters of a run that is within its limits are stored as they are, wherever a limit looks. */
  lemma StoredWhereLimited(limits: Limits, s: Sums)
    requires Are64(limits) && NotNegative(s) && Within(limits, s)
    ensures limits.modelCalls > 0 ==> Stored(s).modelCalls == s.modelCalls
    ensures limits.prompt > 0 ==> Stored(s).prompt == s.prompt
    ensures limits.completion > 0 ==> Stored(s).completion == s.completion
    ensures limits.total > 0 ==> Stored(s).total == s.total
    ensures limits.toolCalls > 0 ==> Stored(s).toolCalls == s.toolCalls
    ensures limits.cost > 0 ==> Stored(s).cost == s.cost
  {
  }

  /** Unlimited rows pass whatever they hold, so checking the stored totals is checking the exact ones. */
  lemma CheckOnStored(limits: Limits, s: Sums, requested: Sums)
    requires Are64(limits) && NotNegative(s) && NotNegative(requested) && Within(limits, s)
    ensures Admits(limits, Stored(s), requested) <==> Within(limits, Plus(s, requested))
  {
    StoredWhereLimited(limits, s);
    CheckIsExact(limits, s, requested);
    var stored, exact := Rows(limits, Stored(s), requested), Rows(limits, s, requested);
    hide Stored, Wrap, Plus, Within;
    forall i | 0 <= i < 6 ensures Exceeded(stored[i]) == Exceeded(exact[i]) {
      assert stored[i].limit == exact[i].limit && stored[i].request == exact[i].request;
      assert stored[i].limit > 0 ==> stored[i].used == exact[i].used;
    }
  }

  // ---------------------------------------------------------------------------------------------
  // The completion cap
  // ---------------------------------------------------------------------------------------------

  function Min(a: int, b: int): int { if a <= b then a else b }

  function Max(a: int, b: int): int { if a >= b then a else b }

  /** The limits at a call's own price. */
  function PricedLimits(limits: Limits, price: Price): Limits {
    limits.(inputRate := price.input, outputRate := price.output)
  }

  /** How many tokens a remaining cost pays for. */
  function Affordable(remaining: int, rate: int): int
    requires rate > 0
  {
    var value := remaining * MILLION / rate;
    if Is64(value) then value else MAX
  }

  method MaxCompletionTokens(limits: Limits, totals: Sums, prompt: int, reserved: Sums) returns (cap: int)
    ensures cap == Cap(limits, totals, prompt, reserved)
  {
    var maxTokens, limited := MAX, false;
    if limits.completion > 0 {
      limited := true;
      maxTokens := Min(maxTokens, Wrap(limits.completion - Wrap(totals.completion - reserved.completion)));
    }
    if limits.total > 0 {
      limited := true;
      maxTokens := Min(maxTokens, Wrap(Wrap(limits.total - Wrap(totals.total - reserved.total)) - prompt));
    }
    if limits.cost > 0 && limits.outputRate > 0 {
      limited := true;
      var baseCost := AddCost(Wrap(totals.cost - reserved.cost), TokenCost(prompt, limits.inputRate));
      maxTokens := Min(maxTokens, Affordable(Max(0, Wrap(limits.cost - baseCost)), limits.outputRate));
    }
    if !limited { return 0; }
    return Max(1, maxTokens);
  }

  predicate Limited(limits: Limits) {
    limits.completion > 0 || limits.total > 0 || (limits.cost > 0 && limits.outputRate > 0)
  }

  function CompletionRoom(limits: Limits, totals: Sums, reserved: Sums): int {
    if limits.completion > 0 then Wrap(limits.completion - Wrap(totals.completion - reserved.completion)) else MAX
  }

  function TotalRoom(limits: Limits, totals: Sums, prompt: int, reserved: Sums): int {
    if limits.total > 0 then Wrap(Wrap(limits.total - Wrap(totals.total - reserved.total)) - prompt) else MAX
  }

  function CostRoom(limits: Limits, totals: Sums, prompt: int, reserved: Sums): int {
    if limits.cost > 0 && limits.outputRate > 0 then
      var baseCost := AddCost(Wrap(totals.cost - reserved.cost), TokenCost(prompt, limits.inputRate));
      Affordable(Max(0, Wrap(limits.cost - baseCost)), limits.outputRate)
    else MAX
  }

  function Cap(limits: Limits, totals: Sums, prompt: int, reserved: Sums): int {
    if !Limited(limits) then 0
    else Max(1, Min(Min(Min(MAX, CompletionRoom(limits, totals, reserved)), TotalRoom(limits, totals, prompt, reserved)), CostRoom(limits, totals, prompt, reserved)))
  }

  /** What a model call of so many tokens is billed before anything is known of its cache. */
  function CallSums(price: Price, prompt: int, completion: int): Sums {
    Sums(1, 0, prompt, completion, prompt + completion, UsageCost(price, prompt, completion, None, true), 0, if Unknown(price) then 1 else 0)
  }

  lemma Quotient(c: int, x: int, rate: int)
    requires rate > 0 && x >= 0 && c >= 0
    ensures c <= x / rate <==> c * rate <= x
  {
    var q := x / rate;
    assert q * rate <= x < (q + 1) * rate;
    if c <= q { Product(c, rate, q, rate); } else { Product(q + 1, rate, c, rate); }
  }

  /** The tokens a remaining cost pays for are exactly those whose rounded cost is within it. */
  lemma AffordableExactly(c: int, remaining: int, rate: int)
    requires 0 <= remaining < MAX && rate > 0 && 0 <= c <= MAX
    ensures Affordable(remaining, rate) >= 0
    ensures c <= Affordable(remaining, rate) <==> TokenCost(c, rate) <= remaining
  {
    CostIsLeast(c, rate, remaining);
    Quotient(c, remaining * MILLION, rate);
    Quotient(0, remaining * MILLION, rate);
    assert Owed(c, rate) == c * rate by { if c == 0 { assert c * rate == 0; } }
  }

  lemma CompletionRoomIs(limits: Limits, before: Sums, reserved: Sums)
    requires limits.completion > 0 && Is64(limits.completion) && before.completion >= 0 && reserved.completion == 1
    requires before.completion + 1 <= limits.completion
    ensures CompletionRoom(limits, Stored(Plus(before, reserved)), reserved) == limits.completion - before.completion
  {
  }

  lemma TotalRoomIs(limits: Limits, before: Sums, prompt: int, reserved: Sums)
    requires limits.total > 0 && Is64(limits.total) && before.total >= 0 && prompt >= 0 && reserved.total == prompt + 1
    requires before.total + prompt + 1 <= limits.total
    ensures TotalRoom(limits, Stored(Plus(before, reserved)), prompt, reserved) == limits.total - before.total - prompt
  {
  }

  lemma BillIs(price: Price, prompt: int, c: int)
    requires !Unknown(price) && Is64(prompt)
    ensures UsageCost(price, prompt, c, None, true) == Saturated(TokenCost(prompt, price.input) + TokenCost(c, price.output))
    ensures IsCost(TokenCost(prompt, price.input)) && IsCost(TokenCost(c, price.output))
  {
    CostIsCost(prompt, price.input);
    CostIsCost(c, price.output);
    AddCostIs(TokenCost(prompt, price.input), TokenCost(c, price.output));
    hide TokenCost, AddCost;
  }

  /** The cost part of the cap: exactly the completions whose whole bill is within the limit. */
  lemma CostRoomExactly(limits: Limits, price: Price, before: Sums, prompt: int, c: int)
    requires 0 < limits.cost < MAX && price.output > 0 && before.cost >= 0 && 0 <= c <= MAX && Is64(prompt)
    requires before.cost + UsageCost(price, prompt, 1, None, true) <= limits.cost
    ensures WithinRoom(limits, price, before, prompt, c) <==> before.cost + UsageCost(price, prompt, c, None, true) <= limits.cost
  {
    hide UsageCost, TokenCost, CostRoom, Affordable, CallSums, Plus, Stored;
    BillIs(price, prompt, c);
    BaseCostIs(limits, price, before, prompt);
    AffordableExactly(c, limits.cost - before.cost - TokenCost(prompt, price.input), price.output);
  }

  predicate WithinRoom(limits: Limits, price: Price, before: Sums, prompt: int, c: int) {
    var reserved := CallSums(price, prompt, 1);
    c <= CostRoom(PricedLimits(limits, price), Stored(Plus(before, reserved)), prompt, reserved)
  }

  lemma BaseCostIs(limits: Limits, price: Price, before: Sums, prompt: int)
    requires 0 < limits.cost < MAX && price.output > 0 && before.cost >= 0 && Is64(prompt)
    requires before.cost + UsageCost(price, prompt, 1, None, true) <= limits.cost
    ensures limits.cost - before.cost - TokenCost(prompt, price.input) >= 0
    ensures var reserved := CallSums(price, prompt, 1);
      CostRoom(PricedLimits(limits, price), Stored(Plus(before, reserved)), prompt, reserved)
        == Affordable(limits.cost - before.cost - TokenCost(prompt, price.input), price.output)
  {
    hide UsageCost, TokenCost, Affordable, AddCost, Wrap;
    BillIs(price, prompt, 1);
    var bill := UsageCost(price, prompt, 1, None, true);
    assert Stored(Plus(before, CallSums(price, prompt, 1))).cost == before.cost + bill;
    AddCostIs(before.cost, TokenCost(prompt, price.input));
  }

  /** A call's completion, added to what the others use, keeps the limits it can affect. */
  predicate Fits(limits: Limits, price: Price, before: Sums, prompt: int, c: int) {
    && Below(limits.completion, before.completion + c)
    && Below(limits.total, before.total + prompt + c)
    && Below(limits.cost, before.cost + UsageCost(price, prompt, c, None, true))
  }

  ghost predicate Admitted(limits: Limits, price: Price, before: Sums, prompt: int) {
    Within(limits, Plus(before, CallSums(price, prompt, 1)))
  }

  /**
    Safe and tight: after an admitted reservation the cap is at least one, and a completion keeps the limits
    exactly when the cap allows it; without a limit that a completion could touch there is no cap, and any fits.
   */
  lemma CapIsExact(limits: Limits, price: Price, before: Sums, prompt: int, c: int)
    requires Are64(limits) && limits.cost < MAX && Is64(price.input) && Is64(price.output)
    requires NotNegative(before) && 0 <= prompt < MAX && 0 <= c <= MAX && Admitted(limits, price, before, prompt)
    ensures var priced, reserved := PricedLimits(limits, price), CallSums(price, prompt, 1);
      var cap := Cap(priced, Stored(Plus(before, reserved)), prompt, reserved);
      && (Limited(priced) ==> 1 <= cap <= MAX && (c <= cap <==> Fits(limits, price, before, prompt, c)))
      && (!Limited(priced) ==> cap == 0 && Fits(limits, price, before, prompt, c))
  {
    var priced, reserved := PricedLimits(limits, price), CallSums(price, prompt, 1);
    var totals := Stored(Plus(before, reserved));
    assert Below(limits.completion, before.completion + 1) && Below(limits.total, before.total + prompt + 1);
    assert Below(limits.cost, before.cost + UsageCost(price, prompt, 1, None, true));
    if limits.completion > 0 { CompletionRoomIs(priced, before, reserved); }
    if limits.total > 0 { TotalRoomIs(priced, before, prompt, reserved); }
    CostRoomCases(limits, price, before, prompt, c);
    CostRoomCases(limits, price, before, prompt, 1);
    hide UsageCost, Stored, Wrap, CostRoom, Plus;
  }

  lemma CostRoomCases(limits: Limits, price: Price, before: Sums, prompt: int, c: int)
    requires limits.cost < MAX && Is64(prompt)
    requires before.cost >= 0 && 0 <= c <= MAX && Below(limits.cost, before.cost + UsageCost(price, prompt, 1, None, true))
    ensures WithinRoom(limits, price, before, prompt, c) <==> Below(limits.cost, before.cost + UsageCost(price, prompt, c, None, true))
  {
    if limits.cost > 0 && price.output > 0 {
      CostRoomExactly(limits, price, before, prompt, c);
    } else if limits.cost > 0 {
      assert UsageCost(price, prompt, c, None, true) == UsageCost(price, prompt, 1, None, true);
    }
  }

  /** The cap quoted with a reservation of one token beside what is used before. */
  function QuotedCap(limits: Limits, price: Price, before: Sums, prompt: int): int {
    var reserved := CallSums(price, prompt, 1);
    Cap(PricedLimits(limits, price), Stored(Plus(before, reserved)), prompt, reserved)
  }

  /** A completion the quote allows, or any if there is none. */
  predicate Quoted(limits: Limits, price: Price, before: Sums, prompt: int, c: int) {
    Limited(PricedLimits(limits, price)) ==> c <= QuotedCap(limits, price, before, prompt)
  }

  lemma QuotedFits(limits: Limits, price: Price, before: Sums, prompt: int, c: int)
    requires Are64(limits) && limits.cost < MAX && Is64(price.input) && Is64(price.output)
    requires NotNegative(before) && 0 <= prompt < MAX && 0 <= c <= MAX && Admitted(limits, price, before, prompt)
    ensures Quoted(limits, price, before, prompt, c) <==> Fits(limits, price, before, prompt, c)
  {
    CapIsExact(limits, price, before, prompt, c);
    hide Cap, Fits, Stored, UsageCost;
  }

  /** Whether cached input, of a prompt billed in two parts, costs a micro more than the prompt billed in one. */
  predicate SplitCostsMore(price: Price, prompt: int, cached: int)
    requires price.cached.Some?
  {
    var rest, apart := Owed(prompt - cached, price.input), Owed(cached, price.cached.value);
    && rest % MILLION != 0 && apart % MILLION != 0 && rest % MILLION + apart % MILLION <= MILLION
    && (rest + apart + 999_999) / MILLION == (Owed(prompt, price.input) + 999_999) / MILLION
  }

  /** At the input's own rate only the remainders matter. */
  lemma SameRateSplit(price: Price, prompt: int, cached: int)
    requires 0 <= cached <= prompt && price.cached == Some(price.input)
    ensures var rest, apart := Owed(prompt - cached, price.input), Owed(cached, price.input);
      SplitCostsMore(price, prompt, cached) <==>
        (rest % MILLION != 0 && apart % MILLION != 0 && rest % MILLION + apart % MILLION <= MILLION)
  {
    OwedSplits(prompt - cached, cached, price.input);
    hide Owed;
  }

  /** Two amounts rounded up apart come to one more than together exactly when both leave remainders that fit one million. */
  lemma RoundedApart(x: nat, y: nat)
    ensures (x + 999_999) / MILLION + (y + 999_999) / MILLION
      == (x + y + 999_999) / MILLION + (if x % MILLION != 0 && y % MILLION != 0 && x % MILLION + y % MILLION <= MILLION then 1 else 0)
  {
  }

  lemma RoundedUp(tokens: int, rate: int)
    ensures TokenCost(tokens, rate) == Saturated((Owed(tokens, rate) + 999_999) / MILLION) && Owed(tokens, rate) >= 0
  {
    OwedIsNat(tokens, rate);
  }

  /** Of a bill that is below the largest cost, the split costs a micro more exactly by that condition, and otherwise no more. */
  lemma SplitExactly(price: Price, prompt: int, c: int, cached: int)
    requires 0 <= cached <= prompt < MAX && price.cached.Some? && price.cached.value <= price.input
    requires UsageCost(price, prompt, c, None, false) < MAX
    ensures UsageCost(price, prompt, c, Some(cached), false) > UsageCost(price, prompt, c, None, false) <==> SplitCostsMore(price, prompt, cached)
    ensures UsageCost(price, prompt, c, Some(cached), false) <= UsageCost(price, prompt, c, None, false) + 1
  {
    hide TokenCost, AddCost, Owed;
    var whole, rest, apart, out := TokenCost(prompt, price.input), TokenCost(prompt - cached, price.input), TokenCost(cached, price.cached.value), TokenCost(c, price.output);
    RoundedUp(prompt, price.input);
    RoundedUp(prompt - cached, price.input);
    RoundedUp(cached, price.cached.value);
    OwedSplits(prompt - cached, cached, price.input);
    OwedIsMonotone(cached, cached, price.cached.value, price.input);
    CostIsCost(c, price.output);
    AddCostIs(whole, out);
    AddCostIs(rest, out);
    AddCostIs(AddCost(rest, out), apart);
    if cached == 0 { NothingOwed(price.cached.value); }
    PartsExactly(Owed(prompt - cached, price.input), Owed(cached, price.cached.value), Owed(prompt, price.input), out);
    hide UsageCost, Saturated;
  }

  lemma NothingOwed(rate: int)
    ensures Owed(0, rate) == 0 && TokenCost(0, rate) == 0
  {
  }

  function Up(x: int): int { (x + 999_999) / MILLION }

  lemma PartsExactly(rest: nat, apart: nat, whole: nat, out: int)
    requires rest + apart <= whole && IsCost(out) && Saturated(Saturated(Up(whole)) + out) < MAX
    ensures var split, one := Saturated(Saturated(Saturated(Up(rest)) + out) + Saturated(Up(apart))), Saturated(Saturated(Up(whole)) + out);
      && (split > one <==> rest % MILLION != 0 && apart % MILLION != 0 && rest % MILLION + apart % MILLION <= MILLION && Up(rest + apart) == Up(whole))
      && split <= one + 1
  {
    RoundedApart(rest, apart);
    assert Up(rest + apart) <= Up(whole);
  }

  /**
    Within the quoted cap, a settlement whose cached input is billed apart exceeds the cost limit exactly when the
    undivided bill fills the room to the last micro and the split costs one more; and then by that micro.
   */
  lemma CachedExceedsExactly(limits: Limits, price: Price, before: Sums, prompt: int, c: int, cached: int)
    requires Are64(limits) && 0 < limits.cost < MAX && Is64(price.input) && Is64(price.output)
    requires NotNegative(before) && 0 <= cached <= prompt < MAX && 0 <= c <= MAX && Admitted(limits, price, before, prompt)
    requires price.cached.Some? && price.cached.value <= price.input && Quoted(limits, price, before, prompt, c)
    ensures before.cost + UsageCost(price, prompt, c, Some(cached), false) > limits.cost <==>
      before.cost + UsageCost(price, prompt, c, None, true) == limits.cost && SplitCostsMore(price, prompt, cached)
    ensures before.cost + UsageCost(price, prompt, c, Some(cached), false) <= limits.cost + 1
  {
    QuotedFits(limits, price, before, prompt, c);
    assert UsageCost(price, prompt, c, None, false) == UsageCost(price, prompt, c, None, true);
    SplitExactly(price, prompt, c, cached);
    hide UsageCost, Quoted, SplitCostsMore, Admitted;
  }

  /** The guard: a completion quoted against one micro less keeps the limit, however its input is billed. */
  lemma AMicroToSpareIsEnough(limits: Limits, price: Price, before: Sums, prompt: int, c: int, cached: int)
    requires Are64(limits) && 1 < limits.cost < MAX && Is64(price.input) && Is64(price.output)
    requires NotNegative(before) && 0 <= cached <= prompt < MAX && 0 <= c <= MAX
    requires price.cached.Some? && price.cached.value <= price.input
    requires var guarded := limits.(cost := limits.cost - 1); Admitted(guarded, price, before, prompt) && Quoted(guarded, price, before, prompt, c)
    ensures before.cost + UsageCost(price, prompt, c, Some(cached), false) <= limits.cost
  {
    CachedExceedsExactly(limits.(cost := limits.cost - 1), price, before, prompt, c, cached);
  }

  const PENNY := Price(1, 1, Some(1))

  const ONE_PENNY := Limits(0, 0, 0, 0, 0, 2, 0, 0)

  lemma PennyBills(price: Price, prompt: int)
    requires price == PENNY && prompt == 2
    ensures UsageCost(price, prompt, 1, None, true) == 2 && UsageCost(price, prompt, 1, Some(1), false) == 3
  {
    hide TokenCost, AddCost;
    Pennies();
    AddCostIs(1, 1);
    AddCostIs(2, 1);
  }

  lemma OneIsQuoted(limits: Limits, price: Price, before: Sums, prompt: int)
    requires Are64(limits) && limits.cost < MAX && Is64(price.input) && Is64(price.output) && Limited(PricedLimits(limits, price))
    requires NotNegative(before) && 0 <= prompt < MAX && Admitted(limits, price, before, prompt)
    ensures 1 <= QuotedCap(limits, price, before, prompt)
  {
    hide UsageCost, Cap, Stored;
    CapIsExact(limits, price, before, prompt, 1);
  }

  lemma PennyIsAdmitted(limits: Limits, price: Price, before: Sums, prompt: int)
    requires limits == ONE_PENNY && before == ZERO && prompt == 2 && UsageCost(price, prompt, 1, None, true) == 2
    ensures Admitted(limits, price, before, prompt)
  {
    hide UsageCost;
  }

  /** It does happen: one micro each way is admitted, one token is within its cap, and one cached token of two makes it three micros. */
  lemma CachedCompletionCanExceed(limits: Limits, price: Price, before: Sums, prompt: int)
    requires limits == ONE_PENNY && price == PENNY && before == ZERO && prompt == 2
    ensures Admitted(limits, price, before, prompt) && 1 <= QuotedCap(limits, price, before, prompt)
    ensures before.cost + UsageCost(price, prompt, 1, Some(1), false) == limits.cost + 1
  {
    hide UsageCost, QuotedCap, Admitted;
    PennyBills(price, prompt);
    PennyIsAdmitted(limits, price, before, prompt);
    OneIsQuoted(limits, price, before, prompt);
  }
}
