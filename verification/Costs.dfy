/** Token prices in micros, on 64-bit integers: costs round up and saturate, counters wrap. */
module Costs {
  import opened Results

  const MAX := 0x7FFF_FFFF_FFFF_FFFF
  const MILLION := 1_000_000

  /** A 64-bit integer. */
  predicate Is64(x: int) { -MAX - 1 <= x <= MAX }

  function Wrap(x: int): (r: int)
    ensures Is64(r) && (Is64(x) ==> r == x)
  {
    (x + MAX + 1) % 0x1_0000_0000_0000_0000 - MAX - 1
  }

  /** Rounded up to a whole micro, and to the largest cost there is. */
  function TokenCost(tokens: int, perMillion: int): int {
    if tokens <= 0 || perMillion <= 0 then 0
    else
      var value := (tokens * perMillion + 999_999) / MILLION;
      if value <= MAX then value else MAX
  }

  function AddCost(left: int, right: int): int {
    if right > Wrap(MAX - left) then MAX else Wrap(left + right)
  }

  predicate IsCost(x: int) { 0 <= x <= MAX }

  function Saturated(x: int): int { if x <= MAX then x else MAX }

  lemma AddCostIs(a: int, b: int)
    requires IsCost(a) && IsCost(b)
    ensures AddCost(a, b) == Saturated(a + b) && IsCost(AddCost(a, b))
  {
  }

  /** On costs, the saturating sum is associative and commutative: the order of billing does not matter. */
  lemma AddCostIsAnySum(a: int, b: int, c: int)
    requires IsCost(a) && IsCost(b) && IsCost(c)
    ensures AddCost(a, b) == AddCost(b, a)
    ensures AddCost(AddCost(a, b), c) == AddCost(a, AddCost(b, c))
  {
    AddCostIs(a, b);
    AddCostIs(b, c);
    AddCostIs(AddCost(a, b), c);
    AddCostIs(a, AddCost(b, c));
    AddCostIs(b, a);
  }

  lemma Product(a: int, b: int, c: int, d: int)
    requires 0 <= a <= c && 0 <= b <= d
    ensures 0 <= a * b <= c * d
  {
    assert a * b <= c * b <= c * d;
  }

  /** What tokens come to before rounding, in millionths of a micro. */
  function Owed(tokens: int, perMillion: int): int {
    if tokens <= 0 || perMillion <= 0 then 0 else tokens * perMillion
  }

  lemma OwedIsNat(tokens: int, perMillion: int)
    ensures Owed(tokens, perMillion) >= 0
  {
    if tokens > 0 && perMillion > 0 { Product(0, 0, tokens, perMillion); }
  }

  /** The cost is the exact ceiling: a whole amount covers what is owed exactly when it is at least the cost. */
  lemma CostIsLeast(tokens: int, perMillion: int, amount: int)
    requires 0 <= amount < MAX
    ensures IsCost(TokenCost(tokens, perMillion))
    ensures TokenCost(tokens, perMillion) <= amount <==> Owed(tokens, perMillion) <= amount * MILLION
  {
    OwedIsNat(tokens, perMillion);
  }

  lemma CostIsCost(tokens: int, perMillion: int)
    ensures IsCost(TokenCost(tokens, perMillion))
  {
    OwedIsNat(tokens, perMillion);
  }

  lemma OwedIsMonotone(tokens: int, more: int, rate: int, higher: int)
    requires tokens <= more && rate <= higher
    ensures Owed(tokens, rate) <= Owed(more, higher)
  {
    OwedIsNat(more, higher);
    if tokens > 0 && rate > 0 { Product(tokens, rate, more, higher); }
  }

  lemma CostIsMonotone(tokens: int, more: int, rate: int, higher: int)
    requires tokens <= more && rate <= higher
    ensures TokenCost(tokens, rate) <= TokenCost(more, higher)
  {
    OwedIsMonotone(tokens, more, rate, higher);
    OwedIsNat(tokens, rate);
    assert TokenCost(tokens, rate) == Saturated((Owed(tokens, rate) + 999_999) / MILLION);
    assert TokenCost(more, higher) == Saturated((Owed(more, higher) + 999_999) / MILLION);
  }

  /** Two bills for what could have been one cost at most a micro more, and never less. */
  lemma SplitCostsAMicro(a: nat, b: nat, rate: int)
    ensures TokenCost(a + b, rate) <= AddCost(TokenCost(a, rate), TokenCost(b, rate)) <= AddCost(TokenCost(a + b, rate), 1)
  {
    CostIsCost(a, rate);
    CostIsCost(b, rate);
    CostIsCost(a + b, rate);
    AddCostIs(TokenCost(a, rate), TokenCost(b, rate));
    AddCostIs(TokenCost(a + b, rate), 1);
    OwedSplits(a, b, rate);
    assert TokenCost(a + b, rate) == Saturated((Owed(a + b, rate) + 999_999) / MILLION);
    assert TokenCost(a, rate) == Saturated((Owed(a, rate) + 999_999) / MILLION);
    assert TokenCost(b, rate) == Saturated((Owed(b, rate) + 999_999) / MILLION);
  }

  lemma OwedSplits(a: nat, b: nat, rate: int)
    ensures Owed(a + b, rate) == Owed(a, rate) + Owed(b, rate) && Owed(a, rate) >= 0 && Owed(b, rate) >= 0
  {
    OwedIsNat(a, rate);
    OwedIsNat(b, rate);
    assert (a + b) * rate == a * rate + b * rate;
  }

  // ---------------------------------------------------------------------------------------------
  // Usage
  // ---------------------------------------------------------------------------------------------

  /** Micros per million tokens; no cached rate means none is known, zero that cached input is free. */
  datatype Price = Price(input: int, output: int, cached: Option<int>)

  datatype Reason = PricingUnknown | EstimatedUsage | CacheUsageUnknown | CachePriceUnknown | ProviderUsage

  datatype CostDetails = CostDetails(unknown: bool, reason: Reason, discount: bool)

  predicate Unknown(price: Price) { price.input == 0 && price.output == 0 && price.cached.None? }

  /** How many prompt tokens are billed at the cached rate. */
  function CachedTokens(price: Price, reported: Option<int>, estimated: bool): int {
    if Unknown(price) || estimated || reported.None? || price.cached.None? then 0 else reported.value
  }

  function Details(price: Price, reported: Option<int>, estimated: bool): CostDetails {
    if Unknown(price) then CostDetails(true, PricingUnknown, false)
    else if estimated then CostDetails(false, EstimatedUsage, false)
    else if reported.None? then CostDetails(false, CacheUsageUnknown, false)
    else if price.cached.None? then CostDetails(false, CachePriceUnknown, false)
    else CostDetails(false, ProviderUsage, reported.value > 0)
  }

  function UsageCost(price: Price, prompt: int, completion: int, reported: Option<int>, estimated: bool): int {
    if Unknown(price) then 0
    else
      var cached := CachedTokens(price, reported, estimated);
      var cost := AddCost(TokenCost(Wrap(prompt - cached), price.input), TokenCost(completion, price.output));
      if cached > 0 then AddCost(cost, TokenCost(cached, price.cached.value)) else cost
  }

  /**
    The details say how the bill came about: a discount exactly if tokens were billed at the cached rate, an
    unknown cost exactly if there is no rate at all, and then nothing is billed.
   */
  lemma DetailsTellTheBill(price: Price, prompt: int, completion: int, reported: Option<int>, estimated: bool)
    ensures var d := Details(price, reported, estimated);
      && (d.discount <==> CachedTokens(price, reported, estimated) > 0)
      && (d.unknown <==> price.input == 0 && price.output == 0 && price.cached.None?)
      && (d.unknown ==> UsageCost(price, prompt, completion, reported, estimated) == 0)
      && (d.reason.ProviderUsage? <==> !estimated && reported.Some? && price.cached.Some?)
      && (d.reason.EstimatedUsage? <==> estimated && !d.unknown)
      && (d.reason.CachePriceUnknown? <==> !estimated && reported.Some? && price.cached.None? && !d.unknown)
      && (d.reason.PricingUnknown? <==> d.unknown)
  {
    hide TokenCost, AddCost;
  }

  lemma UsageCostIsCost(price: Price, prompt: int, completion: int, reported: Option<int>, estimated: bool)
    ensures IsCost(UsageCost(price, prompt, completion, reported, estimated))
  {
    var cached := CachedTokens(price, reported, estimated);
    CostIsCost(Wrap(prompt - cached), price.input);
    CostIsCost(completion, price.output);
    AddCostIs(TokenCost(Wrap(prompt - cached), price.input), TokenCost(completion, price.output));
    if cached > 0 {
      CostIsCost(cached, price.cached.value);
      AddCostIs(AddCost(TokenCost(Wrap(prompt - cached), price.input), TokenCost(completion, price.output)), TokenCost(cached, price.cached.value));
    }
  }

  /** Billing cached input apart, at no higher a rate, raises the cost by one micro at most. */
  lemma CachedBillingIsWithinAMicro(price: Price, prompt: int, completion: int, cached: int)
    requires 0 <= cached <= prompt <= MAX && price.cached.Some? && price.cached.value <= price.input
    ensures UsageCost(price, prompt, completion, Some(cached), false) <= AddCost(UsageCost(price, prompt, completion, None, false), 1)
  {
    hide TokenCost, AddCost, Owed;
    var rest := TokenCost(prompt - cached, price.input);
    var apart := TokenCost(cached, price.cached.value);
    var out := TokenCost(completion, price.output);
    SplitCostsAMicro(prompt - cached, cached, price.input);
    CostIsMonotone(cached, cached, price.cached.value, price.input);
    CostIsCost(prompt - cached, price.input);
    CostIsCost(cached, price.cached.value);
    CostIsCost(cached, price.input);
    CostIsCost(prompt, price.input);
    CostIsCost(completion, price.output);
    AddCostIs(rest, out);
    AddCostIs(AddCost(rest, out), apart);
    AddCostIs(rest, TokenCost(cached, price.input));
    AddCostIs(TokenCost(prompt, price.input), 1);
    AddCostIs(TokenCost(prompt, price.input), out);
    AddCostIs(AddCost(TokenCost(prompt, price.input), out), 1);
  }

  lemma Pennies()
    ensures TokenCost(1, 1) == 1 == TokenCost(2, 1) && TokenCost(0, 0) == 0
  {
  }

  /** The micro is real: two tokens at one micro per million, one of them cached, are billed two micros. */
  lemma CachedBillingCanCostMore()
    ensures UsageCost(Price(1, 0, Some(1)), 2, 0, Some(1), false) == 2 == UsageCost(Price(1, 0, Some(1)), 2, 0, None, false) + 1
  {
    hide TokenCost, AddCost;
    Pennies();
    AddCostIs(1, 0);
    AddCostIs(1, 1);
  }
}
