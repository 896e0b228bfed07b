/** Catalog cost estimation in whole micro-dollars, with 64-bit saturating arithmetic written out. */
module Costs {
  import opened Wrappers

  const U64_MAX: int := 0xFFFF_FFFF_FFFF_FFFF
  const MILLION: int := 1_000_000

  type u64 = x: int | 0 <= x <= U64_MAX

  function Saturate(x: nat): (r: u64)
    ensures r <= x
  {
    if x > U64_MAX then U64_MAX else x
  }

  function SaturatingAdd(a: u64, b: u64): u64 {
    Saturate(a + b)
  }

  /** Disjoint buckets of one call's tokens. */
  datatype Usage = Usage(input: u64, output: u64, reasoning: u64, cacheRead: u64, cacheWrite: u64)

  /** Micro-dollars per million tokens. */
  datatype Rates = Rates(input: Option<u64>, output: Option<u64>, cachedInput: Option<u64>, cacheWrite: Option<u64>)

  datatype LongContext = LongContext(above: u64, rates: Rates)

  datatype Speed = Fast | Balanced | Economical

  datatype SpeedPricing = SpeedPricing(fast: Option<Rates>, balanced: Option<Rates>, economical: Option<Rates>)

  datatype Pricing = Pricing(base: Rates, longContext: Option<LongContext>, speed: Option<SpeedPricing>)

  // ---------------------------------------------------------------------------------------------
  // Choosing the rates
  // ---------------------------------------------------------------------------------------------

  function Override(rates: Rates, under: Rates): Rates {
    Rates(rates.input.Or(under.input), rates.output.Or(under.output),
          rates.cachedInput.Or(under.cachedInput), rates.cacheWrite.Or(under.cacheWrite))
  }

  function ForInputTokens(p: Pricing, tokens: u64): Pricing {
    if p.longContext.Some? && tokens > p.longContext.value.above
    then p.(base := Override(p.longContext.value.rates, p.base))
    else p
  }

  function RatesForSpeed(p: SpeedPricing, speed: Speed): Option<Rates> {
    match speed
    case Fast => p.fast
    case Balanced => p.balanced
    case Economical => p.economical
  }

  function ForSpeed(p: Pricing, speed: Option<Speed>): Pricing {
    if speed.Some? && p.speed.Some? && RatesForSpeed(p.speed.value, speed.value).Some?
    then p.(base := Override(RatesForSpeed(p.speed.value, speed.value).value, p.base))
    else p
  }

  /** The whole prompt: new input and both cache buckets. */
  function Prompt(u: Usage): u64 {
    SaturatingAdd(SaturatingAdd(u.input, u.cacheRead), u.cacheWrite)
  }

  function BillableOutput(u: Usage): u64 {
    SaturatingAdd(u.output, u.reasoning)
  }

  /** A missing cache-write rate, when the provider bills writes at a quarter more than input. */
  function DerivedWriteRate(input: Option<u64>): Option<u64> {
    match input
    case Some(rate) => Some(Saturate(rate * 5) / 4)
    case None => None
  }

  // ---------------------------------------------------------------------------------------------
  // The estimate
  // ---------------------------------------------------------------------------------------------

  function TokenCost(tokens: u64, price: Option<u64>): u64 {
    match price
    case None => 0
    case Some(rate) =>
      ProductIsNat(tokens, rate);
      Saturate(tokens * rate / MILLION)
  }

  lemma ProductIsNat(a: nat, b: nat)
    ensures a * b >= 0 && a * b / MILLION >= 0
  {}

  function CatalogCost(u: Usage, pricing: Option<Pricing>, speed: Option<Speed>, anthropic: bool): Option<u64> {
    if pricing.None? then None
    else
      var rates := ForSpeed(ForInputTokens(pricing.value, Prompt(u)), speed).base;
      var writeRate := rates.cacheWrite.Or(if anthropic then DerivedWriteRate(rates.input) else None);
      if u.input > 0 && rates.input.None? then None
      else if u.cacheRead > 0 && rates.cachedInput.None? then None
      else if u.cacheWrite > 0 && writeRate.None? then None
      else if BillableOutput(u) > 0 && rates.output.None? then None
      else
        Some(SaturatingAdd(
               SaturatingAdd(
                 SaturatingAdd(TokenCost(u.input, rates.input), TokenCost(u.cacheRead, rates.cachedInput)),
                 TokenCost(u.cacheWrite, writeRate)),
               TokenCost(BillableOutput(u), rates.output)))
  }

  // ---------------------------------------------------------------------------------------------
  // Which rate each bucket pays
  // ---------------------------------------------------------------------------------------------

  datatype Bucket = Input | CacheRead | CacheWrite | Output

  function Tokens(u: Usage, b: Bucket): u64 {
    match b
    case Input => u.input
    case CacheRead => u.cacheRead
    case CacheWrite => u.cacheWrite
    case Output => BillableOutput(u)
  }

  function RateIn(rates: Rates, b: Bucket): Option<u64> {
    match b
    case Input => rates.input
    case CacheRead => rates.cachedInput
    case CacheWrite => rates.cacheWrite
    case Output => rates.output
  }

  /** The speed's own rate, else the long-context rate when the prompt is past the threshold, else the base rate. */
  function ListedRate(p: Pricing, isLong: bool, speed: Option<Speed>, b: Bucket): Option<u64> {
    var bySpeed :=
      if speed.Some? && p.speed.Some? && RatesForSpeed(p.speed.value, speed.value).Some?
      then RateIn(RatesForSpeed(p.speed.value, speed.value).value, b) else None;
    var byLength := if isLong && p.longContext.Some? then RateIn(p.longContext.value.rates, b) else None;
    bySpeed.Or(byLength.Or(RateIn(p.base, b)))
  }

  /** The listed rate, or five quarters of the listed input rate for an unlisted Anthropic cache write. */
  function PaidRate(p: Pricing, isLong: bool, speed: Option<Speed>, anthropic: bool, b: Bucket): Option<u64> {
    ListedRate(p, isLong, speed, b)
    .Or(if b == CacheWrite && anthropic then DerivedWriteRate(ListedRate(p, isLong, speed, Input)) else None)
  }

  predicate IsLong(p: Pricing, u: Usage) {
    p.longContext.Some? && Prompt(u) > p.longContext.value.above
  }

  function BucketMicros(tokens: u64, rate: Option<u64>): nat {
    if rate.None? then 0 else (ProductIsNat(tokens, rate.value); tokens * rate.value / MILLION)
  }

  function TotalMicros(u: Usage, p: Pricing, isLong: bool, speed: Option<Speed>, anthropic: bool): nat {
    BucketMicros(u.input, PaidRate(p, isLong, speed, anthropic, Input))
    + BucketMicros(u.cacheRead, PaidRate(p, isLong, speed, anthropic, CacheRead))
    + BucketMicros(u.cacheWrite, PaidRate(p, isLong, speed, anthropic, CacheWrite))
    + BucketMicros(BillableOutput(u), PaidRate(p, isLong, speed, anthropic, Output))
  }

  ghost predicate AllPriced(u: Usage, p: Pricing, isLong: bool, speed: Option<Speed>, anthropic: bool) {
    forall b: Bucket :: Tokens(u, b) > 0 ==> PaidRate(p, isLong, speed, anthropic, b).Some?
  }

  lemma RatesResolve(p: Pricing, u: Usage, speed: Option<Speed>, b: Bucket)
    ensures RateIn(ForSpeed(ForInputTokens(p, Prompt(u)), speed).base, b) == ListedRate(p, IsLong(p, u), speed, b)
  {}

  lemma SaturationsCollapse(a: nat, b: nat, c: nat, d: nat)
    ensures SaturatingAdd(SaturatingAdd(SaturatingAdd(Saturate(a), Saturate(b)), Saturate(c)), Saturate(d)) ==
            Saturate(a + b + c + d)
  {
    hide Saturate, SaturatingAdd;
    SaturationsMerge(a, b);
    SaturationsMerge(a + b, c);
    SaturationsMerge(a + b + c, d);
  }

  lemma SaturationsMerge(a: nat, b: nat)
    ensures SaturatingAdd(Saturate(a), Saturate(b)) == Saturate(a + b)
  {}

  lemma TokenCostIs(tokens: u64, rate: Option<u64>)
    ensures TokenCost(tokens, rate) == Saturate(BucketMicros(tokens, rate))
  {}

  /**
   * An estimate exists exactly when every non-empty bucket has a rate, where a rate is the speed's,
   * else the long-context one, else the base one, with the Anthropic cache-write derivation last. It
   * is then the sum of the buckets' own floors, capped once.
   */
  lemma EstimateIs(u: Usage, p: Pricing, speed: Option<Speed>, anthropic: bool)
    ensures
      var isLong := IsLong(p, u);
      CatalogCost(u, Some(p), speed, anthropic) ==
      if AllPriced(u, p, isLong, speed, anthropic) then Some(Saturate(TotalMicros(u, p, isLong, speed, anthropic)))
      else None
  {
    hide ListedRate, BucketMicros, TokenCost, Saturate, SaturatingAdd, DerivedWriteRate;
    var isLong := IsLong(p, u);
    var rates := ForSpeed(ForInputTokens(p, Prompt(u)), speed).base;
    RatesResolve(p, u, speed, Input);
    RatesResolve(p, u, speed, CacheRead);
    RatesResolve(p, u, speed, CacheWrite);
    RatesResolve(p, u, speed, Output);
    EstimateFromRates(u, p, isLong, speed, anthropic, rates);
  }

  lemma EstimateFromRates(u: Usage, p: Pricing, isLong: bool, speed: Option<Speed>, anthropic: bool, rates: Rates)
    requires forall b: Bucket :: RateIn(rates, b) == ListedRate(p, isLong, speed, b)
    requires rates == ForSpeed(ForInputTokens(p, Prompt(u)), speed).base
    ensures CatalogCost(u, Some(p), speed, anthropic) ==
      if AllPriced(u, p, isLong, speed, anthropic) then Some(Saturate(TotalMicros(u, p, isLong, speed, anthropic)))
      else None
  {
    hide ListedRate, BucketMicros, TokenCost, Saturate, SaturatingAdd, DerivedWriteRate, ForSpeed, ForInputTokens, BillableOutput;
    var writeRate := rates.cacheWrite.Or(if anthropic then DerivedWriteRate(rates.input) else None);
    assert RateIn(rates, Input) == rates.input && RateIn(rates, CacheRead) == rates.cachedInput;
    assert RateIn(rates, CacheWrite) == rates.cacheWrite && RateIn(rates, Output) == rates.output;
    assert PaidRate(p, isLong, speed, anthropic, Input) == rates.input;
    assert PaidRate(p, isLong, speed, anthropic, CacheRead) == rates.cachedInput;
    assert PaidRate(p, isLong, speed, anthropic, CacheWrite) == writeRate;
    assert PaidRate(p, isLong, speed, anthropic, Output) == rates.output;
    assert Tokens(u, Input) == u.input && Tokens(u, CacheRead) == u.cacheRead;
    assert Tokens(u, CacheWrite) == u.cacheWrite && Tokens(u, Output) == BillableOutput(u);
    TokenCostIs(u.input, rates.input);
    TokenCostIs(u.cacheRead, rates.cachedInput);
    TokenCostIs(u.cacheWrite, writeRate);
    TokenCostIs(BillableOutput(u), rates.output);
    SaturationsCollapse(BucketMicros(u.input, rates.input), BucketMicros(u.cacheRead, rates.cachedInput),
                        BucketMicros(u.cacheWrite, writeRate), BucketMicros(BillableOutput(u), rates.output));
  }

  /**
   * The long-context tier is decided by the whole prompt, cache buckets included; saturating the sum
   * changes the decision only for a threshold at the very ceiling.
   */
  lemma TierIsDecidedByTheWholePrompt(p: Pricing, u: Usage)
    requires p.longContext.Some? && p.longContext.value.above < U64_MAX
    ensures IsLong(p, u) <==> u.input + u.cacheRead + u.cacheWrite > p.longContext.value.above
  {}

  /** The derived write rate is five quarters of the input rate, rounded down. */
  lemma DerivedRateIsFiveQuarters(rate: u64)
    requires rate * 5 <= U64_MAX
    ensures DerivedWriteRate(Some(rate)).Some?
    ensures 4 * DerivedWriteRate(Some(rate)).value <= 5 * rate < 4 * (DerivedWriteRate(Some(rate)).value + 1)
  {}

  // ---------------------------------------------------------------------------------------------
  // Accuracy
  // ---------------------------------------------------------------------------------------------

  /** The exact price of one bucket, in millionths of a micro-dollar. */
  function BucketExact(tokens: nat, rate: Option<u64>): nat {
    if rate.None? then 0 else (ProductIsNat(tokens, rate.value); tokens * rate.value)
  }

  function ExactTotal(u: Usage, p: Pricing, isLong: bool, speed: Option<Speed>, anthropic: bool): nat {
    BucketExact(u.input, PaidRate(p, isLong, speed, anthropic, Input))
    + BucketExact(u.cacheRead, PaidRate(p, isLong, speed, anthropic, CacheRead))
    + BucketExact(u.cacheWrite, PaidRate(p, isLong, speed, anthropic, CacheWrite))
    + BucketExact(u.output + u.reasoning, PaidRate(p, isLong, speed, anthropic, Output))
  }

  lemma BucketIsAccurate(tokens: u64, rate: Option<u64>)
    ensures BucketMicros(tokens, rate) * MILLION <= BucketExact(tokens, rate)
    ensures BucketExact(tokens, rate) < (BucketMicros(tokens, rate) + 1) * MILLION
  {}

  /**
   * The estimate is within four micro-dollars of the exact price: never above it, and less than four
   * below it, unless the result or the billable output hit the 64-bit ceiling.
   */
  lemma EstimateIsAccurate(u: Usage, p: Pricing, speed: Option<Speed>, anthropic: bool)
    requires CatalogCost(u, Some(p), speed, anthropic).Some?
    requires u.output + u.reasoning <= U64_MAX
    ensures
      var cost := CatalogCost(u, Some(p), speed, anthropic).value;
      var exact := ExactTotal(u, p, IsLong(p, u), speed, anthropic);
      && cost * MILLION <= exact
      && (cost < U64_MAX ==> exact < (cost + 4) * MILLION)
  {
    hide PaidRate, BucketMicros, BucketExact;
    var isLong := IsLong(p, u);
    EstimateIs(u, p, speed, anthropic);
    BucketIsAccurate(u.input, PaidRate(p, isLong, speed, anthropic, Input));
    BucketIsAccurate(u.cacheRead, PaidRate(p, isLong, speed, anthropic, CacheRead));
    BucketIsAccurate(u.cacheWrite, PaidRate(p, isLong, speed, anthropic, CacheWrite));
    BucketIsAccurate(BillableOutput(u), PaidRate(p, isLong, speed, anthropic, Output));
  }

  // ---------------------------------------------------------------------------------------------
  // Splitting a bill
  // ---------------------------------------------------------------------------------------------

  predicate Addable(u: Usage, v: Usage) {
    && u.input + v.input <= U64_MAX
    && u.cacheRead + v.cacheRead <= U64_MAX
    && u.cacheWrite + v.cacheWrite <= U64_MAX
    && u.output + v.output + u.reasoning + v.reasoning <= U64_MAX
  }

  /** Both calls together. */
  function Plus(u: Usage, v: Usage): Usage
    requires Addable(u, v)
  {
    Usage(u.input + v.input, u.output + v.output, u.reasoning + v.reasoning,
          u.cacheRead + v.cacheRead, u.cacheWrite + v.cacheWrite)
  }

  lemma BucketsAdd(s: u64, t: u64, rate: Option<u64>)
    requires s + t <= U64_MAX
    ensures BucketMicros(s, rate) + BucketMicros(t, rate) <= BucketMicros(s + t, rate)
    ensures BucketMicros(s + t, rate) <= BucketMicros(s, rate) + BucketMicros(t, rate) + 1
  {}

  lemma TotalsAdd(u: Usage, v: Usage, p: Pricing, isLong: bool, speed: Option<Speed>, anthropic: bool)
    requires Addable(u, v)
    ensures
      var apart := TotalMicros(u, p, isLong, speed, anthropic) + TotalMicros(v, p, isLong, speed, anthropic);
      apart <= TotalMicros(Plus(u, v), p, isLong, speed, anthropic) <= apart + 4
  {
    hide PaidRate, BucketMicros;
    BucketsAdd(u.input, v.input, PaidRate(p, isLong, speed, anthropic, Input));
    BucketsAdd(u.cacheRead, v.cacheRead, PaidRate(p, isLong, speed, anthropic, CacheRead));
    BucketsAdd(u.cacheWrite, v.cacheWrite, PaidRate(p, isLong, speed, anthropic, CacheWrite));
    BucketsAdd(BillableOutput(u), BillableOutput(v), PaidRate(p, isLong, speed, anthropic, Output));
  }

  lemma PricedTogether(u: Usage, v: Usage, p: Pricing, isLong: bool, speed: Option<Speed>, anthropic: bool)
    requires Addable(u, v)
    ensures AllPriced(Plus(u, v), p, isLong, speed, anthropic) <==>
            AllPriced(u, p, isLong, speed, anthropic) && AllPriced(v, p, isLong, speed, anthropic)
  {}

  /**
   * Within one rate tier, billing two calls together or apart differs by at most four micro-dollars,
   * apart never being dearer, and one can be priced exactly when the other can.
   */
  lemma SplittingABill(u: Usage, v: Usage, p: Pricing, speed: Option<Speed>, anthropic: bool)
    requires Addable(u, v)
    requires IsLong(p, u) == IsLong(p, v) == IsLong(p, Plus(u, v))
    ensures
      var apart := (CatalogCost(u, Some(p), speed, anthropic), CatalogCost(v, Some(p), speed, anthropic));
      var together := CatalogCost(Plus(u, v), Some(p), speed, anthropic);
      && (together.Some? <==> apart.0.Some? && apart.1.Some?)
      && (together.Some? && together.value < U64_MAX ==>
            apart.0.value + apart.1.value <= together.value <= apart.0.value + apart.1.value + 4)
      && (together.Some? && together.value == U64_MAX ==> apart.0.value + apart.1.value + 4 >= U64_MAX)
  {
    hide TotalMicros, AllPriced, CatalogCost, IsLong, Plus, Addable;
    var isLong := IsLong(p, u);
    EstimateIs(u, p, speed, anthropic);
    EstimateIs(v, p, speed, anthropic);
    EstimateIs(Plus(u, v), p, speed, anthropic);
    TotalsAdd(u, v, p, isLong, speed, anthropic);
    PricedTogether(u, v, p, isLong, speed, anthropic);
  }

  /** How much a bill changes when it is priced at another tier. */
  function TierShift(u: Usage, p: Pricing, isLong: bool, speed: Option<Speed>, anthropic: bool): int {
    TotalMicros(u, p, isLong, speed, anthropic) - TotalMicros(u, p, IsLong(p, u), speed, anthropic)
  }

  /** Every rate short prompts pay has a counterpart for long ones. */
  lemma LongerIsPriced(u: Usage, p: Pricing, isLong: bool, speed: Option<Speed>, anthropic: bool)
    requires AllPriced(u, p, IsLong(p, u), speed, anthropic) && (IsLong(p, u) ==> isLong)
    ensures AllPriced(u, p, isLong, speed, anthropic)
  {
    forall b: Bucket | Tokens(u, b) > 0
      ensures PaidRate(p, isLong, speed, anthropic, b).Some?
    {
      assert PaidRate(p, IsLong(p, u), speed, anthropic, b).Some?;
    }
  }

  lemma TogetherIsLonger(u: Usage, v: Usage, p: Pricing)
    requires Addable(u, v)
    ensures IsLong(p, u) || IsLong(p, v) ==> IsLong(p, Plus(u, v))
  {}

  /**
   * Across tiers too, what billing together adds is known to within four micro-dollars: it is what each
   * call's own bill would change by at the tier the two reach together. The one-tier bound therefore
   * survives whenever those changes cancel out, and never when they come to more than four either way.
   * Two calls that can be priced apart can be priced together.
   */
  lemma SplittingABillAcrossTiers(u: Usage, v: Usage, p: Pricing, speed: Option<Speed>, anthropic: bool)
    requires Addable(u, v)
    ensures
      var apart := (CatalogCost(u, Some(p), speed, anthropic), CatalogCost(v, Some(p), speed, anthropic));
      var together := CatalogCost(Plus(u, v), Some(p), speed, anthropic);
      var isLong := IsLong(p, Plus(u, v));
      var shift := TierShift(u, p, isLong, speed, anthropic) + TierShift(v, p, isLong, speed, anthropic);
      apart.0.Some? && apart.1.Some? ==>
        && together.Some?
        && (apart.0.value < U64_MAX && apart.1.value < U64_MAX && together.value < U64_MAX ==>
              var sum := apart.0.value + apart.1.value;
              && sum + shift <= together.value <= sum + shift + 4
              && (shift == 0 ==> sum <= together.value <= sum + 4)
              && (sum <= together.value <= sum + 4 ==> -4 <= shift <= 4))
  {
    TogetherIsLonger(u, v, p);
    hide TotalMicros, AllPriced, CatalogCost, IsLong, Plus, Addable;
    var isLong := IsLong(p, Plus(u, v));
    EstimateIs(u, p, speed, anthropic);
    EstimateIs(v, p, speed, anthropic);
    EstimateIs(Plus(u, v), p, speed, anthropic);
    TotalsAdd(u, v, p, isLong, speed, anthropic);
    PricedTogether(u, v, p, isLong, speed, anthropic);
    if AllPriced(u, p, IsLong(p, u), speed, anthropic) && AllPriced(v, p, IsLong(p, v), speed, anthropic) {
      LongerIsPriced(u, p, isLong, speed, anthropic);
      LongerIsPriced(v, p, isLong, speed, anthropic);
    }
  }

  /** One micro-dollar an input token, and nine past a hundred tokens of prompt. */
  const STEEP: Pricing :=
    Pricing(Rates(Some(1_000_000), None, None, None), Some(LongContext(100, Rates(Some(9_000_000), None, None, None))), None)

  function InputOnly(tokens: u64): Usage {
    Usage(tokens, 0, 0, 0, 0)
  }

  lemma SteepCost(tokens: u64, speed: Option<Speed>, anthropic: bool)
    ensures CatalogCost(InputOnly(tokens), Some(STEEP), speed, anthropic) ==
            Some(Saturate(if tokens > 100 then 9 * tokens else tokens))
  {
    hide CatalogCost, Saturate;
    var u := InputOnly(tokens);
    var isLong := IsLong(STEEP, u);
    EstimateIs(u, STEEP, speed, anthropic);
    assert isLong <==> tokens > 100 by { SteepTier(tokens); }
    assert PaidRate(STEEP, isLong, speed, anthropic, Input) == Some(if isLong then 9_000_000 else 1_000_000);
    WholeRate(tokens, 1);
    WholeRate(tokens, 9);
    NothingElse(u, STEEP, isLong, speed, anthropic);
  }

  lemma SteepTier(tokens: u64)
    ensures IsLong(STEEP, InputOnly(tokens)) <==> tokens > 100
  {}

  lemma WholeRate(tokens: u64, micros: nat)
    requires micros * MILLION <= U64_MAX
    ensures BucketMicros(tokens, Some(micros * MILLION)) == micros * tokens
  {
    assert tokens * (micros * MILLION) == (micros * tokens) * MILLION;
  }

  /** A call of new input alone is priced by its input rate alone. */
  lemma NothingElse(u: Usage, p: Pricing, isLong: bool, speed: Option<Speed>, anthropic: bool)
    requires u.cacheRead == u.cacheWrite == u.output == u.reasoning == 0
    ensures TotalMicros(u, p, isLong, speed, anthropic) == BucketMicros(u.input, PaidRate(p, isLong, speed, anthropic, Input))
    ensures PaidRate(p, isLong, speed, anthropic, Input).Some? ==> AllPriced(u, p, isLong, speed, anthropic)
  {
    hide PaidRate;
  }

  /** Across tiers the bound does not hold: a long prompt can cost far more than its two halves. */
  lemma TiersBreakTheBound(half: Usage, apart: u64, together: u64, speed: Option<Speed>, anthropic: bool)
    requires half == InputOnly(100) && apart == 100 && together == 1800
    ensures Addable(half, half)
    ensures CatalogCost(half, Some(STEEP), speed, anthropic) == Some(apart)
    ensures CatalogCost(Plus(half, half), Some(STEEP), speed, anthropic) == Some(together)
  {
    hide CatalogCost;
    SteepCost(100, speed, anthropic);
    SteepCost(200, speed, anthropic);
    assert Plus(half, half) == InputOnly(200);
  }

  /** Cached tokens without a rate of their own are not priced as input: there is no estimate at all. */
  lemma UnpricedCacheIsNotEstimated(cached: u64, speed: Option<Speed>, anthropic: bool)
    requires cached > 0
    ensures CatalogCost(Usage(0, 0, 0, cached, 0), Some(STEEP), speed, anthropic) == None
    ensures CatalogCost(Usage(0, 0, 0, 0, cached), Some(STEEP), speed, false) == None
  {
    hide CatalogCost;
    var read, written := Usage(0, 0, 0, cached, 0), Usage(0, 0, 0, 0, cached);
    EstimateIs(read, STEEP, speed, anthropic);
    EstimateIs(written, STEEP, speed, false);
    assert PaidRate(STEEP, IsLong(STEEP, read), speed, anthropic, CacheRead) == None && Tokens(read, CacheRead) > 0;
    assert PaidRate(STEEP, IsLong(STEEP, written), speed, false, CacheWrite) == None && Tokens(written, CacheWrite) > 0;
  }
}
