/** What a call costs, written out from the price list: which list applies, and the sum it comes to. */
module Bills {
  import opened Wrappers
  import opened Costs

  /** The largest amount there is. */
  function Capped(x: nat): u64 {
    if x > 18446744073709551615 then 18446744073709551615 else x
  }

  /** So many tokens at so much a million, rounded down. */
  function PerMillion(tokens: nat, rate: nat): nat {
    ProductIsNat(tokens, rate);
    tokens * rate / 1_000_000
  }

  function FirstOf(a: Option<u64>, b: Option<u64>, c: Option<u64>): Option<u64> {
    if a.Some? then a else if b.Some? then b else c
  }

  /** One price list and nothing else. */
  function Flat(rates: Rates): Option<Pricing> {
    Some(Pricing(rates, None, None))
  }

  const NO_RATES: Rates := Rates(None, None, None, None)

  lemma FlatRates(rates: Rates, isLong: bool, speed: Option<Speed>, b: Bucket)
    ensures ListedRate(Pricing(rates, None, None), isLong, speed, b) == RateIn(rates, b)
    ensures forall u :: !IsLong(Pricing(rates, None, None), u)
  {}

  /**
   * Under one full price list each kind of token pays its own rate per million, rounded down: new input,
   * cached input, cache writes, and output with reasoning.
   */
  lemma FlatBill(u: Usage, input: u64, output: u64, cached: u64, write: u64, speed: Option<Speed>, anthropic: bool)
    ensures
      var price := Flat(Rates(Some(input), Some(output), Some(cached), Some(write)));
      CatalogCost(u, price, speed, anthropic) ==
      Some(Capped(PerMillion(u.input, input) + PerMillion(u.cacheRead, cached) + PerMillion(u.cacheWrite, write)
                  + PerMillion(Capped(u.output + u.reasoning), output)))
  {
    var rates := Rates(Some(input), Some(output), Some(cached), Some(write));
    var p := Pricing(rates, None, None);
    EstimateIs(u, p, speed, anthropic);
    var isLong := IsLong(p, u);
    FlatRates(rates, isLong, speed, Input);
    FlatRates(rates, isLong, speed, Output);
    FlatRates(rates, isLong, speed, CacheRead);
    FlatRates(rates, isLong, speed, CacheWrite);
    hide ListedRate, CatalogCost, BucketMicros, PerMillion;
    assert PaidRate(p, isLong, speed, anthropic, Input) == Some(input);
    assert PaidRate(p, isLong, speed, anthropic, Output) == Some(output);
    assert PaidRate(p, isLong, speed, anthropic, CacheRead) == Some(cached);
    assert PaidRate(p, isLong, speed, anthropic, CacheWrite) == Some(write);
    BucketIs(u.input, input);
    BucketIs(u.cacheRead, cached);
    BucketIs(u.cacheWrite, write);
    BucketIs(BillableOutput(u), output);
    hide PaidRate;
    assert AllPriced(u, p, isLong, speed, anthropic);
  }

  lemma BucketIs(tokens: u64, rate: u64)
    ensures BucketMicros(tokens, Some(rate)) == PerMillion(tokens, rate)
  {}

  /** Two price lists that pay alike bucket by bucket cost the same. */
  lemma SamePaySameCost(u: Usage, p: Pricing, q: Pricing, speed: Option<Speed>, other: Option<Speed>, anthropic: bool, same: bool)
    requires forall b: Bucket :: PaidRate(p, IsLong(p, u), speed, anthropic, b) == PaidRate(q, IsLong(q, u), other, same, b)
    ensures CatalogCost(u, Some(p), speed, anthropic) == CatalogCost(u, Some(q), other, same)
  {
    EstimateIs(u, p, speed, anthropic);
    EstimateIs(u, q, other, same);
    hide CatalogCost, PaidRate, BucketMicros;
    assert AllPriced(u, p, IsLong(p, u), speed, anthropic) <==> AllPriced(u, q, IsLong(q, u), other, same);
  }

  /**
   * The list a call pays by: each rate is the one of its own speed, else the long-context one when the
   * whole prompt is past the threshold, else the base one.
   */
  lemma ListIsChosen(u: Usage, p: Pricing, speed: Option<Speed>, bySpeed: Rates, byLength: Rates, anthropic: bool)
    requires
      || (bySpeed == NO_RATES && (speed.None? || p.speed.None?))
      || (speed == Some(Fast) && p.speed.Some? && p.speed.value.fast.GetOr(NO_RATES) == bySpeed)
      || (speed == Some(Balanced) && p.speed.Some? && p.speed.value.balanced.GetOr(NO_RATES) == bySpeed)
      || (speed == Some(Economical) && p.speed.Some? && p.speed.value.economical.GetOr(NO_RATES) == bySpeed)
    requires
      || (byLength == NO_RATES && p.longContext.None?)
      || (p.longContext.Some? && p.longContext.value.above < 18446744073709551615
          && byLength == if u.input + u.cacheRead + u.cacheWrite > p.longContext.value.above
                         then p.longContext.value.rates else NO_RATES)
    ensures
      var paid := Rates(FirstOf(bySpeed.input, byLength.input, p.base.input),
                        FirstOf(bySpeed.output, byLength.output, p.base.output),
                        FirstOf(bySpeed.cachedInput, byLength.cachedInput, p.base.cachedInput),
                        FirstOf(bySpeed.cacheWrite, byLength.cacheWrite, p.base.cacheWrite));
      CatalogCost(u, Some(p), speed, anthropic) == CatalogCost(u, Flat(paid), None, anthropic)
  {
    var paid := Rates(FirstOf(bySpeed.input, byLength.input, p.base.input),
                      FirstOf(bySpeed.output, byLength.output, p.base.output),
                      FirstOf(bySpeed.cachedInput, byLength.cachedInput, p.base.cachedInput),
                      FirstOf(bySpeed.cacheWrite, byLength.cacheWrite, p.base.cacheWrite));
    var q := Pricing(paid, None, None);
    if p.longContext.Some? {
      TierIsDecidedByTheWholePrompt(p, u);
    }
    forall b: Bucket
      ensures ListedRate(p, IsLong(p, u), speed, b) == RateIn(paid, b)
    {
      hide Prompt;
    }
    forall b: Bucket
      ensures ListedRate(q, IsLong(q, u), None, b) == RateIn(paid, b)
    {
      FlatRates(paid, IsLong(q, u), None, b);
    }
    hide ListedRate, IsLong;
    SamePaySameCost(u, p, q, speed, None, anthropic, anthropic);
  }

  /** A provider that bills cache writes at a quarter more than input, where its list has no rate for them: as if the list had that rate. */
  lemma UnlistedWritesPayAQuarterMore(u: Usage, input: u64, output: Option<u64>, cached: Option<u64>)
    ensures CatalogCost(u, Flat(Rates(Some(input), output, cached, None)), None, true) ==
            CatalogCost(u, Flat(Rates(Some(input), output, cached, Some(Capped(5 * input) / 4))), None, false)
  {
    var p, q := Pricing(Rates(Some(input), output, cached, None), None, None),
                Pricing(Rates(Some(input), output, cached, Some(Capped(5 * input) / 4)), None, None);
    assert DerivedWriteRate(Some(input)) == Some(Capped(5 * input) / 4);
    SamePaySameCost(u, p, q, None, None, true, false);
  }

  /** Without a price for some kind of token that was used there is no cost, whatever the rest would come to. */
  lemma UnpricedTokensHaveNoCost(u: Usage, rates: Rates)
    ensures CatalogCost(u, Flat(rates), None, false).Some? <==>
      && (u.input > 0 ==> rates.input.Some?)
      && (u.cacheRead > 0 ==> rates.cachedInput.Some?)
      && (u.cacheWrite > 0 ==> rates.cacheWrite.Some?)
      && (u.output + u.reasoning > 0 ==> rates.output.Some?)
  {
    var p := Pricing(rates, None, None);
    var isLong := IsLong(p, u);
    EstimateIs(u, p, None, false);
    hide CatalogCost, TotalMicros, IsLong;
    forall b: Bucket
      ensures PaidRate(p, isLong, None, false, b) == RateIn(rates, b)
    {
      FlatRates(rates, isLong, None, b);
    }
    hide PaidRate;
    assert BillableOutput(u) > 0 <==> u.output + u.reasoning > 0;
    assert Tokens(u, Input) == u.input && Tokens(u, CacheRead) == u.cacheRead;
    assert Tokens(u, CacheWrite) == u.cacheWrite && Tokens(u, Output) == BillableOutput(u);
  }
}
