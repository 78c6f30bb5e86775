/** What the floored steps of one deposit, one repricing and one quote are worth. */
module PoolArithmetic {
  import opened Wrappers
  import opened FixedPoint
  import opened SharePool

  /**
   What a deposit always issues: a positive price, and shares worth at most the deposit, whose
   value at that price fits unless the price is one.
   */
  predicate Sound(r: Receipt) {
    && r.principal > 0
    && r.shares > 0
    && r.bias > 0
    && r.shares * r.bias <= r.principal * DIV
    && (r.bias == DIV || r.shares * r.bias <= MAX)
  }

  // ---------------------------------------------------------------------------
  // Deposits
  // ---------------------------------------------------------------------------

  lemma {:induction false} SharesNeverOverpriced(p: Pool, asset: u128)
    requires p.Live? && p.issued != 0 && p.bias > 0 && SharesFor(p, asset).Some?
    ensures SharesFor(p, asset).value * p.bias <= SaturatingFromInteger(asset) <= asset * DIV
  {
    var fixed := SaturatingFromInteger(asset);
    NestedFloor(fixed, p.bias, DIV);
    Floor(fixed, p.bias);
  }

  /** In range the two floorings are one: the shares are the largest the deposit can pay for. */
  lemma {:induction false} SharesAreMaximal(p: Pool, asset: u128)
    requires p.Live? && p.issued != 0 && p.bias > 0 && SharesFor(p, asset).Some?
    requires InRange(asset)
    ensures asset * DIV - SharesFor(p, asset).value * p.bias < p.bias
  {
    NestedFloor(asset * DIV, p.bias, DIV);
    Floor(asset * DIV, p.bias);
  }

  // ---------------------------------------------------------------------------
  // Quotes
  // ---------------------------------------------------------------------------

  /** The deposit-time value, capped, is worth no more than the shares at their base price. */
  lemma {:induction false} ValueAtMost(drained: bool, r: Receipt)
    ensures var fixed := SaturatingFromInteger(r.shares);
            (if drained then fixed else fixed * r.bias / DIV) <= r.shares * if drained then DIV else r.bias
  {
    var fixed := SaturatingFromInteger(r.shares);
    Floor(fixed * r.bias, DIV);
    MulMono(fixed, r.shares * DIV, r.bias);
    MulSwap(r.shares, DIV, r.bias);
  }

  /** A value at the base price, times the price change, is at most the value at the new price. */
  lemma {:induction false} RatioAtMost(value: nat, ratio: nat, shares: nat, base: nat, scaled: nat)
    requires value <= shares * base && ratio * base <= scaled
    ensures value * ratio <= shares * scaled
  {
    MulMono(value, shares * base, ratio);
    MulMono(ratio * base, scaled, shares);
    assert shares * base * ratio == ratio * base * shares;
  }

  /** The quote never exceeds the shares at the current price, saturated or not. */
  lemma {:induction false} QuoteAtMost(bias: u128, drained: bool, r: Receipt)
    requires r.bias > 0 && Quote(bias, drained, r).Some?
    ensures Quote(bias, drained, r).value * DIV <= r.shares * bias
  {
    var fixed := SaturatingFromInteger(r.shares);
    var base := if drained then DIV else r.bias;
    var value := if drained then fixed else fixed * r.bias / DIV;
    var ratio := bias * DIV / base;
    var product := value * ratio;
    ValueAtMost(drained, r);
    Floor(bias * DIV, base);
    RatioAtMost(value, ratio, r.shares, base, bias * DIV);
    MulSwap(r.shares, bias, DIV);
    FloorAtMost(product, DIV, r.shares * bias);
    Floor(product / DIV, DIV);
  }

  /** In range, after a drain, the quote is the shares at the current price, floored once. */
  lemma {:induction false} QuoteAfterDrain(bias: u128, r: Receipt)
    requires Sound(r) && InRange(r.shares) && Quote(bias, true, r).Some?
    ensures Quote(bias, true, r).value == r.shares * bias / DIV
  {
    FloorCancel(bias, DIV);
    MulSwap(r.shares, DIV, bias);
    FloorCancel(r.shares * bias, DIV);
  }

  /** Flooring the price ratio costs at most the value it is applied to. */
  lemma {:induction false} RatioLoss(shares: nat, base: nat, bias: nat, ratio: nat)
    requires bias * DIV < ratio * base + base
    ensures shares * bias * DIV <= shares * base * ratio + shares * base
  {
    MulMono(bias * DIV, ratio * base + base, shares);
    assert (ratio * base + base) * shares == shares * base * ratio + shares * base;
    assert bias * DIV * shares == shares * bias * DIV;
  }

  /** In range the deposit-time value is the shares at their price, not clamped and not floored. */
  lemma {:induction false} DepositValue(r: Receipt)
    requires InRange(r.shares)
    ensures SaturatingFromInteger(r.shares) * r.bias / DIV == r.shares * r.bias
  {
    MulSwap(r.shares, DIV, r.bias);
    FloorCancel(r.shares * r.bias, DIV);
  }

  lemma {:induction false} UndrainedLoss(bias: u128, r: Receipt)
    requires Sound(r) && InRange(r.shares) && Quote(bias, false, r).Some?
    ensures r.shares * bias - Quote(bias, false, r).value * DIV < DIV + r.principal
  {
    var ratio := bias * DIV / r.bias;
    DepositValue(r);
    Floor(bias * DIV, r.bias);
    RatioLoss(r.shares, r.bias, bias, ratio);
  }

  /** In range the two more floorings of an undrained quote lose less than `principal + DIV`. */
  lemma {:induction false} QuoteLossBounded(bias: u128, drained: bool, r: Receipt)
    requires Sound(r) && InRange(r.shares) && Quote(bias, drained, r).Some?
    ensures r.shares * bias - Quote(bias, drained, r).value * DIV < DIV + r.principal
  {
    if drained {
      QuoteAfterDrain(bias, r);
      Floor(r.shares * bias, DIV);
    } else {
      UndrainedLoss(bias, r);
    }
  }

  /** The deposit-time value of an issued receipt always fits. */
  lemma {:induction false} DepositValueFits(r: Receipt)
    requires Sound(r)
    ensures CheckedMul(SaturatingFromInteger(r.shares), r.bias).Some?
  {
    FloorCancel(SaturatingFromInteger(r.shares), DIV);
    ValueAtMost(false, r);
  }

  function BasePrice(drained: bool, r: Receipt): u128 {
    if drained then DIV else r.bias
  }

  /** The shares at the base price, as far as fixed point can hold them. */
  function BaseValue(drained: bool, r: Receipt): nat {
    SaturatingFromInteger(r.shares) * BasePrice(drained, r) / DIV
  }

  lemma {:induction false} BaseValueAtMost(drained: bool, r: Receipt)
    ensures BaseValue(drained, r) <= r.shares * BasePrice(drained, r)
  {
    ValueAtMost(drained, r);
    FloorCancel(SaturatingFromInteger(r.shares), DIV);
  }

  /** The price ratio fits, and so does the base value times that ratio. */
  predicate QuoteFits(bias: u128, drained: bool, r: Receipt)
    requires r.bias > 0
  {
    var ratio := bias * DIV / BasePrice(drained, r);
    (drained || ratio <= MAX) && BaseValue(drained, r) * ratio / DIV <= MAX
  }

  /** A quote of an issued receipt exists exactly when price ratio and value now fit. */
  lemma {:induction false} QuoteExists(bias: u128, drained: bool, r: Receipt)
    requires Sound(r)
    ensures Quote(bias, drained, r).Some? <==> QuoteFits(bias, drained, r)
  {
    DepositValueFits(r);
    FloorCancel(bias, DIV);
    FloorCancel(SaturatingFromInteger(r.shares), DIV);
  }

  lemma {:induction false} ProductFits(value: nat, shares: nat, base: nat, bias: nat)
    requires base > 0 && value <= shares * base
    ensures value * (bias * DIV / base) / DIV <= shares * bias
  {
    var ratio := bias * DIV / base;
    Floor(bias * DIV, base);
    RatioAtMost(value, ratio, shares, base, bias * DIV);
    MulSwap(shares, bias, DIV);
    FloorAtMost(value * ratio, DIV, shares * bias);
  }

  /** When price ratio and shares at the current price fit, the quote exists. */
  lemma {:induction false} QuoteDefined(bias: u128, drained: bool, r: Receipt)
    requires Sound(r)
    requires r.shares * bias <= MAX
    requires drained || bias * DIV / r.bias <= MAX
    ensures Quote(bias, drained, r).Some?
  {
    BaseValueAtMost(drained, r);
    ProductFits(BaseValue(drained, r), r.shares, BasePrice(drained, r), bias);
    QuoteExists(bias, drained, r);
  }

  lemma {:induction false} ChainMono(value: nat, low: nat, high: nat)
    requires low <= high
    ensures value * low / DIV / DIV <= value * high / DIV / DIV
  {
    MulMono(low, high, value);
    FloorMono(value * low, value * high, DIV);
  }

  /** A higher price never quotes less. */
  lemma {:induction false} QuoteMono(bias: u128, higher: u128, drained: bool, r: Receipt)
    requires r.bias > 0 && bias <= higher
    requires Quote(bias, drained, r).Some? && Quote(higher, drained, r).Some?
    ensures Quote(bias, drained, r).value <= Quote(higher, drained, r).value
  {
    var fixed := SaturatingFromInteger(r.shares);
    var base := if drained then DIV else r.bias;
    FloorMono(bias * DIV, higher * DIV, base);
    ChainMono(if drained then fixed else fixed * r.bias / DIV, bias * DIV / base, higher * DIV / base);
  }

  /** At price zero an issued receipt is worth zero. */
  lemma {:induction false} QuoteAtZero(drained: bool, r: Receipt)
    requires Sound(r)
    ensures Quote(0, drained, r) == Some(0)
  {
    DepositValueFits(r);
    FloorCancel(0, r.bias);
    FloorCancel(0, DIV);
  }
}
