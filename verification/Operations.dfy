/**
 What each operation of the pool does, for every pool, amount and receipt: every floor is the
 inequality that pins it down, and every error its condition on the amounts.
 */
module Operations {
  import opened Wrappers
  import opened FixedPoint
  import opened SharePool

  /** `n` is `x / y` rounded down. */
  predicate FloorOf(n: nat, x: nat, y: nat) {
    n * y <= x < (n + 1) * y
  }

  lemma {:induction false} FloorIs(n: nat, x: nat, y: nat)
    requires y > 0 && FloorOf(n, x, y)
    ensures x / y == n
  {
    FloorAtLeast(x, y, n);
    FloorAtMost(x, y, n);
  }

  /** A quotient fits exactly when the dividend is below `MAX + 1` divisors. */
  lemma {:induction false} QuotientFits(x: nat, y: nat)
    requires y > 0
    ensures x / y <= MAX <==> x < (MAX + 1) * y
  {
    if x < (MAX + 1) * y {
      FloorAtMost(x, y, MAX);
    } else {
      FloorAtLeast(x, y, MAX + 1);
    }
  }

  // ---------------------------------------------------------------------------
  // Deposit
  // ---------------------------------------------------------------------------

  function Opened(pool: Pool): Pool {
    if pool.Fresh? then Live(0, 0, DIV, 0, 0) else pool
  }

  /** One share an asset in an empty pool, else as many whole shares as the clamped amount pays for. */
  predicate Buys(p: Pool, asset: u128, shares: nat)
    requires p.Live?
  {
    if p.issued == 0 then shares == asset else FloorOf(shares, Saturate(asset * DIV), p.bias)
  }

  predicate Derivable(p: Pool, asset: u128)
    requires p.Live?
  {
    p.issued == 0 || Saturate(asset * DIV) * DIV < (MAX + 1) * p.bias
  }

  lemma {:induction false} SharesBought(p: Pool, asset: u128, shares: nat)
    requires p.Live? && p.bias > 0 && Buys(p, asset, shares)
    ensures SharesFor(p, asset).Some? <==> Derivable(p, asset)
    ensures SharesFor(p, asset).Some? ==> SharesFor(p, asset).value == shares
  {
    if p.issued != 0 {
      var fixed := Saturate(asset * DIV);
      QuotientFits(fixed * DIV, p.bias);
      NestedFloor(fixed, p.bias, DIV);
      FloorIs(shares, fixed, p.bias);
    }
  }

  /** A deposit of any amount into any pool: its receipt, the new pool, or which error. */
  lemma {:induction false} DepositOutcome(pool: Pool, asset: u128, shares: nat)
    requires Opened(pool).bias > 0 ==> Buys(Opened(pool), asset, shares)
    ensures var p := Opened(pool);
            Deposit(pool, asset) ==
            if asset == 0 then (pool, Err(ZeroDepositNotAllowed))
            else if p.bias == 0 then (p, Err(BalanceDrainedCannotDeposit))
            else if !Derivable(p, asset) then (p, Err(InadequatePrecision))
            else if shares == 0 then (p, Err(LessThanOneShareDerived))
            else if p.effective + asset > MAX then (p, Err(AssetOverflow))
            else if p.issued + shares > MAX then (p, Err(SharesOverflow))
            else (Live(p.effective + asset, p.issued + shares, p.bias, p.checkpoint, p.drainpoint),
                  Ok((asset, Receipt(asset, shares, p.bias, p.checkpoint))))
  {
    if Opened(pool).bias > 0 {
      SharesBought(Opened(pool), asset, shares);
    }
  }

  // ---------------------------------------------------------------------------
  // Repricings
  // ---------------------------------------------------------------------------

  /** The pool holding `value` at the price `price`, its counter moved on by one up to saturation. */
  function PricedAt(p: Pool, value: u128, price: u128): Pool
    requires p.Live?
  {
    var count: u32 := if p.checkpoint == MAX_TIME then MAX_TIME else p.checkpoint + 1;
    Live(value, p.issued, price, count, if price == 0 then count else p.drainpoint)
  }

  lemma {:induction false} PriceIs(value: u128, issued: u128, price: nat)
    requires issued > 0 && FloorOf(price, value * DIV, issued)
    ensures CheckedFromRational(value, issued) == if price <= MAX then Some(price) else None
  {
    FloorIs(price, value * DIV, issued);
  }

  lemma {:induction false} MintOutcome(p: Pool, asset: u128, price: nat)
    requires p.Live? && p.issued > 0 ==> FloorOf(price, (p.effective + asset) * DIV, p.issued)
    ensures Mint(p, asset) ==
            if asset == 0 then (p, Ok(0))
            else if p.Fresh? then (p, Err(BalanceNotInitiatedViaDeposit))
            else if p.issued == 0 then (p, Err(RequiresExistingDeposits))
            else if p.effective + asset > MAX then (p, Err(AssetOverflow))
            else if price > MAX then (p, Err(InadequatePrecision))
            else (PricedAt(p, p.effective + asset, price), Ok(asset))
  {
    if p.Live? && p.issued > 0 && p.effective + asset <= MAX {
      PriceIs(p.effective + asset, p.issued, price);
    }
  }

  /** A reap whose price does not fit is refused, but its amount is gone. */
  lemma {:induction false} ReapOutcome(p: Pool, asset: u128, price: nat)
    requires p.Live? && p.issued > 0 && asset <= p.effective ==>
               FloorOf(price, (p.effective - asset) * DIV, p.issued)
    ensures Reap(p, asset) ==
            if asset == 0 then (p, Ok(0))
            else if p.Fresh? then (p, Err(BalanceNotInitiatedViaDeposit))
            else if p.issued == 0 then (p, Err(RequiresExistingDeposits))
            else if asset > p.effective then (p, Err(AssetUnderflow))
            else if price > MAX then
              (Live(p.effective - asset, p.issued, p.bias, p.checkpoint, p.drainpoint), Err(InadequatePrecision))
            else (PricedAt(p, p.effective - asset, price), Ok(asset))
  {
    if p.Live? && p.issued > 0 && asset <= p.effective {
      PriceIs(p.effective - asset, p.issued, price);
    }
  }

  // ---------------------------------------------------------------------------
  // Withdraw
  // ---------------------------------------------------------------------------

  /**
   The clamped shares at the price they were bought at, floored, times the change of the price
   since, floored; or, after a drain, the clamped shares times the price.
   */
  predicate Valued(p: Pool, r: Receipt, value: nat, ratio: nat)
    requires p.Live?
  {
    if p.drainpoint > r.checkpoint then value == Saturate(r.shares * DIV) && ratio == p.bias
    else FloorOf(value, Saturate(r.shares * DIV) * r.bias, DIV) && FloorOf(ratio, p.bias * DIV, r.bias)
  }

  /** A receipt without a price has no value at deposit to start from. */
  predicate Unpriced(p: Pool, r: Receipt)
    requires p.Live?
  {
    p.drainpoint <= r.checkpoint && r.bias == 0
  }

  /** The value at deposit, the price ratio and the value now all fit. */
  predicate Payable(r: Receipt, value: nat, ratio: nat) {
    && Saturate(r.shares * DIV) * r.bias < (MAX + 1) * DIV
    && ratio <= MAX && value * ratio < (MAX + 1) * DIV
  }

  lemma {:induction false} FloorTwice(x: nat, worth: nat)
    requires FloorOf(worth, x, DIV * DIV)
    ensures x / DIV / DIV == worth
  {
    Floor(x, DIV);
    FloorIs(worth, x / DIV, DIV);
  }

  lemma {:induction false} QuoteIs(p: Pool, r: Receipt, value: nat, ratio: nat, worth: nat)
    requires p.Live? && !Unpriced(p, r) && Valued(p, r, value, ratio) && FloorOf(worth, value * ratio, DIV * DIV)
    ensures Worth(p, r) == if Payable(r, value, ratio) then Some(worth) else None
  {
    var fixed := Saturate(r.shares * DIV);
    QuotientFits(fixed * r.bias, DIV);
    QuotientFits(value * ratio, DIV);
    FloorTwice(value * ratio, worth);
    if p.drainpoint > r.checkpoint {
      FloorCancel(p.bias, DIV);
    } else {
      FloorIs(value, fixed * r.bias, DIV);
      FloorIs(ratio, p.bias * DIV, r.bias);
    }
  }

  /** A withdrawal with any receipt from any pool, one that was drained or could not pay in full included. */
  lemma {:induction false} WithdrawOutcome(p: Pool, r: Receipt, value: nat, ratio: nat, worth: nat)
    requires p.Live? && !Unpriced(p, r) ==> Valued(p, r, value, ratio) && FloorOf(worth, value * ratio, DIV * DIV)
    ensures Withdraw(p, r) ==
            if p.Fresh? then (p, Err(BalanceNotInitiatedViaDeposit))
            else if r.shares == 0 || r.shares > p.issued then (p, Err(InvalidReceipt))
            else if Unpriced(p, r) || !Payable(r, value, ratio) then (p, Err(InadequatePrecision))
            else if r.shares < p.issued then
              var paid: u128 := if worth < p.effective then worth else p.effective;
              (Live(p.effective - paid, p.issued - r.shares, p.bias, p.checkpoint, p.drainpoint), Ok(paid))
            else if worth < p.effective then (Live(0, 0, DIV, 0, 0), Ok(p.effective))
            else (Live(0, 0, DIV, p.checkpoint, p.drainpoint), Ok(p.effective))
  {
    if p.Live? && !Unpriced(p, r) {
      QuoteIs(p, r, value, ratio, worth);
    }
  }
}
