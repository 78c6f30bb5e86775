/** How far the read-only checks, and the model checker's deposit guard, predict execution. */
module Checks {
  import opened Wrappers
  import opened FixedPoint
  import opened SharePool
  import opened PoolArithmetic
  import opened PoolRuns
  import opened PoolSafety
  import Operations

  /** A step that succeeds was admitted by its check; a zero mint or reap does nothing instead. */
  lemma {:induction false} SuccessWasAdmitted(p: Pool, asset: u128, r: Receipt)
    ensures Deposit(p, asset).1.Ok? ==> CanDeposit(p, asset).Ok?
    ensures asset != 0 && Mint(p, asset).1.Ok? ==> CanMint(p, asset).Ok?
    ensures asset != 0 && Reap(p, asset).1.Ok? ==> CanReap(p, asset).Ok?
    ensures Withdraw(p, r).1.Ok? ==> CanWithdraw(p, r).Ok?
  {
  }

  // ---------------------------------------------------------------------------
  // What the checks refuse
  // ---------------------------------------------------------------------------

  /**
   In every reachable pool a receipt passes the check exactly when it has shares and no more than the
   outstanding receipts together; one that does not is refused as the withdrawal refuses it.
   */
  lemma {:induction false} RedeemableIff(ops: seq<Op>, r: Receipt)
    ensures var w := Run(START, ops);
            && (CanWithdraw(w.pool, r).Ok? <==> 0 < r.shares <= SharesBelow(w.receipts, w.next))
            && (CanWithdraw(w.pool, r).Err? ==>
                  && Withdraw(w.pool, r) == (w.pool, Err(CanWithdraw(w.pool, r).error))
                  && CanWithdraw(w.pool, r).error ==
                     if w.pool.Fresh? then BalanceNotInitiatedViaDeposit else InvalidReceipt)
  {
    var w := Run(START, ops);
    ReachableIsValid(ops);
    EveryRunBalances(ops);
    if w.pool.Fresh? {
      SharesFrame(w.receipts, map[], w.next);
      NoShares(w.next);
    }
  }

  /** Once everything is redeemed every receipt is refused. */
  lemma {:induction false} NothingRedeemableWhenEmpty(ops: seq<Op>, r: Receipt)
    requires Run(START, ops).receipts == map[]
    ensures CanWithdraw(Run(START, ops).pool, r).Err?
  {
    RedeemableIff(ops, r);
    NoShares(Run(START, ops).next);
  }

  /** The spent receipt of the only deposit. */
  lemma {:induction false} SpentReceiptIsRefused()
    ensures Run(START, [DepositOp(5), WithdrawOp(0)]).pool == Live(0, 0, DIV, 0, 0)
    ensures CanWithdraw(Run(START, [DepositOp(5), WithdrawOp(0)]).pool, Receipt(5, 5, DIV, 0)) == Err(InvalidReceipt)
  {
    TwoSteps(DepositOp(5), WithdrawOp(0));
    assert Run(START, [DepositOp(5)]).pool == Live(5, 5, DIV, 0, 0);
    assert Run(START, [DepositOp(5), WithdrawOp(0)]).receipts == map[];
    NothingRedeemableWhenEmpty([DepositOp(5), WithdrawOp(0)], Receipt(5, 5, DIV, 0));
  }

  /**
   A deposit passes exactly where nobody has deposited yet, or the price is not zero and the value
   fits; one that does not pass is refused, for the same reason at price zero.
   */
  lemma {:induction false} DepositableIff(ops: seq<Op>, asset: u128)
    ensures var p := Run(START, ops).pool;
            && (CanDeposit(p, asset).Ok? <==> p.Fresh? || (p.bias != 0 && p.effective + asset <= MAX))
            && (CanDeposit(p, asset).Err? ==>
                  && CanDeposit(p, asset) == Err(if p.bias == 0 then BalanceDrainedCannotDeposit else AssetOverflow)
                  && Deposit(p, asset).1.Err?
                  && (p.bias == 0 && asset != 0 ==> Deposit(p, asset).1 == Err(BalanceDrainedCannotDeposit)))
  {
    ReachableIsValid(ops);
  }

  /**
   A mint or a reap passes exactly when it is not zero, somebody holds a receipt, and the value stays
   within what can be held; one that does not pass is refused as the operation refuses it, and a zero
   one, on which the operation does nothing, as zero.
   */
  lemma {:induction false} AdjustableIff(ops: seq<Op>, asset: u128)
    ensures var w := Run(START, ops);
            && (CanMint(w.pool, asset).Ok? <==>
                  asset != 0 && w.receipts != map[] && TotalValue(w.pool) + asset <= MAX)
            && (CanReap(w.pool, asset).Ok? <==>
                  asset != 0 && w.receipts != map[] && asset <= TotalValue(w.pool))
            && (CanMint(w.pool, asset).Err? ==>
                  Mint(w.pool, asset) ==
                  (w.pool, if asset == 0 then Ok(0) else Err(CanMint(w.pool, asset).error)))
            && (CanReap(w.pool, asset).Err? ==>
                  Reap(w.pool, asset) ==
                  (w.pool, if asset == 0 then Ok(0) else Err(CanReap(w.pool, asset).error)))
            && CanMint(w.pool, 0) == CanReap(w.pool, 0) == Err(ZeroAdjustmentNotAllowed)
  {
    ReachableIsValid(ops);
    EveryRunBalances(ops);
  }

  // ---------------------------------------------------------------------------
  // What the checks let through
  // ---------------------------------------------------------------------------

  /** A floored quotient is at least one share exactly when the deposit covers the price of one. */
  lemma {:induction false} OneShareDerived(p: Pool, asset: u128)
    requires p.Live? && p.issued != 0 && p.bias > 0 && SharesFor(p, asset).Some?
    ensures SharesFor(p, asset).value >= 1 <==> SaturatingFromInteger(asset) >= p.bias
  {
    var fixed := SaturatingFromInteger(asset);
    var quotient := fixed * DIV / p.bias;
    if fixed >= p.bias {
      FloorAtLeast(fixed * DIV, p.bias, DIV);
      FloorAtLeast(quotient, DIV, 1);
    } else {
      FloorAtMost(fixed * DIV, p.bias, DIV - 1);
    }
  }

  /**
   An admitted deposit can still fail: exactly when it is zero, when the share price is above
   it, or when a quotient or the share total does not fit.
   */
  lemma {:induction false} AdmittedDeposit(ops: seq<Op>, asset: u128)
    requires CanDeposit(Run(START, ops).pool, asset).Ok?
    ensures var p := Run(START, ops).pool;
            && (p.Live? ==> p.bias > 0)
            && (Deposit(p, asset).1.Ok? <==>
                  && asset != 0
                  && (p.Live? && p.issued != 0 ==>
                        && SaturatingFromInteger(asset) * DIV / p.bias <= MAX
                        && SaturatingFromInteger(asset) >= p.bias
                        && p.issued + SharesFor(p, asset).value <= MAX))
  {
    var p := Run(START, ops).pool;
    ReachableIsValid(ops);
    if p.Live? && p.issued != 0 && SharesFor(p, asset).Some? {
      OneShareDerived(p, asset);
    }
  }

  /** An admitted mint or reap fails exactly when the new price does not fit. */
  lemma {:induction false} AdmittedRepricing(p: Pool, asset: u128)
    ensures CanMint(p, asset).Ok? ==>
              && p.Live? && p.issued != 0
              && (Mint(p, asset).1.Ok? <==> (p.effective + asset) * DIV < MAX * p.issued + p.issued)
    ensures CanReap(p, asset).Ok? ==>
              && p.Live? && p.issued != 0
              && (Reap(p, asset).1.Ok? <==> (p.effective - asset) * DIV < MAX * p.issued + p.issued)
  {
    if CanMint(p, asset).Ok? {
      PriceFits(p.effective + asset, p.issued);
    }
    if CanReap(p, asset).Ok? {
      PriceFits(p.effective - asset, p.issued);
    }
  }

  /**
   An outstanding receipt is always admitted, and fails exactly when the ratio of the two prices,
   or the value at deposit times that ratio, does not fit.
   */
  lemma {:induction false} AdmittedRedemption(ops: seq<Op>, id: nat)
    requires id in Run(START, ops).receipts
    ensures var w := Run(START, ops);
            && w.pool.Live? && w.receipts[id].bias > 0
            && CanWithdraw(w.pool, w.receipts[id]).Ok?
            && (Withdraw(w.pool, w.receipts[id]).1.Ok? <==>
                  QuoteFits(w.pool.bias, DrainedSince(w.pool, w.receipts[id]), w.receipts[id]))
  {
    var w := Run(START, ops);
    ReachableIsValid(ops);
    RedemptionStep(w, id);
    QuoteExists(w.pool.bias, DrainedSince(w.pool, w.receipts[id]), w.receipts[id]);
  }

  lemma {:induction false} PriceFits(effective: nat, issued: u128)
    requires issued > 0
    ensures effective * DIV / issued <= MAX <==> effective * DIV < MAX * issued + issued
  {
    if effective * DIV < MAX * issued + issued {
      FloorAtMost(effective * DIV, issued, MAX);
    } else {
      FloorAtLeast(effective * DIV, issued, MAX + 1);
    }
  }

  // ---------------------------------------------------------------------------
  // Runs that end in an admitted step that fails
  // ---------------------------------------------------------------------------

  /** A deposit below the price of a share. */
  lemma {:induction false} AdmittedDepositFails()
    ensures exists ops ::
              && CanDeposit(Run(START, ops).pool, 1).Ok?
              && Deposit(Run(START, ops).pool, 1).1 == Err(LessThanOneShareDerived)
  {
    TwoSteps(DepositOp(1), MintOp(1));
    assert Run(START, [DepositOp(1), MintOp(1)]).pool == Live(2, 1, 2 * DIV, 1, 0);
  }

  /** A mint that prices the one share above what fixed point can hold. */
  lemma {:induction false} AdmittedMintFails()
    ensures exists ops, asset: u128 ::
              && CanMint(Run(START, ops).pool, asset).Ok?
              && Mint(Run(START, ops).pool, asset).1 == Err(InadequatePrecision)
  {
    TwoSteps(DepositOp(1), DrainOp);
    var asset: u128 := 400 * DIV;
    assert Run(START, [DepositOp(1)]).pool == Live(1, 1, DIV, 0, 0);
    assert Mint(Run(START, [DepositOp(1)]).pool, asset).1 == Err(InadequatePrecision);
  }

  const HUGE: u128 := 300_000_000_000_000_000_000_000_000_000_000_000_000

  const CLAMPED: u128 := 340_282_366_920_938_463

  /** A clamped deposit buys too few shares: the price stays, but could not be set again. */
  function Overvalued(): seq<Op> {
    [DepositOp(1), MintOp(999), DepositOp(HUGE)]
  }

  lemma {:induction false} OvervaluedPool()
    ensures Run(START, Overvalued()).pool == Live(HUGE + 1000, CLAMPED + 1, 1000 * DIV, 1, 0)
  {
    TwoSteps(DepositOp(1), MintOp(999));
    OneMoreStep([DepositOp(1), MintOp(999)], DepositOp(HUGE));
    assert [DepositOp(1), MintOp(999)] + [DepositOp(HUGE)] == Overvalued();
    var p := Run(START, [DepositOp(1), MintOp(999)]).pool;
    assert p == Live(1000, 1, 1000 * DIV, 1, 0);
    assert SharesFor(p, HUGE) == Some(CLAMPED);
  }

  /** An admitted reap of one unit fails, and the unit is gone. */
  lemma {:induction false} AdmittedReapLeaks()
    ensures exists ops ::
              && CanReap(Run(START, ops).pool, 1).Ok?
              && Reap(Run(START, ops).pool, 1).1 == Err(InadequatePrecision)
              && Step(Run(START, ops), ReapOp(1)).lost == Run(START, ops).lost + 1
  {
    OvervaluedPool();
    assert Reap(Run(START, Overvalued()).pool, 1).1 == Err(InadequatePrecision);
  }

  /** A share bought at a price of one inner unit, and a price that has risen too far since. */
  function Risen(): seq<Op> {
    [DepositOp(DIV), ReapOp(DIV - 1), DepositOp(1), MintOp(700 * DIV)]
  }

  lemma {:induction false} RisenPool()
    ensures Run(START, Risen()).pool == Live(700 * DIV + 2, 2 * DIV, 350 * DIV + 1, 2, 0)
    ensures 1 in Run(START, Risen()).receipts && Run(START, Risen()).receipts[1] == Receipt(1, DIV, 1, 1)
  {
    var two := [DepositOp(DIV), ReapOp(DIV - 1)];
    var three := [DepositOp(DIV), ReapOp(DIV - 1), DepositOp(1)];
    TwoSteps(DepositOp(DIV), ReapOp(DIV - 1));
    OneMoreStep(two, DepositOp(1));
    OneMoreStep(three, MintOp(700 * DIV));
    assert two + [DepositOp(1)] == three && three + [MintOp(700 * DIV)] == Risen();
    assert Run(START, two).pool == Live(1, DIV, 1, 1, 0);
    assert Run(START, three).pool == Live(2, 2 * DIV, 1, 1, 0);
  }

  /** An admitted redemption of an outstanding receipt fails. */
  lemma {:induction false} AdmittedRedemptionFails()
    ensures exists ops, id ::
              && id in Run(START, ops).receipts
              && CanWithdraw(Run(START, ops).pool, Run(START, ops).receipts[id]).Ok?
              && Withdraw(Run(START, ops).pool, Run(START, ops).receipts[id]).1 == Err(InadequatePrecision)
  {
    RisenPool();
    assert Withdraw(Run(START, Risen()).pool, Run(START, Risen()).receipts[1]).1 == Err(InadequatePrecision);
  }

  // ---------------------------------------------------------------------------
  // The model checker's deposit guard
  // ---------------------------------------------------------------------------

  /** The least deposit the guard lets through, `effective / issued` rounded up, if it can compute it. */
  function MinimumDeposit(p: Pool): Option<nat>
    requires p.Live? && p.issued != 0
  {
    if p.effective + (p.issued - 1) <= MAX then Some((p.effective + (p.issued - 1)) / p.issued) else None
  }

  predicate DepositGuard(p: Pool, duplicate: bool, asset: u128) {
    if p.Fresh? then asset != 0
    else
      var drained := p.effective == 0 && p.bias == 0;
      var zeroShare :=
        p.issued != 0 && match MinimumDeposit(p) case Some(minimum) => asset < minimum case None => false;
      var deriveFail := CheckedDiv(SaturatingFromInteger(asset), p.bias).None?;
      !drained && !duplicate && asset != 0 && !zeroShare && !deriveFail
  }

  /** A deposit of at least `effective / issued`, rounded up, covers the price of a share. */
  lemma {:induction false} MinimumCoversPrice(p: Pool, asset: u128)
    requires Solvent(p) && p.Live? && p.issued != 0
    requires MinimumDeposit(p).Some? && MinimumDeposit(p).value <= asset
    ensures p.bias <= SaturatingFromInteger(asset)
  {
    Floor(p.effective + (p.issued - 1), p.issued);
    MulMono(MinimumDeposit(p).value, asset, p.issued);
    assert p.effective <= asset * p.issued;
    if asset * DIV < p.bias {
      MulMono(asset * DIV + 1, p.bias, p.issued);
    }
  }

  /** Rounding `effective / issued` up and multiplying out. */
  lemma {:induction false} MinimumIff(p: Pool, asset: u128)
    requires p.Live? && p.issued != 0 && MinimumDeposit(p).Some?
    ensures MinimumDeposit(p).value <= asset <==> p.effective <= asset * p.issued
  {
    var raised := p.effective + (p.issued - 1);
    Floor(raised, p.issued);
    if MinimumDeposit(p).value <= asset {
      MulMono(MinimumDeposit(p).value, asset, p.issued);
    } else {
      FloorAtLeast(p.effective + (p.issued - 1), p.issued, asset + 1);
    }
  }

  /**
   The guard lets a deposit through exactly when it is not zero and, where somebody has deposited
   before, the user has not, the price is not zero, its quotient fits, and, as far as the guard can
   tell, it is worth its part of the pool at one share.
   */
  lemma {:induction false} DepositGuardIff(ops: seq<Op>, duplicate: bool, asset: u128)
    ensures var p := Run(START, ops).pool;
            DepositGuard(p, duplicate, asset) <==>
              && asset != 0
              && (p.Live? ==>
                    && !duplicate && p.bias != 0
                    && Saturate(asset * DIV) * DIV < (MAX + 1) * p.bias
                    && (p.issued != 0 && p.effective + p.issued - 1 <= MAX ==> p.effective <= asset * p.issued))
  {
    var p := Run(START, ops).pool;
    ReachableIsValid(ops);
    if p.Live? {
      if p.bias != 0 {
        Operations.QuotientFits(Saturate(asset * DIV) * DIV, p.bias);
      }
      if p.issued != 0 && MinimumDeposit(p).Some? {
        MinimumIff(p, asset);
      }
    }
  }

  /**
   A guarded deposit derives a share, so it fails only on overflow, with one exception: where
   `effective + issued - 1` overflows the guard skips its test, and a deposit below the price
   of a share gets through.
   */
  lemma {:induction false} GuardedDeposit(ops: seq<Op>, duplicate: bool, asset: u128)
    ensures var p := Run(START, ops).pool;
            var r := Deposit(p, asset).1;
            DepositGuard(p, duplicate, asset) ==>
              && (r.Ok? || r.error in {AssetOverflow, SharesOverflow, LessThanOneShareDerived})
              && (r == Err(LessThanOneShareDerived) <==>
                    && p.Live? && p.issued != 0
                    && p.effective + (p.issued - 1) > MAX
                    && SaturatingFromInteger(asset) < p.bias)
  {
    var p := Run(START, ops).pool;
    ReachableIsValid(ops);
    if DepositGuard(p, duplicate, asset) && p.Live? && p.issued != 0 {
      OneShareDerived(p, asset);
      if MinimumDeposit(p).Some? {
        MinimumCoversPrice(p, asset);
      }
    }
  }

  /** A reachable pool where the guard admits a deposit that buys no share. */
  lemma {:induction false} GuardMissesSmallDeposit()
    ensures exists ops ::
              && DepositGuard(Run(START, ops).pool, false, 1)
              && Deposit(Run(START, ops).pool, 1).1 == Err(LessThanOneShareDerived)
  {
    var first: u128 := 10_000_000_000_000_000_000_000_000_000_000_000_000;
    var rest: u128 := MAX - first - 5;
    var ops := [DepositOp(first), MintOp(rest)];
    TwoSteps(DepositOp(first), MintOp(rest));
    assert Run(START, [DepositOp(first)]).pool == Live(first, first, DIV, 0, 0);
    assert Run(START, ops).pool.Live? && Run(START, ops).pool.bias > DIV;
  }
}
