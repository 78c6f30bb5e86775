/** The rounding dust a pool collects between two repricings. */
module PoolDrift {
  import opened Wrappers
  import opened FixedPoint
  import opened SharePool
  import opened PoolArithmetic
  import opened PoolRuns
  import opened PoolSafety

  /** Scaled value of the pool beyond its shares at the current price. */
  function Drift(p: Pool): int {
    if p.Fresh? then 0 else p.effective * DIV - p.bias * p.issued
  }

  function Shares(p: Pool): u128 {
    if p.Fresh? then 0 else p.issued
  }

  predicate Redeemed(w: World, op: Op) {
    op.WithdrawOp? && op.id in w.receipts && op.id !in Step(w, op).receipts
  }

  predicate Accepted(w: World, op: Op) {
    match op
    case DepositOp(asset) => Deposit(w.pool, asset).1.Ok?
    case WithdrawOp(id) => Redeemed(w, op)
    case MintOp(asset) => asset != 0 && Mint(w.pool, asset).1.Ok?
    case ReapOp(asset) => asset != 0 && Reap(w.pool, asset).1.Ok?
    case DrainOp => TotalValue(w.pool) != 0 && Drain(w.pool).1.Ok?
  }

  predicate Reprices(op: Op) {
    op.MintOp? || op.ReapOp? || op.DrainOp?
  }

  /** The amounts one step handles are all representable without clamping. */
  predicate InRangeStep(w: World, op: Op) {
    match op
    case DepositOp(asset) => InRange(asset)
    case WithdrawOp(id) => id in w.receipts ==> InRange(w.receipts[id].shares)
    case _ => true
  }

  /** All steps of a run from `START` stay in range. */
  predicate InRangeRun(ops: seq<Op>) {
    forall i :: 0 <= i < |ops| ==> InRangeStep(Run(START, ops[..i]), ops[i])
  }

  /**
   How much dust one accepted step can leave, given that there was at most `dust` before:
   a repricing leaves less than the number of shares, a deposit adds less than one share
   costs, a withdrawal less than `DIV + principal`, and an emptied pool has none.
   */
  function Allowance(w: World, op: Op, dust: nat): nat {
    if !Accepted(w, op) then dust
    else if Shares(Step(w, op).pool) == 0 then 0
    else match op
      case DepositOp(_) => if Shares(w.pool) == 0 || w.pool.bias == 0 then 0 else dust + w.pool.bias - 1
      case WithdrawOp(id) => if id in w.receipts then dust + DIV + w.receipts[id].principal - 1 else dust
      case _ => Shares(w.pool) - if Shares(w.pool) > 0 then 1 else 0
  }

  function DustBound(ops: seq<Op>): nat {
    if ops == [] then 0
    else
      var before := ops[..|ops| - 1];
      Allowance(Run(START, before), ops[|ops| - 1], DustBound(before))
  }

  /** Between repricings dust only grows while shares remain, in range or not. */
  lemma {:induction false} DustNeverShrinks(w: World, op: Op)
    requires Valid(w) && Shares(Step(w, op).pool) != 0
    requires !Reprices(op)
    ensures Drift(w.pool) <= Drift(Step(w, op).pool)
  {
    match op
    case DepositOp(asset) =>
      if Accepted(w, op) && Shares(w.pool) != 0 {
        SharesNeverOverpriced(w.pool, asset);
        DriftOfDeposit(w.pool, asset);
      }
    case WithdrawOp(id) =>
      if id in w.receipts {
        RedemptionStep(w, id);
        if Worth(w.pool, w.receipts[id]).Some? {
          DriftOfWithdrawal(w, id);
        }
      }
  }

  lemma {:induction false} DriftOfDeposit(p: Pool, asset: u128)
    requires p.Live? && p.issued != 0 && Deposit(p, asset).1.Ok?
    ensures Drift(Deposit(p, asset).0) - Drift(p) == asset * DIV - SharesFor(p, asset).value * p.bias
  {
    var shares := SharesFor(p, asset).value;
    assert p.bias * (p.issued + shares) == p.bias * p.issued + shares * p.bias;
  }

  lemma {:induction false} DriftOfWithdrawal(w: World, id: nat)
    requires Valid(w) && id in w.receipts && Worth(w.pool, w.receipts[id]).Some?
    requires Shares(StepWithdraw(w, id).pool) != 0
    ensures Drift(StepWithdraw(w, id).pool) - Drift(w.pool) ==
            w.receipts[id].shares * w.pool.bias - Worth(w.pool, w.receipts[id]).value * DIV
  {
    RedemptionStep(w, id);
    PaidDrift(w.pool, w.receipts[id].shares, Worth(w.pool, w.receipts[id]).value);
  }

  lemma {:induction false} PaidDrift(p: Pool, shares: u128, worth: u128)
    requires p.Live? && shares <= p.issued && worth <= p.effective
    ensures Drift(p.(effective := p.effective - worth, issued := p.issued - shares)) - Drift(p) ==
            shares * p.bias - worth * DIV
  {
    assert p.bias * (p.issued - shares) == p.bias * p.issued - shares * p.bias;
  }

  lemma {:induction false} RepricingLeavesLessThanIssued(p: Pool, effective: u128)
    requires p.Live? && p.issued != 0 && CheckedFromRational(effective, p.issued).Some?
    ensures 0 <= Drift(Checkpoint(p.(effective := effective, bias := CheckedFromRational(effective, p.issued).value)))
              < p.issued
  {
    PriceIsSolvent(effective, p.issued);
  }

  lemma {:induction false} DepositWithinAllowance(w: World, asset: u128, dust: nat)
    requires Valid(w) && InRange(asset) && Drift(w.pool) <= dust
    ensures Drift(StepDeposit(w, asset).pool) <= Allowance(w, DepositOp(asset), dust)
  {
    DepositKeepsSolvency(w.pool, asset);
    if Deposit(w.pool, asset).1.Ok? && Shares(w.pool) != 0 {
      SharesAreMaximal(w.pool, asset);
      DriftOfDeposit(w.pool, asset);
    }
  }

  lemma {:induction false} WithdrawWithinAllowance(w: World, id: nat, dust: nat)
    requires Valid(w) && InRangeStep(w, WithdrawOp(id)) && Drift(w.pool) <= dust
    ensures Drift(StepWithdraw(w, id).pool) <= Allowance(w, WithdrawOp(id), dust)
  {
    StepKeepsValid(w, WithdrawOp(id));
    if id in w.receipts && Worth(w.pool, w.receipts[id]).Some? && Shares(StepWithdraw(w, id).pool) != 0 {
      DriftOfWithdrawal(w, id);
      QuoteLossBounded(w.pool.bias, DrainedSince(w.pool, w.receipts[id]), w.receipts[id]);
    }
  }

  lemma {:induction false} StepWithinAllowance(w: World, op: Op, dust: nat)
    requires Valid(w) && InRangeStep(w, op) && Drift(w.pool) <= dust
    ensures Drift(Step(w, op).pool) <= Allowance(w, op, dust)
  {
    match op
    case DepositOp(asset) => DepositWithinAllowance(w, asset, dust);
    case WithdrawOp(id) => WithdrawWithinAllowance(w, id, dust);
    case MintOp(asset) =>
      if Accepted(w, op) {
        RepricingLeavesLessThanIssued(w.pool, w.pool.effective + asset);
      }
    case ReapOp(asset) => ReapWithinAllowance(w, op, asset, dust);
    case DrainOp => ReapWithinAllowance(w, op, TotalValue(w.pool), dust);
  }

  lemma {:induction false} ReapWithinAllowance(w: World, op: Op, asset: u128, dust: nat)
    requires Valid(w) && Drift(w.pool) <= dust
    requires op == ReapOp(asset) || (op == DrainOp && asset == TotalValue(w.pool))
    ensures Drift(Step(w, op).pool) <= Allowance(w, op, dust)
  {
    if Accepted(w, op) && w.pool.effective != asset {
      RepricingLeavesLessThanIssued(w.pool, w.pool.effective - asset);
    }
  }

  /** Over every run in range the dust is never negative and stays within the bound of its steps. */
  lemma {:induction false} EveryRunBoundsDust(ops: seq<Op>)
    requires InRangeRun(ops)
    ensures 0 <= Drift(Run(START, ops).pool) <= DustBound(ops)
  {
    ReachableIsValid(ops);
    if ops != [] {
      var before := ops[..|ops| - 1];
      forall i | 0 <= i < |before|
        ensures InRangeStep(Run(START, before[..i]), before[i])
      {
        assert before[..i] == ops[..i];
      }
      EveryRunBoundsDust(before);
      ReachableIsValid(before);
      StepWithinAllowance(Run(START, before), ops[|ops| - 1], DustBound(before));
    }
  }

  lemma {:induction false} ProRataGap(worth: nat, shares: nat, bias: nat, issued: nat, effective: nat, loss: nat)
    requires shares * bias - worth * DIV <= loss
    ensures shares * effective * DIV <=
            worth * issued * DIV + issued * loss + shares * (effective * DIV - bias * issued)
  {
    MulMono(shares * bias - worth * DIV, loss, issued);
    assert (shares * bias - worth * DIV) * issued == shares * (bias * issued) - worth * issued * DIV;
    assert shares * (effective * DIV - bias * issued) == shares * effective * DIV - shares * (bias * issued);
  }

  lemma {:induction false} WorthShortOfProRata(p: Pool, r: Receipt)
    requires p.Live? && Sound(r) && InRange(r.shares) && Worth(p, r).Some?
    ensures r.shares * p.effective * DIV <=
            Worth(p, r).value * p.issued * DIV + p.issued * (DIV + r.principal) + r.shares * Drift(p)
  {
    QuoteLossBounded(p.bias, DrainedSince(p, r), r);
    ProRataGap(Worth(p, r).value, r.shares, p.bias, p.issued, p.effective, DIV + r.principal);
  }

  /**
   How close the lazy value is to the exact one. A receipt in range is worth at most its
   pro-rata part of the pool, and short of it by less than one unit, one unit of precision per
   unit of principal, and its part of the dust.
   */
  lemma {:induction false} WorthNearProRata(ops: seq<Op>, id: nat)
    requires id in Run(START, ops).receipts && InRange(Run(START, ops).receipts[id].shares)
    ensures var w := Run(START, ops);
            var p, r := w.pool, w.receipts[id];
            && p.Live?
            && (Worth(p, r).Some? ==>
                  var worth := Worth(p, r).value;
                  && worth * p.issued <= r.shares * p.effective
                  && r.shares * p.effective * DIV <=
                     worth * p.issued * DIV + p.issued * (DIV + r.principal) + r.shares * Drift(p))
  {
    var w := Run(START, ops);
    EveryRunIsSolvent(ops, id);
    ReachableIsValid(ops);
    if Worth(w.pool, w.receipts[id]).Some? {
      WorthShortOfProRata(w.pool, w.receipts[id]);
    }
  }
}
