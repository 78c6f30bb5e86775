/**
 What a run leaves on record: each outstanding receipt says what its deposit was, the counters count
 the repricings, and a redemption pays what receipt and price say, to the unit.
 */
module PoolRecords {
  import opened FixedPoint
  import opened SharePool
  import opened PoolArithmetic
  import opened PoolRuns
  import opened PoolSafety
  import opened Redemption
  import opened Operations
  import Revaluation

  // ---------------------------------------------------------------------------
  // Receipts
  // ---------------------------------------------------------------------------

  /**
   Receipt `id` was issued by step `i`: for the amount that was asked for, at the price and the
   counter of that moment, and for the shares and the value the pool gained.
   */
  predicate IssuedBy(ops: seq<Op>, id: nat, r: Receipt, i: nat) {
    && i < |ops| && ops[i].DepositOp?
    && var w, w' := Run(START, ops[..i]), Run(START, ops[..i + 1]);
       && w.next == id && w'.next == id + 1
       && w'.pool.Live? && w'.receipts == w.receipts[id := r]
       && r.principal == ops[i].asset == TotalValue(w'.pool) - TotalValue(w.pool)
       && r.shares == w'.pool.issued - (if w.pool.Fresh? then 0 else w.pool.issued)
       && r.bias == (if w.pool.Fresh? then DIV else w.pool.bias) == w'.pool.bias
       && r.checkpoint == (if w.pool.Fresh? then 0 else w.pool.checkpoint) == w'.pool.checkpoint
  }

  lemma {:induction false} IssuedByPrefix(ops: seq<Op>, op: Op, id: nat, r: Receipt, i: nat)
    requires IssuedBy(ops, id, r, i)
    ensures IssuedBy(ops + [op], id, r, i)
  {
    assert (ops + [op])[..i] == ops[..i] && (ops + [op])[..i + 1] == ops[..i + 1];
  }

  lemma {:induction false} IssuedNow(before: seq<Op>, op: Op)
    requires op.DepositOp? && Deposit(Run(START, before).pool, op.asset).1.Ok?
    ensures var w := Run(START, before);
            IssuedBy(before + [op], w.next, Deposit(w.pool, op.asset).1.value.1, |before|)
  {
    var ops := before + [op];
    OneMoreStep(before, op);
    assert ops[..|before|] == before && ops[..|before| + 1] == ops;
  }

  /** Steps issue receipts under new identifiers and change none. */
  lemma {:induction false} OldOrNew(w: World, op: Op, id: nat)
    requires Valid(w) && id in Step(w, op).receipts
    ensures (id in w.receipts && Step(w, op).receipts[id] == w.receipts[id])
            || (op.DepositOp? && Deposit(w.pool, op.asset).1.Ok? && id == w.next
                && Step(w, op).receipts[id] == Deposit(w.pool, op.asset).1.value.1)
  {
    match op
    case DepositOp(asset) =>
    case WithdrawOp(other) =>
    case MintOp(asset) =>
    case ReapOp(asset) =>
    case DrainOp =>
  }

  /** Every outstanding receipt records its deposit. */
  lemma {:induction false} ReceiptRecordsDeposit(ops: seq<Op>, id: nat) returns (i: nat)
    requires id in Run(START, ops).receipts
    ensures IssuedBy(ops, id, Run(START, ops).receipts[id], i)
  {
    var before, op := ops[..|ops| - 1], ops[|ops| - 1];
    assert ops == before + [op];
    ReachableIsValid(before);
    OldOrNew(Run(START, before), op, id);
    if id in Run(START, before).receipts {
      i := ReceiptRecordsDeposit(before, id);
      IssuedByPrefix(before, op, id, Run(START, before).receipts[id], i);
    } else {
      IssuedNow(before, op);
      i := |before|;
    }
  }

  /** Ten units at a price of three buy three shares, worth nine; the receipt says ten. */
  lemma {:induction false} PrincipalIsTheAmount()
    ensures var w := Run(START, [DepositOp(1), MintOp(2)] + [DepositOp(10)]);
            1 in w.receipts && w.receipts[1] == Receipt(10, 3, 3 * DIV, 1)
  {
    TwoSteps(DepositOp(1), MintOp(2));
    OneMoreStep([DepositOp(1), MintOp(2)], DepositOp(10));
    assert Run(START, [DepositOp(1), MintOp(2)]).pool == Live(3, 1, 3 * DIV, 1, 0);
    DepositOutcome(Live(3, 1, 3 * DIV, 1, 0), 10, 3);
  }

  // ---------------------------------------------------------------------------
  // Payments
  // ---------------------------------------------------------------------------

  /** What redeeming `id` takes out of the pool. */
  function Paid(w: World, id: nat): int {
    StepWithdraw(w, id).withdrawn - w.withdrawn
  }

  /**
   After every run, in range or not: a receipt whose value fits is redeemed for the product of its
   value at deposit and the floored price ratio, floored, or for everything by the last holder.
   One whose value does not fit is not redeemed.
   */
  lemma {:induction false} RedemptionPays(ops: seq<Op>, id: nat, value: nat, ratio: nat, worth: nat)
    requires id in Run(START, ops).receipts && Run(START, ops).pool.Live?
    requires Valued(Run(START, ops).pool, Run(START, ops).receipts[id], value, ratio)
    requires FloorOf(worth, value * ratio, DIV * DIV)
    ensures var w := Run(START, ops);
            if !Payable(w.receipts[id], value, ratio) then StepWithdraw(w, id) == w
            else id !in StepWithdraw(w, id).receipts
                 && Paid(w, id) == if LastHolder(w, id) then w.pool.effective else worth
  {
    var w := Run(START, ops);
    ReachableIsValid(ops);
    RedemptionStep(w, id);
    QuoteIs(w.pool, w.receipts[id], value, ratio, worth);
  }

  lemma {:induction false} InRangeValue(shares: u128, bias: u128, ratio: nat)
    requires InRange(shares)
    ensures FloorOf(shares * bias, Saturate(shares * DIV) * bias, DIV)
  {
    MulSwap(shares, DIV, bias);
  }

  /** For a receipt in range that saw no drain: its shares at its own price, at the floored ratio. */
  lemma {:induction false} UndrainedRedemptionPays(ops: seq<Op>, id: nat, ratio: nat, worth: nat)
    requires id in Run(START, ops).receipts && InRange(Run(START, ops).receipts[id].shares)
    requires Run(START, ops).pool.Live? && !DrainedSince(Run(START, ops).pool, Run(START, ops).receipts[id])
    requires var r := Run(START, ops).receipts[id];
             && ratio * r.bias <= Run(START, ops).pool.bias * DIV < (ratio + 1) * r.bias
             && worth * (DIV * DIV) <= r.shares * r.bias * ratio < (worth + 1) * (DIV * DIV)
    ensures var w := Run(START, ops);
            var r := w.receipts[id];
            if ratio > MAX || r.shares * r.bias * ratio >= (MAX + 1) * DIV then StepWithdraw(w, id) == w
            else id !in StepWithdraw(w, id).receipts
                 && Paid(w, id) == if LastHolder(w, id) then w.pool.effective else worth
  {
    var w := Run(START, ops);
    var r := w.receipts[id];
    ReachableIsValid(ops);
    InRangeValue(r.shares, r.bias, ratio);
    DepositValueFits(r);
    QuotientFits(Saturate(r.shares * DIV) * r.bias, DIV);
    RedemptionPays(ops, id, r.shares * r.bias, ratio, worth);
  }

  /** For one in range that did: its shares at the current price. */
  lemma {:induction false} DrainedRedemptionPays(ops: seq<Op>, id: nat, worth: nat)
    requires id in Run(START, ops).receipts && InRange(Run(START, ops).receipts[id].shares)
    requires Run(START, ops).pool.Live? && DrainedSince(Run(START, ops).pool, Run(START, ops).receipts[id])
    requires FloorOf(worth, Run(START, ops).receipts[id].shares * Run(START, ops).pool.bias, DIV)
    ensures var w := Run(START, ops);
            if w.receipts[id].shares * w.pool.bias > MAX then StepWithdraw(w, id) == w
            else id !in StepWithdraw(w, id).receipts
                 && Paid(w, id) == if LastHolder(w, id) then w.pool.effective else worth
  {
    var w := Run(START, ops);
    var r := w.receipts[id];
    ReachableIsValid(ops);
    DepositValueFits(r);
    QuotientFits(Saturate(r.shares * DIV) * r.bias, DIV);
    MulSwap(r.shares, DIV, w.pool.bias);
    RedemptionPays(ops, id, r.shares * DIV, w.pool.bias, worth);
  }

  lemma {:induction false} ThreeSharesBought()
    ensures var w := Run(START, [DepositOp(1), MintOp(2), DepositOp(9)]);
            && w.pool == Live(12, 4, 3 * DIV, 1, 0)
            && 0 in w.receipts && w.receipts[0] == Receipt(1, 1, DIV, 0)
            && 1 in w.receipts && w.receipts[1] == Receipt(9, 3, 3 * DIV, 1)
  {
    var two := [DepositOp(1), MintOp(2)];
    TwoSteps(DepositOp(1), MintOp(2));
    OneMoreStep(two, DepositOp(9));
    assert two + [DepositOp(9)] == [DepositOp(1), MintOp(2), DepositOp(9)];
    assert Run(START, two).pool == Live(3, 1, 3 * DIV, 1, 0);
  }

  /** A mint of a third more: a deposit of nine is paid eleven, not twelve, because the price ratio is floored first. */
  lemma {:induction false} RatioIsFlooredFirst()
    ensures var w := Run(START, [DepositOp(1), MintOp(2), DepositOp(9)] + [MintOp(4)]);
            && w.pool == Live(16, 4, 4 * DIV, 2, 0)
            && 1 in w.receipts && w.receipts[1] == Receipt(9, 3, 3 * DIV, 1)
            && Paid(w, 1) == 11
  {
    var three := [DepositOp(1), MintOp(2), DepositOp(9)];
    var ratio := 1_333_333_333_333_333_333;
    ThreeSharesBought();
    OneMoreStep(three, MintOp(4));
    var w := Run(START, three + [MintOp(4)]);
    assert w.pool == Live(16, 4, 4 * DIV, 2, 0);
    assert 0 in w.receipts - {1};
    UndrainedRedemptionPays(three + [MintOp(4)], 1, ratio, 11);
  }

  // ---------------------------------------------------------------------------
  // Counters
  // ---------------------------------------------------------------------------

  /** A non-zero mint or reap, or a drain of something, that succeeds. */
  predicate Reprices(w: World, op: Op) {
    match op
    case MintOp(asset) => asset != 0 && Mint(w.pool, asset).1.Ok?
    case ReapOp(asset) => asset != 0 && Reap(w.pool, asset).1.Ok?
    case DrainOp => TotalValue(w.pool) != 0
    case _ => false
  }

  /** The last holder is redeemed for less than there is, and takes the rest. */
  predicate Restarts(w: World, op: Op) {
    && op.WithdrawOp? && LastHolder(w, op.id) && w.pool.Live?
    && Worth(w.pool, w.receipts[op.id]).Some? && Worth(w.pool, w.receipts[op.id]).value < w.pool.effective
  }

  /** The repricings of a run since it last restarted. */
  function Repricings(ops: seq<Op>): nat {
    if ops == [] then 0
    else
      var before, op := ops[..|ops| - 1], ops[|ops| - 1];
      if Restarts(Run(START, before), op) then 0
      else Repricings(before) + if Reprices(Run(START, before), op) then 1 else 0
  }

  /** How many there had been at the last one that left a price of zero. */
  function UpToLastZero(ops: seq<Op>): nat {
    if ops == [] then 0
    else
      var before, op := ops[..|ops| - 1], ops[|ops| - 1];
      if Restarts(Run(START, before), op) then 0
      else if Reprices(Run(START, before), op) && PriceOf(Run(START, ops).pool) == 0 then Repricings(ops)
      else UpToLastZero(before)
  }

  function PriceOf(p: Pool): u128 {
    if p.Live? then p.bias else DIV
  }

  function Counted(n: nat): u32 {
    if n <= MAX_TIME then n else MAX_TIME
  }

  predicate Counts(p: Pool, repricings: nat, zeroed: nat) {
    if p.Fresh? then repricings == zeroed == 0
    else p.checkpoint == Counted(repricings) && p.drainpoint == Counted(zeroed)
  }

  lemma {:induction false} StepCounts(w: World, op: Op, repricings: nat, zeroed: nat)
    requires Valid(w) && Counts(w.pool, repricings, zeroed)
    ensures var w' := Step(w, op);
            var now := repricings + if Reprices(w, op) then 1 else 0;
            if Restarts(w, op) then Counts(w'.pool, 0, 0)
            else Counts(w'.pool, now, if Reprices(w, op) && PriceOf(w'.pool) == 0 then now else zeroed)
  {
    match op
    case DepositOp(asset) =>
    case WithdrawOp(id) =>
      if id in w.receipts {
        RedemptionStep(w, id);
      }
    case MintOp(asset) =>
    case ReapOp(asset) =>
    case DrainOp => Revaluation.DrainedPool(w.pool);
  }

  /**
   The counter of a pool is the number of its repricings since it last restarted, and the drain mark
   that number at the last repricing to zero, both up to saturation.
   */
  lemma {:induction false} CountersCountRepricings(ops: seq<Op>)
    ensures Counts(Run(START, ops).pool, Repricings(ops), UpToLastZero(ops))
  {
    if ops != [] {
      var before := ops[..|ops| - 1];
      CountersCountRepricings(before);
      ReachableIsValid(before);
      StepCounts(Run(START, before), ops[|ops| - 1], Repricings(before), UpToLastZero(before));
    }
  }
}
