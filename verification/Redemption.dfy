/** What receipts pay between two repricings, in whatever order they are redeemed. */
module Redemption {
  import opened Wrappers
  import opened FixedPoint
  import opened SharePool
  import opened PoolArithmetic
  import opened PoolRuns
  import opened PoolSafety

  /** Steps that neither reprice the pool nor redeem receipt `id`. */
  predicate Others(ops: seq<Op>, id: nat) {
    forall op :: op in ops ==> op.DepositOp? || (op.WithdrawOp? && op.id != id)
  }

  lemma {:induction false} OtherStepKeepsTerms(w: World, op: Op, id: nat)
    requires Valid(w) && id in w.receipts && Others([op], id)
    ensures var w' := Step(w, op);
            && id in w'.receipts
            && w.pool.Live? && w'.pool.Live?
            && w'.receipts[id] == w.receipts[id]
            && w'.pool.bias == w.pool.bias
            && w'.pool.drainpoint == w.pool.drainpoint
  {
    assert op in [op];
    RedemptionStep(w, id);
    if op.WithdrawOp? && op.id in w.receipts {
      RedemptionStep(w, op.id);
      assert id in w.receipts - {op.id};
    }
  }

  /** As long as a receipt is outstanding, deposits and redemptions of others leave its terms alone. */
  lemma {:induction false} OthersKeepTerms(w: World, ops: seq<Op>, id: nat)
    requires Valid(w) && id in w.receipts && Others(ops, id)
    ensures var w' := Run(w, ops);
            && Valid(w')
            && id in w'.receipts
            && w.pool.Live? && w'.pool.Live?
            && w'.receipts[id] == w.receipts[id]
            && w'.pool.bias == w.pool.bias
            && w'.pool.drainpoint == w.pool.drainpoint
  {
    RunKeepsValid(w, ops);
    if ops != [] {
      var before, op := ops[..|ops| - 1], ops[|ops| - 1];
      OthersKeepTerms(w, before, id);
      OtherStepKeepsTerms(Run(w, before), op, id);
    }
  }

  /** The payment for `id` at the end of a run, if it is redeemed there. */
  function Payment(w: World, ops: seq<Op>, id: nat): Result<u128, Error> {
    var u := Run(w, ops);
    if id in u.receipts then Withdraw(u.pool, u.receipts[id]).1 else Err(InvalidReceipt)
  }

  predicate LastHolder(w: World, id: nat) {
    id in w.receipts && w.receipts - {id} == map[]
  }

  /**
   Order independence. Whatever others deposit and redeem first, a receipt is paid its worth
   at the start, unless it is the last one, which is paid everything; and it can be redeemed
   after all that exactly when it could be redeemed at once.
   */
  lemma {:induction false} OthersKeepPayment(w: World, ops: seq<Op>, id: nat)
    requires Valid(w) && id in w.receipts && Others(ops, id)
    ensures w.pool.Live? && Run(w, ops).pool.Live?
    ensures Payment(w, ops, id) ==
            match Worth(w.pool, w.receipts[id])
            case None => Err(InadequatePrecision)
            case Some(worth) => Ok(if LastHolder(Run(w, ops), id) then Run(w, ops).pool.effective else worth)
  {
    OthersKeepTerms(w, ops, id);
    var u := Run(w, ops);
    RedemptionStep(u, id);
    if Worth(u.pool, u.receipts[id]).Some? {
      WorthCovered(u.pool, u.receipts[id]);
      SettleInFull(u.pool, u.receipts[id].shares, Worth(u.pool, u.receipts[id]).value);
    }
  }

  // ---------------------------------------------------------------------------
  // Redeeming everything
  // ---------------------------------------------------------------------------

  function Redemptions(ids: seq<nat>): seq<Op> {
    seq(|ids|, i requires 0 <= i < |ids| => WithdrawOp(ids[i]))
  }

  /** `ids` lists every outstanding receipt once. */
  ghost predicate Schedule(w: World, ids: seq<nat>) {
    && (forall i, j :: 0 <= i < j < |ids| ==> ids[i] != ids[j])
    && (forall id :: id in ids <==> id in w.receipts)
  }

  predicate AllRedeemable(w: World) {
    forall id :: id in w.receipts ==> w.pool.Live? && Worth(w.pool, w.receipts[id]).Some?
  }

  lemma {:induction false} OneRedemption(w: World, id: nat)
    requires Valid(w) && id in w.receipts && w.pool.Live? && Worth(w.pool, w.receipts[id]).Some?
    ensures var w' := StepWithdraw(w, id);
            && w'.receipts == w.receipts - {id}
            && w'.withdrawn + TotalValue(w'.pool) == w.withdrawn + TotalValue(w.pool)
  {
    RedemptionStep(w, id);
  }

  lemma {:induction false} OneMoreRedemption(w: World, before: seq<nat>, id: nat)
    ensures Run(w, Redemptions(before + [id])) == StepWithdraw(Run(w, Redemptions(before)), id)
  {
    assert Redemptions(before + [id])[..|before|] == Redemptions(before);
  }

  lemma {:induction false} NextRedemption(w: World, before: seq<nat>, id: nat)
    requires Valid(w) && AllRedeemable(w) && id in w.receipts && id !in before
    ensures var u, u' := Run(w, Redemptions(before)), Run(w, Redemptions(before + [id]));
            && u'.receipts == u.receipts - {id}
            && u'.withdrawn + TotalValue(u'.pool) == u.withdrawn + TotalValue(u.pool)
  {
    OthersKeepTerms(w, Redemptions(before), id);
    OneRedemption(Run(w, Redemptions(before)), id);
    OneMoreRedemption(w, before, id);
  }

  lemma {:induction false} RedemptionsPrefix(w: World, ids: seq<nat>, k: nat)
    requires Valid(w) && Schedule(w, ids) && AllRedeemable(w) && k <= |ids|
    ensures var u := Run(w, Redemptions(ids[..k]));
            && Valid(u)
            && (forall id :: id in u.receipts <==> id in w.receipts && id !in ids[..k])
            && u.withdrawn + TotalValue(u.pool) == w.withdrawn + TotalValue(w.pool)
  {
    RunKeepsValid(w, Redemptions(ids[..k]));
    if k > 0 {
      var before, id := ids[..k - 1], ids[k - 1];
      RedemptionsPrefix(w, ids, k - 1);
      assert ids[..k] == before + [id];
      assert id in w.receipts && id !in before;
      NextRedemption(w, before, id);
    }
  }

  /** Every receipt of a schedule but the last is paid its worth at the start. */
  lemma {:induction false} PaidInOrder(w: World, ids: seq<nat>, i: nat)
    requires Valid(w) && Schedule(w, ids) && AllRedeemable(w) && i < |ids| - 1
    ensures Payment(w, Redemptions(ids[..i]), ids[i]) == Ok(Worth(w.pool, w.receipts[ids[i]]).value)
  {
    var ops, id := Redemptions(ids[..i]), ids[i];
    RedemptionsPrefix(w, ids, i);
    assert Others(ops, id);
    OthersKeepPayment(w, ops, id);
    assert ids[i + 1] in Run(w, ops).receipts - {id};
  }

  /**
   Redeeming all receipts, in any order, pays out exactly what the pool holds: each its worth
   at the start, the last one the rest.
   */
  lemma {:induction false} AnyOrderPaysEverything(w: World, ids: seq<nat>)
    requires Valid(w) && Schedule(w, ids) && AllRedeemable(w)
    ensures var w' := Run(w, Redemptions(ids));
            && w'.receipts == map[]
            && TotalValue(w'.pool) == 0
            && w'.withdrawn == w.withdrawn + TotalValue(w.pool)
    ensures forall i :: 0 <= i < |ids| - 1 ==>
              Payment(w, Redemptions(ids[..i]), ids[i]) == Ok(Worth(w.pool, w.receipts[ids[i]]).value)
  {
    assert ids[..|ids|] == ids;
    RedemptionsPrefix(w, ids, |ids|);
    var w' := Run(w, Redemptions(ids));
    SharesPositive(w'.receipts, w'.next);
    forall i | 0 <= i < |ids| - 1
      ensures Payment(w, Redemptions(ids[..i]), ids[i]) == Ok(Worth(w.pool, w.receipts[ids[i]]).value)
    {
      PaidInOrder(w, ids, i);
    }
  }

  /** Two orders pay a receipt that is last in neither the same amount. */
  lemma {:induction false} OrderDoesNotMatter(w: World, one: seq<nat>, two: seq<nat>, i: nat, j: nat)
    requires Valid(w) && AllRedeemable(w) && Schedule(w, one) && Schedule(w, two)
    requires i < |one| - 1 && j < |two| - 1 && one[i] == two[j]
    ensures Payment(w, Redemptions(one[..i]), one[i]) == Payment(w, Redemptions(two[..j]), two[j])
  {
    PaidInOrder(w, one, i);
    PaidInOrder(w, two, j);
  }

  // ---------------------------------------------------------------------------
  // Redeemability
  // ---------------------------------------------------------------------------

  /**
   In every reachable state an outstanding receipt passes the check, and with the pool in
   range it can be redeemed exactly when the price ratio fits or the receipt predates a drain.
   */
  lemma {:induction false} EveryReceiptIsRedeemable(ops: seq<Op>, id: nat)
    requires id in Run(START, ops).receipts
    ensures var w := Run(START, ops);
            && CanWithdraw(w.pool, w.receipts[id]).Ok?
            && w.pool.Live? && w.receipts[id].bias > 0
            && (InRange(w.pool.effective) ==>
                  (Withdraw(w.pool, w.receipts[id]).1.Ok? <==>
                     DrainedSince(w.pool, w.receipts[id]) || w.pool.bias * DIV / w.receipts[id].bias <= MAX))
  {
    var w := Run(START, ops);
    var r := w.receipts[id];
    ReachableIsValid(ops);
    RedemptionStep(w, id);
    MulMono(r.shares, w.pool.issued, w.pool.bias);
    QuoteExists(w.pool.bias, DrainedSince(w.pool, r), r);
    if InRange(w.pool.effective)
       && (DrainedSince(w.pool, r) || w.pool.bias * DIV / r.bias <= MAX) {
      QuoteDefined(w.pool.bias, DrainedSince(w.pool, r), r);
    }
  }

  // ---------------------------------------------------------------------------
  // Round trip
  // ---------------------------------------------------------------------------

  /** At its own price a receipt in range is worth its shares, floored once. */
  lemma {:induction false} WorthAtOwnPrice(r: Receipt)
    requires Sound(r) && InRange(r.shares)
    ensures Quote(r.bias, false, r) == Some(r.shares * r.bias / DIV)
  {
    var value := r.shares * r.bias;
    MulSwap(r.shares, DIV, r.bias);
    FloorCancel(value, DIV);
    assert r.bias * DIV == DIV * r.bias;
    FloorCancel(DIV, r.bias);
  }

  /**
   Deposit, let others deposit and redeem, redeem: in range this succeeds, and the depositor
   gets at most the principal and loses less than one unit and one share, or is the last
   holder and gets all that is there.
   */
  lemma {:induction false} RoundTrip(ops: seq<Op>, asset: u128, others: seq<Op>)
    requires Deposit(Run(START, ops).pool, asset).1.Ok?
    requires Others(others, Run(START, ops).next)
    requires InRange(asset) && InRange(Deposit(Run(START, ops).pool, asset).1.value.1.shares)
    ensures var w := Step(Run(START, ops), DepositOp(asset));
            var id := Run(START, ops).next;
            var end := Run(w, others);
            && w.pool.Live? && end.pool.Live?
            && Payment(w, others, id).Ok?
            && var paid := Payment(w, others, id).value;
               if LastHolder(end, id) then paid == end.pool.effective
               else paid <= asset && (paid + 1) * DIV + w.pool.bias > asset * DIV
  {
    var before := Run(START, ops);
    var w := Step(before, DepositOp(asset));
    var id := before.next;
    ReachableIsValid(ops);
    StepKeepsValid(before, DepositOp(asset));
    OthersKeepPayment(w, others, id);
    var r := w.receipts[id];
    assert id !in w.zeroed;
    WorthAtOwnPrice(r);
    Floor(r.shares * r.bias, DIV);
    if before.pool.Live? && before.pool.issued != 0 {
      SharesAreMaximal(before.pool, asset);
    }
    FloorAtMost(r.shares * r.bias, DIV, asset);
  }
}
