/** What repricings do to the receipts: mints, drains and revivals. */
module Revaluation {
  import opened Wrappers
  import opened FixedPoint
  import opened SharePool
  import opened PoolArithmetic
  import opened PoolRuns
  import opened PoolSafety
  import opened Redemption

  /** In a valid world the preview is the payment: the worth, or everything for the last holder. */
  lemma {:induction false} PreviewOf(w: World, id: nat)
    requires Valid(w) && id in w.receipts
    ensures w.pool.Live?
    ensures ReceiptActiveValue(w.pool, w.receipts[id]) ==
            match Worth(w.pool, w.receipts[id])
            case None => Err(InadequatePrecision)
            case Some(worth) => Ok(if LastHolder(w, id) then w.pool.effective else worth)
  {
    RedemptionStep(w, id);
    if Worth(w.pool, w.receipts[id]).Some? {
      WorthCovered(w.pool, w.receipts[id]);
      SettleInFull(w.pool, w.receipts[id].shares, Worth(w.pool, w.receipts[id]).value);
    }
  }

  /** The price a mint sets is at least the old one, however much dust had built up. */
  lemma {:induction false} MintRaisesPrice(p: Pool, asset: u128)
    requires Solvent(p) && asset != 0 && Mint(p, asset).1.Ok?
    ensures p.bias <= Mint(p, asset).0.bias
  {
    FloorAtLeast((p.effective + asset) * DIV, p.issued, p.bias);
  }

  /** A mint never lowers what a receipt is worth, also through the price-zero branch. */
  lemma {:induction false} MintNeverLowersPreviews(ops: seq<Op>, asset: u128, id: nat)
    requires id in Run(START, ops).receipts && Mint(Run(START, ops).pool, asset).1.Ok?
    requires ReceiptActiveValue(Run(START, ops).pool, Run(START, ops).receipts[id]).Ok?
    requires ReceiptActiveValue(Mint(Run(START, ops).pool, asset).0, Run(START, ops).receipts[id]).Ok?
    ensures ReceiptActiveValue(Run(START, ops).pool, Run(START, ops).receipts[id]).value <=
            ReceiptActiveValue(Mint(Run(START, ops).pool, asset).0, Run(START, ops).receipts[id]).value
  {
    var w := Run(START, ops);
    var r, w' := w.receipts[id], StepMint(w, asset);
    ReachableIsValid(ops);
    MintKeepsValid(w, asset);
    PreviewOf(w, id);
    PreviewOf(w', id);
    if asset != 0 {
      MintRaisesPrice(w.pool, asset);
      if w'.pool.bias == 0 {
        QuoteAtZero(DrainedSince(w.pool, r), r);
        QuoteAtZero(DrainedSince(w'.pool, r), r);
      } else {
        QuoteMono(w.pool.bias, w'.pool.bias, DrainedSince(w.pool, r), r);
      }
    }
  }

  // ---------------------------------------------------------------------------
  // Drain
  // ---------------------------------------------------------------------------

  /** Nothing is left and every share is priced at zero. */
  predicate Drained(p: Pool) {
    p.Live? && p.effective == 0 && p.bias == 0
  }

  lemma {:induction false} DrainedPool(p: Pool)
    requires Solvent(p)
    ensures Drain(p).1 == Ok(TotalValue(p))
    ensures TotalValue(Drain(p).0) == 0
    ensures Drain(p).0.Fresh? <==> p.Fresh?
    ensures p.Live? ==> Drain(p).0.issued == p.issued && (p.issued != 0 <==> Drained(Drain(p).0))
  {
    if p.Live? && p.effective == 0 && p.bias != 0 {
      MulMono(1, p.bias, p.issued);
    }
  }

  /** A drain always succeeds, removes exactly what the pool held, and leaves the receipts alone. */
  lemma {:induction false} DrainSucceeds(ops: seq<Op>)
    ensures var w, w' := Run(START, ops), Step(Run(START, ops), DrainOp);
            && Drain(w.pool).1 == Ok(TotalValue(w.pool))
            && w'.pool == Reap(w.pool, TotalValue(w.pool)).0
            && w'.reaped == w.reaped + TotalValue(w.pool)
            && w'.receipts == w.receipts
            && TotalValue(w'.pool) == 0
            && (w'.receipts != map[] <==> Drained(w'.pool))
  {
    EveryRunBalances(ops);
    ReachableIsValid(ops);
    DrainedPool(Run(START, ops).pool);
  }

  // ---------------------------------------------------------------------------
  // Price zero
  // ---------------------------------------------------------------------------

  /** Value that prices `issued` shares above zero and fits. */
  predicate Prices(value: nat, issued: nat) {
    issued <= value * DIV < MAX * issued + issued
  }

  /**
   The steps that lift a price of zero: a mint, or a reap of less than everything, that leaves
   enough value for one inner unit a share.
   */
  predicate Lifts(p: Pool, op: Op)
    requires p.Live?
  {
    match op
    case MintOp(v) => v != 0 && p.effective + v <= MAX && Prices(p.effective + v, p.issued)
    case ReapOp(v) => 0 < v < p.effective && Prices(p.effective - v, p.issued)
    case _ => false
  }

  lemma {:induction false} PricesIff(value: nat, issued: u128)
    requires issued > 0
    ensures Prices(value, issued) <==> 0 < value * DIV / issued <= MAX
  {
    Floor(value * DIV, issued);
    if Prices(value, issued) {
      FloorAtLeast(value * DIV, issued, 1);
      FloorAtMost(value * DIV, issued, MAX);
    } else if issued <= value * DIV {
      FloorAtLeast(value * DIV, issued, MAX + 1);
    } else {
      FloorAtMost(value * DIV, issued, 0);
    }
  }

  lemma {:induction false} LiftByMint(p: Pool, v: u128)
    requires p.Live? && p.bias == 0 && p.issued > 0
    ensures Mint(p, v).0.Live? && (Mint(p, v).0.bias != 0 <==> Lifts(p, MintOp(v)))
  {
    if p.effective + v <= MAX {
      PricesIff(p.effective + v, p.issued);
    }
  }

  lemma {:induction false} LiftByReap(p: Pool, v: u128)
    requires p.Live? && p.bias == 0 && p.issued > 0
    ensures Reap(p, v).0.Live? && (Reap(p, v).0.bias != 0 <==> Lifts(p, ReapOp(v)))
  {
    if v <= p.effective {
      PricesIff(p.effective - v, p.issued);
    }
  }

  /** While a receipt is outstanding a step moves the price away from zero exactly when it lifts it. */
  lemma {:induction false} LiftedIff(w: World, op: Op, id: nat)
    requires Valid(w) && w.pool.Live? && w.pool.bias == 0 && id in w.receipts && op != WithdrawOp(id)
    ensures var w' := Step(w, op);
            && w'.pool.Live?
            && (w'.pool.bias != 0 <==> Lifts(w.pool, op))
            && id in w'.receipts && w'.receipts[id] == w.receipts[id]
  {
    RedemptionStep(w, id);
    match op
    case DepositOp(asset) =>
    case WithdrawOp(other) =>
      if other in w.receipts {
        RedemptionStep(w, other);
        assert id in w.receipts - {other};
      }
    case MintOp(v) => LiftByMint(w.pool, v);
    case ReapOp(v) => LiftByReap(w.pool, v);
    case DrainOp => LiftByReap(w.pool, TotalValue(w.pool));
  }

  /** Steps of which none redeems receipt `id` or lifts the price where it stands. */
  predicate Unlifted(w: World, ops: seq<Op>, id: nat) {
    forall i :: 0 <= i < |ops| ==>
      && ops[i] != WithdrawOp(id)
      && (Run(w, ops[..i]).pool.Live? ==> !Lifts(Run(w, ops[..i]).pool, ops[i]))
  }

  lemma {:induction false} StaysAtZero(w: World, ops: seq<Op>, id: nat)
    requires Valid(w) && w.pool.Live? && w.pool.bias == 0 && id in w.receipts && Unlifted(w, ops, id)
    ensures var w' := Run(w, ops);
            && Valid(w')
            && w'.pool.Live? && w'.pool.bias == 0
            && id in w'.receipts && w'.receipts[id] == w.receipts[id]
  {
    RunKeepsValid(w, ops);
    if ops != [] {
      var before, op := ops[..|ops| - 1], ops[|ops| - 1];
      assert forall i :: 0 <= i < |before| ==> before[i] == ops[i] && before[..i] == ops[..i];
      StaysAtZero(w, before, id);
      LiftedIff(Run(w, before), op, id);
    }
  }

  /** At price zero every deposit is refused, and every receipt but the last previews zero. */
  lemma {:induction false} TermsAtZero(w: World, asset: u128, other: nat)
    requires Valid(w) && w.pool.Live? && w.pool.bias == 0
    ensures !Deposit(w.pool, asset).1.Ok?
    ensures asset != 0 ==> Deposit(w.pool, asset).1 == Err(BalanceDrainedCannotDeposit)
    ensures other in w.receipts ==>
              ReceiptActiveValue(w.pool, w.receipts[other]) == Ok(if LastHolder(w, other) then w.pool.effective else 0)
  {
    if other in w.receipts {
      PreviewOf(w, other);
      QuoteAtZero(DrainedSince(w.pool, w.receipts[other]), w.receipts[other]);
    }
  }

  /**
   After a drain, until a step lifts the price or the pool empties, every deposit is refused and
   every receipt previews zero, but the last one, which previews whatever was minted without
   lifting the price. The receipt `id` stands for the pool not emptying.
   */
  lemma {:induction false} DrainedUntilLift(ops: seq<Op>, more: seq<Op>, id: nat, asset: u128, other: nat)
    requires id in Run(START, ops).receipts && Unlifted(Run(START, ops + [DrainOp]), more, id)
    ensures var w := Run(Run(START, ops + [DrainOp]), more);
            && w.pool.Live? && w.pool.bias == 0
            && !Deposit(w.pool, asset).1.Ok?
            && (asset != 0 ==> Deposit(w.pool, asset).1 == Err(BalanceDrainedCannotDeposit))
            && (other in w.receipts ==>
                  ReceiptActiveValue(w.pool, w.receipts[other]) ==
                  Ok(if LastHolder(w, other) then w.pool.effective else 0))
  {
    OneMoreStep(ops, DrainOp);
    DrainSucceeds(ops);
    ReachableIsValid(ops + [DrainOp]);
    StaysAtZero(Run(START, ops + [DrainOp]), more, id);
    TermsAtZero(Run(Run(START, ops + [DrainOp]), more), asset, other);
  }

  /** Steps that neither mint nor redeem receipt `id`. */
  predicate NoMint(ops: seq<Op>, id: nat) {
    forall op :: op in ops ==> !op.MintOp? && op != WithdrawOp(id)
  }

  lemma {:induction false} DrainedStep(w: World, op: Op, id: nat)
    requires Valid(w) && Drained(w.pool) && id in w.receipts && !op.MintOp? && op != WithdrawOp(id)
    ensures !Lifts(w.pool, op) && Drained(Step(w, op).pool)
  {
    if op.WithdrawOp? && op.id in w.receipts {
      RedemptionStep(w, op.id);
      assert id in w.receipts - {op.id};
    }
  }

  lemma {:induction false} UnliftedOneMore(w: World, before: seq<Op>, op: Op, id: nat)
    requires Unlifted(w, before, id) && op != WithdrawOp(id)
    requires Run(w, before).pool.Live? && !Lifts(Run(w, before).pool, op)
    ensures Unlifted(w, before + [op], id) && Run(w, before + [op]) == Step(Run(w, before), op)
  {
    var more := before + [op];
    assert more[..|before|] == before;
    assert forall i :: 0 <= i < |before| ==> more[i] == before[i] && more[..i] == before[..i];
  }

  /** Without a mint there is nothing a reap could leave, and so nothing lifts the price. */
  lemma {:induction false} NoMintStaysDrained(w: World, more: seq<Op>, id: nat)
    requires Valid(w) && Drained(w.pool) && id in w.receipts && NoMint(more, id)
    ensures Unlifted(w, more, id) && Drained(Run(w, more).pool)
  {
    if more != [] {
      var before, op := more[..|more| - 1], more[|more| - 1];
      assert more == before + [op];
      NoMintStaysDrained(w, before, id);
      StaysAtZero(w, before, id);
      DrainedStep(Run(w, before), op, id);
      UnliftedOneMore(w, before, op, id);
    }
  }

  /** So until somebody mints, or the pool empties, the pool is empty of value and every receipt previews zero. */
  lemma {:induction false} DrainedUntilMint(ops: seq<Op>, more: seq<Op>, id: nat, asset: u128, other: nat)
    requires id in Run(START, ops).receipts && NoMint(more, id)
    ensures var w := Run(Run(START, ops + [DrainOp]), more);
            && Drained(w.pool)
            && !Deposit(w.pool, asset).1.Ok?
            && (asset != 0 ==> Deposit(w.pool, asset).1 == Err(BalanceDrainedCannotDeposit))
            && (other in w.receipts ==> ReceiptActiveValue(w.pool, w.receipts[other]) == Ok(0))
  {
    OneMoreStep(ops, DrainOp);
    DrainSucceeds(ops);
    ReachableIsValid(ops + [DrainOp]);
    NoMintStaysDrained(Run(START, ops + [DrainOp]), more, id);
    DrainedUntilLift(ops, more, id, asset, other);
  }

  // Two runs in which a mint is too small to lift the price.

  /** Value is minted into the drained pool, and still deposits are refused and the holder previews it all. */
  lemma {:induction false} MintLeavesPriceAtZero()
    ensures exists ops ::
              && Run(START, ops).pool == Live(5, 10 * DIV, 0, 2, 2)
              && Deposit(Run(START, ops).pool, 1000).1 == Err(BalanceDrainedCannotDeposit)
              && 0 in Run(START, ops).receipts
              && ReceiptActiveValue(Run(START, ops).pool, Run(START, ops).receipts[0]) == Ok(5)
  {
    var two := [DepositOp(10 * DIV), DrainOp];
    TwoSteps(DepositOp(10 * DIV), DrainOp);
    OneMoreStep(two, MintOp(5));
    var w := Run(START, two + [MintOp(5)]);
    assert Run(START, two).pool == Live(0, 10 * DIV, 0, 1, 1);
    assert w.pool == Live(5, 10 * DIV, 0, 2, 2) && w.receipts == map[0 := Receipt(10 * DIV, 10 * DIV, DIV, 0)];
    assert ReceiptActiveValue(w.pool, w.receipts[0]) == Ok(5);
  }

  lemma {:induction false} TwoHoldersDrained()
    ensures var w := Run(START, [DepositOp(10 * DIV), DepositOp(DIV), DrainOp]);
            && w.pool == Live(0, 11 * DIV, 0, 1, 1)
            && w.receipts == map[0 := Receipt(10 * DIV, 10 * DIV, DIV, 0), 1 := Receipt(DIV, DIV, DIV, 0)]
  {
    var two := [DepositOp(10 * DIV), DepositOp(DIV)];
    TwoSteps(DepositOp(10 * DIV), DepositOp(DIV));
    OneMoreStep(two, DrainOp);
    assert Run(START, two).pool == Live(11 * DIV, 11 * DIV, DIV, 0, 0);
    assert two + [DrainOp] == [DepositOp(10 * DIV), DepositOp(DIV), DrainOp];
  }

  lemma {:induction false} TwoHoldersMinted()
    ensures var w := Run(START, [DepositOp(10 * DIV), DepositOp(DIV), DrainOp] + [MintOp(5)]);
            && w.pool == Live(5, 11 * DIV, 0, 2, 2)
            && w.receipts == map[0 := Receipt(10 * DIV, 10 * DIV, DIV, 0), 1 := Receipt(DIV, DIV, DIV, 0)]
  {
    TwoHoldersDrained();
    OneMoreStep([DepositOp(10 * DIV), DepositOp(DIV), DrainOp], MintOp(5));
  }

  /** A holder leaves with nothing, and a reap of one unit then lifts the price from zero to four. */
  lemma {:induction false} ReapLiftsPrice()
    ensures exists ops ::
              && Run(START, ops).pool == Live(5, DIV, 0, 2, 2)
              && Lifts(Run(START, ops).pool, ReapOp(1))
              && Step(Run(START, ops), ReapOp(1)).pool == Live(4, DIV, 4, 3, 2)
  {
    var minted := [DepositOp(10 * DIV), DepositOp(DIV), DrainOp] + [MintOp(5)];
    TwoHoldersMinted();
    OneMoreStep(minted, WithdrawOp(0));
    assert Run(START, minted + [WithdrawOp(0)]).pool == Live(5, DIV, 0, 2, 2);
  }

  // ---------------------------------------------------------------------------
  // Revival
  // ---------------------------------------------------------------------------

  /** The pool after a drain and a mint in range: the old shares, at the price of what was minted. */
  lemma {:induction false} MintIntoDrained(p: Pool, v: u128)
    requires Drained(p) && p.issued > 0 && v > 0 && InRange(v)
    ensures v * DIV / p.issued <= MAX
    ensures Mint(p, v) ==
            (Checkpoint(p.(effective := v, bias := v * DIV / p.issued)), Ok(v))
  {
    Floor(v * DIV, p.issued);
  }

  lemma {:induction false} RevivedWorth(bias: u128, r: Receipt)
    requires Sound(r) && InRange(r.shares) && r.shares * bias <= MAX
    ensures Quote(bias, true, r) == Some(r.shares * bias / DIV)
  {
    QuoteDefined(bias, true, r);
    QuoteAfterDrain(bias, r);
  }

  function DrainThenMint(w: World, v: u128): World {
    Step(Step(w, DrainOp), MintOp(v))
  }

  lemma {:induction false} RevivedPool(ops: seq<Op>, v: u128, id: nat)
    requires id in Run(START, ops).receipts && v > 0 && InRange(v)
    ensures var w, revived := Run(START, ops), DrainThenMint(Run(START, ops), v);
            && Valid(revived)
            && revived.receipts == w.receipts
            && w.pool.Live? && w.pool.issued >= w.receipts[id].shares > 0
            && revived.pool.Live? && revived.pool.effective == v && revived.pool.issued == w.pool.issued
            && revived.pool.bias == v * DIV / w.pool.issued
            && (w.receipts[id].checkpoint < MAX_TIME ==> DrainedSince(revived.pool, w.receipts[id]))
  {
    var w := Run(START, ops);
    ReachableIsValid(ops);
    RedemptionStep(w, id);
    DrainSucceeds(ops);
    var drained := Step(w, DrainOp);
    StepKeepsValid(w, DrainOp);
    MintIntoDrained(drained.pool, v);
    StepKeepsValid(drained, MintOp(v));
  }

  /**
   Drain, then mint `v`: the mint succeeds, and a receipt that is not the last gets its shares
   at the new price, whatever price it was issued at.
   */
  lemma {:induction false} Revival(ops: seq<Op>, v: u128, id: nat)
    requires id in Run(START, ops).receipts && v > 0 && InRange(v)
    requires InRange(Run(START, ops).receipts[id].shares)
    requires Run(START, ops).receipts[id].checkpoint < MAX_TIME
    ensures var w, revived := Run(START, ops), DrainThenMint(Run(START, ops), v);
            && w.pool.Live? && w.pool.issued > 0
            && ReceiptActiveValue(revived.pool, w.receipts[id]) ==
               Ok(if LastHolder(revived, id) then v
                  else w.receipts[id].shares * (v * DIV / w.pool.issued) / DIV)
  {
    var revived := DrainThenMint(Run(START, ops), v);
    var r := revived.receipts[id];
    RevivedPool(ops, v, id);
    PreviewOf(revived, id);
    Floor(v * DIV, revived.pool.issued);
    MulMono(r.shares, revived.pool.issued, revived.pool.bias);
    RevivedWorth(revived.pool.bias, r);
  }

  /** What a receipt whose drain goes unseen is worth: in range, only the price ratio can fail to fit. */
  lemma {:induction false} StaleWorth(bias: u128, r: Receipt)
    requires Sound(r) && InRange(r.shares) && r.shares * bias <= MAX
    ensures Quote(bias, false, r).Some? <==> bias * DIV / r.bias <= MAX
    ensures Quote(bias, false, r).Some? ==>
              var worth := Quote(bias, false, r).value;
              worth * DIV <= r.shares * bias < worth * DIV + DIV + r.principal
  {
    QuoteExists(bias, false, r);
    if bias * DIV / r.bias <= MAX {
      QuoteDefined(bias, false, r);
      QuoteAtMost(bias, false, r);
      QuoteLossBounded(bias, false, r);
    }
  }

  /**
   The same for a receipt stamped at the saturated counter, whose drain goes unseen: it is
   valued from its deposit-time price, so it fails exactly when the ratio of the two prices does
   not fit, and otherwise gets its shares at the new price up to one unit and one unit of
   precision per unit of principal.
   */
  lemma {:induction false} StaleRevival(ops: seq<Op>, v: u128, id: nat)
    requires id in Run(START, ops).receipts && v > 0 && InRange(v)
    requires InRange(Run(START, ops).receipts[id].shares)
    requires Run(START, ops).receipts[id].checkpoint == MAX_TIME
    ensures var w, revived := Run(START, ops), DrainThenMint(Run(START, ops), v);
            && w.pool.Live? && w.pool.issued > 0 && w.receipts[id].bias > 0
            && var r, price := w.receipts[id], v * DIV / w.pool.issued;
               var preview := ReceiptActiveValue(revived.pool, r);
               && (preview.Ok? <==> price * DIV / r.bias <= MAX)
               && (preview.Err? ==> preview.error == InadequatePrecision)
               && (preview.Ok? ==>
                     if LastHolder(revived, id) then preview.value == v
                     else preview.value * DIV <= r.shares * price < preview.value * DIV + DIV + r.principal)
  {
    var revived := DrainThenMint(Run(START, ops), v);
    var r := revived.receipts[id];
    RevivedPool(ops, v, id);
    PreviewOf(revived, id);
    Floor(v * DIV, revived.pool.issued);
    MulMono(r.shares, revived.pool.issued, revived.pool.bias);
    StaleWorth(revived.pool.bias, r);
  }
}
