/** What holds after every run that starts from a pool nobody has deposited into. */
module PoolSafety {
  import opened Wrappers
  import opened FixedPoint
  import opened SharePool
  import opened PoolRuns

  lemma {:induction false} ReachableIsValid(ops: seq<Op>)
    ensures Valid(Run(START, ops))
  {
    RunKeepsValid(START, ops);
  }

  /**
   Solvency. The shares at the current price never exceed the pool. Every outstanding
   receipt is worth no more than its shares at that price, no more than its pro-rata part
   of the pool, and no more than what is there, so the cap in the withdrawal never bites.
   */
  lemma {:induction false} EveryRunIsSolvent(ops: seq<Op>, id: nat)
    ensures var p := Run(START, ops).pool;
            p.Live? ==> p.bias * p.issued <= p.effective * DIV
    ensures var w := Run(START, ops);
            id in w.receipts ==>
              && w.pool.Live?
              && w.receipts[id].shares <= w.pool.issued
              && (Worth(w.pool, w.receipts[id]).Some? ==>
                    var worth := Worth(w.pool, w.receipts[id]).value;
                    && worth * DIV <= w.receipts[id].shares * w.pool.bias
                    && worth * w.pool.issued <= w.receipts[id].shares * w.pool.effective
                    && worth <= w.pool.effective)
  {
    var w := Run(START, ops);
    ReachableIsValid(ops);
    if id in w.receipts {
      SharesRemove(w.receipts, id, w.next);
      if Worth(w.pool, w.receipts[id]).Some? {
        var worth := Worth(w.pool, w.receipts[id]).value;
        WorthCovered(w.pool, w.receipts[id]);
        ProRata(worth, w.receipts[id].shares, w.pool.bias, w.pool.issued, w.pool.effective);
      }
    }
  }

  lemma {:induction false} ProRata(worth: nat, shares: nat, bias: nat, issued: nat, effective: nat)
    requires worth * DIV <= shares * bias && bias * issued <= effective * DIV
    ensures worth * issued <= shares * effective
  {
    MulMono(worth * DIV, shares * bias, issued);
    MulMono(bias * issued, effective * DIV, shares);
    assert shares * bias * issued == bias * issued * shares;
    assert worth * DIV * issued == worth * issued * DIV;
    assert effective * DIV * shares == shares * effective * DIV;
  }

  /**
   Conservation. What the pool holds is what came in less what went out, `lost` being the
   reaps that failed after removing value; its shares are those of the outstanding receipts.
   */
  lemma {:induction false} EveryRunBalances(ops: seq<Op>)
    ensures var w := Run(START, ops);
            && TotalValue(w.pool) == w.deposited + w.minted - w.reaped - w.withdrawn - w.lost
            && (w.pool.Live? ==> w.pool.issued == SharesBelow(w.receipts, w.next))
            && (w.receipts != map[] <==> w.pool.Live? && w.pool.issued != 0)
            && (w.receipts == map[] ==> TotalValue(w.pool) == 0)
  {
    var w := Run(START, ops);
    ReachableIsValid(ops);
    SharesPositive(w.receipts, w.next);
  }

  lemma {:induction false} LeakOfReap(w: World, asset: u128)
    requires Valid(w)
    ensures var w' := StepReap(w, asset);
            && (w'.lost != w.lost <==>
                  && w.pool.Live? && 0 < asset < w.pool.effective && w.pool.issued != 0
                  && (w.pool.effective - asset) * DIV / w.pool.issued > MAX)
            && (w'.lost != w.lost ==>
                  && w'.lost == w.lost + asset
                  && w'.pool == w.pool.(effective := w.pool.effective - asset))
  {
  }

  lemma {:induction false} LeakOfStep(w: World, op: Op)
    requires Valid(w)
    ensures var w' := Step(w, op);
            && (w'.lost != w.lost <==>
                  && op.ReapOp? && w.pool.Live? && 0 < op.asset < w.pool.effective && w.pool.issued != 0
                  && (w.pool.effective - op.asset) * DIV / w.pool.issued > MAX)
            && (w'.lost != w.lost ==>
                  && w'.lost == w.lost + op.asset
                  && w'.pool == w.pool.(effective := w.pool.effective - op.asset))
  {
    match op
    case DepositOp(asset) =>
    case WithdrawOp(id) =>
    case MintOp(asset) =>
    case ReapOp(asset) => LeakOfReap(w, asset);
    case DrainOp => LeakOfReap(w, TotalValue(w.pool));
  }

  /**
   The only error that changes a pool is a reap whose new price does not fit: the value is
   gone and the old price stays.
   */
  lemma {:induction false} OnlyReapLeaks(ops: seq<Op>, op: Op)
    ensures var w, w' := Run(START, ops), Step(Run(START, ops), op);
            w'.lost != w.lost <==>
              && op.ReapOp? && w.pool.Live? && 0 < op.asset < w.pool.effective && w.pool.issued != 0
              && (w.pool.effective - op.asset) * DIV / w.pool.issued > MAX
    ensures var w, w' := Run(START, ops), Step(Run(START, ops), op);
            w'.lost != w.lost ==>
              && w'.lost == w.lost + op.asset
              && w'.pool == w.pool.(effective := w.pool.effective - op.asset)
  {
    ReachableIsValid(ops);
    LeakOfStep(Run(START, ops), op);
  }

  // ---------------------------------------------------------------------------
  // The counters
  // ---------------------------------------------------------------------------

  /**
   For every outstanding receipt `drainpoint > checkpoint` holds exactly when a repricing
   to zero happened after its deposit, unless the counter had saturated at its deposit.
   */
  lemma {:induction false} CountersRecogniseDrains(ops: seq<Op>, id: nat)
    requires id in Run(START, ops).receipts
    ensures var w := Run(START, ops);
            && w.pool.Live?
            && (DrainedSince(w.pool, w.receipts[id]) <==> id in w.zeroed && w.receipts[id].checkpoint < MAX_TIME)
  {
    ReachableIsValid(ops);
  }

  lemma {:induction false} CountersOfStep(w: World, op: Op)
    requires Valid(w) && w.pool.Live?
    ensures var w' := Step(w, op);
            && w'.pool.Live?
            && (w'.pool.checkpoint < w.pool.checkpoint || w'.pool.drainpoint < w.pool.drainpoint ==>
                  w'.receipts == map[])
  {
    match op
    case DepositOp(asset) =>
    case WithdrawOp(id) =>
      if id in w.receipts {
        RedemptionStep(w, id);
      }
    case MintOp(asset) =>
    case ReapOp(asset) =>
    case DrainOp =>
  }

  /** The counters go back only when no receipt is outstanding. */
  lemma {:induction false} CountersResetWhenEmpty(ops: seq<Op>, op: Op)
    requires Run(START, ops).pool.Live?
    ensures var w, w' := Run(START, ops), Step(Run(START, ops), op);
            && w'.pool.Live?
            && (w'.pool.checkpoint < w.pool.checkpoint || w'.pool.drainpoint < w.pool.drainpoint ==>
                  w'.receipts == map[])
  {
    ReachableIsValid(ops);
    CountersOfStep(Run(START, ops), op);
  }

  // A run that saturates the counter: one share, then one unit minted at a time.

  function Mints(n: nat): seq<Op> {
    seq(n, i => MintOp(1))
  }

  lemma {:induction false} OneMoreMint(n: nat)
    requires n > 0
    ensures Run(START, [DepositOp(1)] + Mints(n)) == StepMint(Run(START, [DepositOp(1)] + Mints(n - 1)), 1)
  {
    assert ([DepositOp(1)] + Mints(n))[..n] == [DepositOp(1)] + Mints(n - 1);
  }

  lemma {:induction false} FirstDeposit()
    ensures Run(START, [DepositOp(1)]) == StepDeposit(START, 1)
  {
    assert [DepositOp(1)][..0] == [];
  }

  lemma {:induction false} MintOne(n: nat)
    requires 0 < n <= MAX_TIME
    ensures Mint(Live(n, 1, n * DIV, n - 1, 0), 1) == (Live(1 + n, 1, (1 + n) * DIV, n, 0), Ok(1))
  {
  }

  lemma {:induction false} MintsOneByOne(n: nat)
    requires n <= MAX_TIME
    ensures Run(START, [DepositOp(1)] + Mints(n)).pool == Live(1 + n, 1, (1 + n) * DIV, n, 0)
    ensures Run(START, [DepositOp(1)] + Mints(n)).receipts == map[0 := Receipt(1, 1, DIV, 0)]
    ensures Run(START, [DepositOp(1)] + Mints(n)).next == 1
  {
    if n == 0 {
      assert [DepositOp(1)] + Mints(0) == [DepositOp(1)];
      FirstDeposit();
    } else {
      MintsOneByOne(n - 1);
      OneMoreMint(n);
      MintOne(n);
    }
  }

  /** A receipt issued at the saturated counter sees a drain the counters do not show. */
  lemma {:induction false} SaturatedCounterMissesDrain()
    ensures exists ops, id ::
              && id in Run(START, ops).receipts
              && id in Run(START, ops).zeroed
              && Run(START, ops).pool.Live?
              && !DrainedSince(Run(START, ops).pool, Run(START, ops).receipts[id])
  {
    var saturate := [DepositOp(1)] + Mints(MAX_TIME);
    MintsOneByOne(MAX_TIME);
    var price := (1 + MAX_TIME) * DIV;
    var buy := saturate + [DepositOp(1 + MAX_TIME)];
    assert buy[..|saturate|] == saturate;
    var drain := buy + [DrainOp];
    assert drain[..|buy|] == buy;
    var w := Run(START, buy);
    assert w.receipts[1] == Receipt(1 + MAX_TIME, 1, price, MAX_TIME);
    assert 1 in Run(START, drain).zeroed;
  }
}
