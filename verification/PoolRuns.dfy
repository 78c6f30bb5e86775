/**
 Every run of one pool: the state machine over deposits, withdrawals, mints, reaps and
 drains, its books, and the invariant all its states keep.
 */
module PoolRuns {
  import opened Wrappers
  import opened FixedPoint
  import opened SharePool
  import opened PoolArithmetic

  datatype Op =
    | DepositOp(asset: u128)
    | WithdrawOp(id: nat)
    | MintOp(asset: u128)
    | ReapOp(asset: u128)
    | DrainOp

  /**
   The pool, the receipts not yet redeemed, and the books of the whole run.
   `zeroed` holds the receipts that saw the price fall to zero since their deposit.
   `lost` is the value of reaps that reported an error after removing it.
   */
  datatype World = World(
    pool: Pool,
    receipts: map<nat, Receipt>,
    next: nat,
    zeroed: set<nat>,
    deposited: nat,
    minted: nat,
    reaped: nat,
    withdrawn: nat,
    lost: nat)

  const START: World := World(Fresh, map[], 0, {}, 0, 0, 0, 0, 0)

  // ---------------------------------------------------------------------------
  // Steps and runs
  // ---------------------------------------------------------------------------

  /** A mint or a reap of a non-zero amount sets a new price; at price zero it marks every receipt. */
  function Repriced(w: World, p: Pool, amount: nat): World {
    w.(pool := p,
       zeroed := if amount != 0 && p.Live? && p.bias == 0 then w.zeroed + w.receipts.Keys else w.zeroed)
  }

  function StepDeposit(w: World, asset: u128): World {
    var (p, r) := Deposit(w.pool, asset);
    match r
    case Err(_) => w.(pool := p)
    case Ok((actual, receipt)) =>
      w.(pool := p,
         receipts := w.receipts[w.next := receipt],
         next := w.next + 1,
         deposited := w.deposited + actual)
  }

  function StepWithdraw(w: World, id: nat): World {
    if id !in w.receipts then w
    else
      var (p, r) := Withdraw(w.pool, w.receipts[id]);
      match r
      case Err(_) => w.(pool := p)
      case Ok(paid) => w.(pool := p, receipts := w.receipts - {id}, withdrawn := w.withdrawn + paid)
  }

  function StepMint(w: World, asset: u128): World {
    var (p, r) := Mint(w.pool, asset);
    match r
    case Err(_) => w.(pool := p)
    case Ok(actual) => Repriced(w, p, actual).(minted := w.minted + actual)
  }

  function StepReap(w: World, asset: u128): World {
    var (p, r) := Reap(w.pool, asset);
    match r
    case Err(_) => w.(pool := p, lost := w.lost + TotalValue(w.pool) - TotalValue(p))
    case Ok(actual) => Repriced(w, p, actual).(reaped := w.reaped + actual)
  }

  function Step(w: World, op: Op): World {
    match op
    case DepositOp(asset) => StepDeposit(w, asset)
    case WithdrawOp(id) => StepWithdraw(w, id)
    case MintOp(asset) => StepMint(w, asset)
    case ReapOp(asset) => StepReap(w, asset)
    case DrainOp => StepReap(w, TotalValue(w.pool))
  }

  function Run(w: World, ops: seq<Op>): World {
    if ops == [] then w else Step(Run(w, ops[..|ops| - 1]), ops[|ops| - 1])
  }

  lemma {:induction false} OneMoreStep(ops: seq<Op>, op: Op)
    ensures Run(START, ops + [op]) == Step(Run(START, ops), op)
  {
    assert (ops + [op])[..|ops|] == ops;
  }

  lemma {:induction false} TwoSteps(a: Op, b: Op)
    ensures Run(START, [a]) == Step(START, a)
    ensures Run(START, [a, b]) == Step(Step(START, a), b)
  {
    OneMoreStep([], a);
    OneMoreStep([a], b);
    assert [] + [a] == [a] && [a] + [b] == [a, b];
  }

  // ---------------------------------------------------------------------------
  // The invariant
  // ---------------------------------------------------------------------------

  /** Total shares of the receipts with an identifier below `n`. */
  function SharesBelow(receipts: map<nat, Receipt>, n: nat): nat {
    if n == 0 then 0
    else SharesBelow(receipts, n - 1) + if n - 1 in receipts then receipts[n - 1].shares else 0
  }

  /** At the current price the issued shares are worth no more than the pool holds. */
  predicate Solvent(p: Pool) {
    p.Live? ==>
      && p.bias * p.issued <= p.effective * DIV
      && (p.issued == 0 ==> p.effective == 0 && p.bias == DIV)
      && p.drainpoint <= p.checkpoint
  }

  /** The issued shares are exactly those of the outstanding receipts. */
  predicate Backed(w: World) {
    && (forall id :: id in w.receipts ==> id < w.next && Sound(w.receipts[id]))
    && (w.pool.Live? ==> w.pool.issued == SharesBelow(w.receipts, w.next))
    && (w.pool.Fresh? ==> w.receipts == map[])
  }

  predicate Booked(w: World) {
    TotalValue(w.pool) + w.withdrawn + w.reaped + w.lost == w.deposited + w.minted
  }

  /** The two counters recognise the receipts that saw price zero, up to counter saturation. */
  predicate Stamped(w: World) {
    && (forall id :: id in w.zeroed ==> id < w.next)
    && (w.pool.Live? ==> forall id :: id in w.receipts ==>
         var r := w.receipts[id];
         && r.checkpoint <= w.pool.checkpoint
         && (DrainedSince(w.pool, r) <==> id in w.zeroed && r.checkpoint < MAX_TIME)
         && (w.pool.bias == 0 ==> id in w.zeroed))
  }

  predicate Valid(w: World) {
    Solvent(w.pool) && Backed(w) && Booked(w) && Stamped(w)
  }

  // ---------------------------------------------------------------------------
  // Sums of shares
  // ---------------------------------------------------------------------------

  lemma {:induction false} SharesFrame(receipts: map<nat, Receipt>, receipts': map<nat, Receipt>, n: nat)
    requires forall id: nat :: id < n ==> (id in receipts <==> id in receipts')
    requires forall id: nat :: id < n && id in receipts ==> receipts[id] == receipts'[id]
    ensures SharesBelow(receipts, n) == SharesBelow(receipts', n)
  {
    if n > 0 {
      SharesFrame(receipts, receipts', n - 1);
    }
  }

  lemma {:induction false} SharesRemove(receipts: map<nat, Receipt>, id: nat, n: nat)
    requires id in receipts && id < n
    ensures SharesBelow(receipts, n) == SharesBelow(receipts - {id}, n) + receipts[id].shares
  {
    if id == n - 1 {
      SharesFrame(receipts, receipts - {id}, id);
    } else {
      SharesRemove(receipts, id, n - 1);
    }
  }

  /** The issued shares run out exactly when the receipts do. */
  lemma {:induction false} SharesPositive(receipts: map<nat, Receipt>, n: nat)
    requires forall id :: id in receipts ==> id < n && receipts[id].shares > 0
    ensures SharesBelow(receipts, n) == 0 <==> receipts == map[]
  {
    if id :| id in receipts {
      SharesRemove(receipts, id, n);
    } else {
      SharesFrame(receipts, map[], n);
      NoShares(n);
    }
  }

  lemma {:induction false} NoShares(n: nat)
    ensures SharesBelow(map[], n) == 0
  {
    if n > 0 {
      NoShares(n - 1);
    }
  }

  // ---------------------------------------------------------------------------
  // Every step keeps the invariant
  // ---------------------------------------------------------------------------

  lemma {:induction false} DepositKeepsSolvency(pool: Pool, asset: u128)
    requires Solvent(pool)
    ensures Solvent(Deposit(pool, asset).0)
    ensures Deposit(pool, asset).1.Ok? ==> Sound(Deposit(pool, asset).1.value.1)
  {
    var p := if pool.Fresh? then INITIAL else pool;
    if Deposit(pool, asset).1.Ok? {
      var shares := SharesFor(p, asset).value;
      if p.issued != 0 {
        SharesNeverOverpriced(p, asset);
      }
      assert p.bias * (p.issued + shares) == p.bias * p.issued + shares * p.bias;
    }
  }

  /** A floored price never asks for more than the pool holds. */
  lemma {:induction false} PriceIsSolvent(effective: u128, issued: u128)
    requires issued > 0
    ensures effective * DIV / issued * issued <= effective * DIV < effective * DIV / issued * issued + issued
  {
    Floor(effective * DIV, issued);
  }

  lemma {:induction false} MintKeepsSolvency(p: Pool, asset: u128)
    requires Solvent(p)
    ensures Solvent(Mint(p, asset).0)
  {
    if p.Live? && p.issued != 0 && p.effective + asset <= MAX {
      PriceIsSolvent(p.effective + asset, p.issued);
    }
  }

  /** A reap keeps the pool solvent even when it fails half way: the new price was too high to store. */
  lemma {:induction false} ReapKeepsSolvency(p: Pool, asset: u128)
    requires Solvent(p)
    ensures Solvent(Reap(p, asset).0)
  {
    if p.Live? && p.issued != 0 && asset <= p.effective {
      var rest := p.effective - asset;
      PriceIsSolvent(rest, p.issued);
      if rest * DIV / p.issued > MAX {
        MulMono(p.bias, rest * DIV / p.issued, p.issued);
      }
    }
  }

  /** A solvent pool can pay `worth` in full, and what it keeps covers the shares it keeps. */
  lemma {:induction false} SettleInFull(p: Pool, shares: u128, worth: u128)
    requires Solvent(p) && p.Live? && 0 < shares <= p.issued && worth * DIV <= shares * p.bias
    ensures worth <= p.effective
    ensures Solvent(Settle(p, shares, worth).0)
    ensures shares < p.issued ==>
              Settle(p, shares, worth) == (p.(effective := p.effective - worth, issued := p.issued - shares), worth)
    ensures shares == p.issued ==>
              Settle(p, shares, worth) ==
              (if worth < p.effective then INITIAL else p.(effective := 0, issued := 0, bias := DIV), p.effective)
  {
    MulMono(shares, p.issued, p.bias);
    assert p.bias * (p.issued - shares) == p.bias * p.issued - shares * p.bias;
  }

  lemma {:induction false} WorthCovered(p: Pool, r: Receipt)
    requires Solvent(p) && p.Live? && Sound(r) && r.shares <= p.issued && Worth(p, r).Some?
    ensures var worth := Worth(p, r).value;
            && worth * DIV <= r.shares * p.bias
            && worth <= p.effective
            && Withdraw(p, r) == (Settle(p, r.shares, worth).0, Ok(Settle(p, r.shares, worth).1))
            && Solvent(Withdraw(p, r).0)
  {
    QuoteAtMost(p.bias, DrainedSince(p, r), r);
    SettleInFull(p, r.shares, Worth(p, r).value);
  }

  lemma {:induction false} DepositKeepsBacked(w: World, asset: u128)
    requires Solvent(w.pool) && Backed(w)
    ensures Backed(StepDeposit(w, asset))
  {
    DepositKeepsSolvency(w.pool, asset);
    if Deposit(w.pool, asset).1.Ok? {
      SharesFrame(w.receipts, StepDeposit(w, asset).receipts, w.next);
      NoShares(w.next);
    }
  }

  lemma {:induction false} DepositKeepsValid(w: World, asset: u128)
    requires Valid(w)
    ensures Valid(StepDeposit(w, asset))
  {
    DepositKeepsSolvency(w.pool, asset);
    DepositKeepsBacked(w, asset);
  }

  /**
   Redeeming an outstanding receipt: nothing happens when its worth cannot be computed,
   a holder among others is paid the worth, and the last holder is paid the whole pool.
   */
  lemma {:induction false} RedemptionStep(w: World, id: nat)
    requires Valid(w) && id in w.receipts
    ensures w.pool.Live? && 0 < w.receipts[id].shares <= w.pool.issued
    ensures w.receipts[id].shares == w.pool.issued <==> w.receipts - {id} == map[]
    ensures var p, r, w' := w.pool, w.receipts[id], StepWithdraw(w, id);
            match Worth(p, r)
            case None => w' == w
            case Some(worth) =>
              && worth * DIV <= r.shares * p.bias
              && worth <= p.effective
              && w'.receipts == w.receipts - {id}
              && (r.shares < p.issued ==>
                    && w'.pool == p.(effective := p.effective - worth, issued := p.issued - r.shares)
                    && w' == w.(pool := w'.pool, receipts := w'.receipts, withdrawn := w.withdrawn + worth))
              && (r.shares == p.issued ==>
                    && w'.pool ==
                       (if worth < p.effective then INITIAL else p.(effective := 0, issued := 0, bias := DIV))
                    && w' == w.(pool := w'.pool, receipts := map[], withdrawn := w.withdrawn + p.effective))
  {
    var p, r := w.pool, w.receipts[id];
    SharesRemove(w.receipts, id, w.next);
    SharesPositive(w.receipts - {id}, w.next);
    if Worth(p, r).Some? {
      WorthCovered(p, r);
      SettleInFull(p, r.shares, Worth(p, r).value);
    }
  }

  lemma {:induction false} WithdrawKeepsValid(w: World, id: nat)
    requires Valid(w)
    ensures Valid(StepWithdraw(w, id))
  {
    if id in w.receipts {
      RedemptionStep(w, id);
      SharesRemove(w.receipts, id, w.next);
      if Worth(w.pool, w.receipts[id]).Some? {
        WorthCovered(w.pool, w.receipts[id]);
      }
    }
  }

  lemma {:induction false} MintKeepsValid(w: World, asset: u128)
    requires Valid(w)
    ensures Valid(StepMint(w, asset))
  {
    MintKeepsSolvency(w.pool, asset);
  }

  lemma {:induction false} ReapKeepsValid(w: World, asset: u128)
    requires Valid(w)
    ensures Valid(StepReap(w, asset))
  {
    ReapKeepsSolvency(w.pool, asset);
  }

  lemma {:induction false} StepKeepsValid(w: World, op: Op)
    requires Valid(w)
    ensures Valid(Step(w, op))
  {
    match op
    case DepositOp(asset) => DepositKeepsValid(w, asset);
    case WithdrawOp(id) => WithdrawKeepsValid(w, id);
    case MintOp(asset) => MintKeepsValid(w, asset);
    case ReapOp(asset) => ReapKeepsValid(w, asset);
    case DrainOp => ReapKeepsValid(w, TotalValue(w.pool));
  }

  lemma {:induction false} RunKeepsValid(w: World, ops: seq<Op>)
    requires Valid(w)
    ensures Valid(Run(w, ops))
  {
    if ops != [] {
      RunKeepsValid(w, ops[..|ops| - 1]);
      StepKeepsValid(Run(w, ops[..|ops| - 1]), ops[|ops| - 1]);
    }
  }
}
