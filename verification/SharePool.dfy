/**
 The share-based pool as a value, with one function per operation. The class in
 ShareBalance.dfy runs these steps in place; PoolRuns.dfy proves what every run of
 them keeps.
 */
module SharePool {
  import opened Wrappers
  import opened FixedPoint

  const MAX_TIME: nat := 0xFFFF_FFFF

  type u32 = x: nat | x <= MAX_TIME

  datatype Error =
    | ZeroDepositNotAllowed
    | BalanceNotInitiatedViaDeposit
    | BalanceDrainedCannotDeposit
    | InadequatePrecision
    | LessThanOneShareDerived
    | AssetOverflow
    | AssetUnderflow
    | SharesOverflow
    | RequiresExistingDeposits
    | ZeroAdjustmentNotAllowed
    | InvalidReceipt

  /**
   `bias` is the price of one share, a fixed-point number. `checkpoint` counts the
   repricings, `drainpoint` is the count at the last repricing to zero.
   A pool nobody has deposited into yet has no fields at all.
   */
  datatype Pool =
    | Fresh
    | Live(effective: u128, issued: u128, bias: u128, checkpoint: u32, drainpoint: u32)

  datatype Receipt = Receipt(principal: u128, shares: u128, bias: u128, checkpoint: u32)

  const INITIAL: Pool := Live(0, 0, DIV, 0, 0)

  function Tick(t: u32): u32 {
    if t < MAX_TIME then t + 1 else MAX_TIME
  }

  /** The balance counter moves on every repricing and remembers the ones to zero. */
  function Checkpoint(p: Pool): Pool
    requires p.Live?
  {
    var next := Tick(p.checkpoint);
    p.(drainpoint := if p.bias == 0 then next else p.drainpoint, checkpoint := next)
  }

  // ---------------------------------------------------------------------------
  // Deposit
  // ---------------------------------------------------------------------------

  /** Shares bought by `asset`: one for one in an empty pool, else at the current price. */
  function SharesFor(p: Pool, asset: u128): Option<u128>
    requires p.Live?
  {
    if p.issued == 0 then Some(asset)
    else
      var quotient :- CheckedDiv(SaturatingFromInteger(asset), p.bias);
      Some(quotient / DIV)
  }

  function Deposit(pool: Pool, asset: u128): (Pool, Result<(u128, Receipt), Error>) {
    if asset == 0 then (pool, Err(ZeroDepositNotAllowed))
    else
      var p := if pool.Fresh? then INITIAL else pool;
      if p.bias == 0 then (p, Err(BalanceDrainedCannotDeposit))
      else match SharesFor(p, asset)
        case None => (p, Err(InadequatePrecision))
        case Some(shares) =>
          if shares == 0 then (p, Err(LessThanOneShareDerived))
          else if p.effective + asset > MAX then (p, Err(AssetOverflow))
          else if p.issued + shares > MAX then (p, Err(SharesOverflow))
          else (p.(effective := p.effective + asset, issued := p.issued + shares),
                Ok((asset, Receipt(asset, shares, p.bias, p.checkpoint))))
  }

  function CanDeposit(p: Pool, asset: u128): Result<(), Error> {
    if p.Fresh? then Ok(())
    else if p.bias == 0 && p.issued != 0 then Err(BalanceDrainedCannotDeposit)
    else if p.effective + asset > MAX then Err(AssetOverflow)
    else Ok(())
  }

  // ---------------------------------------------------------------------------
  // Mint and reap
  // ---------------------------------------------------------------------------

  function Mint(p: Pool, asset: u128): (Pool, Result<u128, Error>) {
    if asset == 0 then (p, Ok(0))
    else if p.Fresh? then (p, Err(BalanceNotInitiatedViaDeposit))
    else if p.issued == 0 then (p, Err(RequiresExistingDeposits))
    else if p.effective + asset > MAX then (p, Err(AssetOverflow))
    else match CheckedFromRational(p.effective + asset, p.issued)
      case None => (p, Err(InadequatePrecision))
      case Some(price) =>
        (Checkpoint(p.(effective := p.effective + asset, bias := price)), Ok(asset))
  }

  function CanMint(p: Pool, asset: u128): Result<(), Error> {
    if asset == 0 then Err(ZeroAdjustmentNotAllowed)
    else if p.Fresh? then Err(BalanceNotInitiatedViaDeposit)
    else if p.issued == 0 then Err(RequiresExistingDeposits)
    else if p.effective + asset > MAX then Err(AssetOverflow)
    else Ok(())
  }

  /** The value is removed before the price is recomputed, and stays removed if that fails. */
  function Reap(p: Pool, asset: u128): (Pool, Result<u128, Error>) {
    if asset == 0 then (p, Ok(0))
    else if p.Fresh? then (p, Err(BalanceNotInitiatedViaDeposit))
    else if p.issued == 0 then (p, Err(RequiresExistingDeposits))
    else if p.effective < asset then (p, Err(AssetUnderflow))
    else
      var q := p.(effective := p.effective - asset);
      if q.effective == 0 then (Checkpoint(q.(bias := 0)), Ok(asset))
      else match CheckedFromRational(q.effective, q.issued)
        case None => (q, Err(InadequatePrecision))
        case Some(price) => (Checkpoint(q.(bias := price)), Ok(asset))
  }

  function CanReap(p: Pool, asset: u128): Result<(), Error> {
    if asset == 0 then Err(ZeroAdjustmentNotAllowed)
    else if p.Fresh? then Err(BalanceNotInitiatedViaDeposit)
    else if p.issued == 0 then Err(RequiresExistingDeposits)
    else if p.effective < asset then Err(AssetUnderflow)
    else Ok(())
  }

  function TotalValue(p: Pool): u128 {
    if p.Fresh? then 0 else p.effective
  }

  function Drain(p: Pool): (Pool, Result<u128, Error>) {
    Reap(p, TotalValue(p))
  }

  // ---------------------------------------------------------------------------
  // Withdraw
  // ---------------------------------------------------------------------------

  /**
   What a receipt is worth at price `bias`: its value at deposit times the change of
   the price since, or its bare shares times the price if the pool was drained since.
   The deposit-time value is computed in both cases.
   */
  function Quote(bias: u128, drained: bool, r: Receipt): Option<u128> {
    var atDeposit :- CheckedMul(SaturatingFromInteger(r.shares), r.bias);
    var value := if drained then SaturatingFromInteger(r.shares) else atDeposit;
    var ratio :- CheckedDiv(bias, if drained then DIV else r.bias);
    var now :- CheckedMul(value, ratio);
    Some(now / DIV)
  }

  predicate DrainedSince(p: Pool, r: Receipt)
    requires p.Live?
  {
    p.drainpoint > r.checkpoint
  }

  function Worth(p: Pool, r: Receipt): Option<u128>
    requires p.Live?
  {
    Quote(p.bias, DrainedSince(p, r), r)
  }

  /** Pays `worth` for `shares`, capped at what is there; whoever empties the pool takes the rest. */
  function Settle(p: Pool, shares: u128, worth: u128): (Pool, u128)
    requires p.Live? && shares <= p.issued
  {
    var paid := if worth <= p.effective then worth else p.effective;
    var q := p.(effective := p.effective - paid, issued := p.issued - shares);
    if q.issued != 0 then (q, paid)
    else if q.effective != 0 then (INITIAL, Saturate(paid + q.effective))
    else (q.(bias := DIV), paid)
  }

  function Withdraw(p: Pool, r: Receipt): (Pool, Result<u128, Error>) {
    if p.Fresh? then (p, Err(BalanceNotInitiatedViaDeposit))
    else if r.shares > p.issued || r.shares == 0 || p.issued == 0 then (p, Err(InvalidReceipt))
    else match Worth(p, r)
      case None => (p, Err(InadequatePrecision))
      case Some(worth) =>
        var (q, paid) := Settle(p, r.shares, worth);
        (q, Ok(paid))
  }

  function CanWithdraw(p: Pool, r: Receipt): Result<(), Error> {
    if p.Fresh? then Err(BalanceNotInitiatedViaDeposit)
    else if r.shares > p.issued || r.shares == 0 || p.issued == 0 then Err(InvalidReceipt)
    else Ok(())
  }

  /** The preview of a withdrawal: the check first, then a withdrawal from a copy. */
  function ReceiptActiveValue(p: Pool, r: Receipt): Result<u128, Error> {
    match CanWithdraw(p, r)
    case Err(e) => Err(e)
    case Ok(_) => Withdraw(p, r).1
  }
}
