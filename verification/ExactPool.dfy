/** The share pool over exact numbers: the same steps as SharePool, with nothing to floor or overflow. */
module ExactPool {
  import opened Wrappers

  datatype Pool =
    | Fresh
    | Live(effective: real, issued: real, bias: real, checkpoint: nat, drainpoint: nat)

  datatype Receipt = Receipt(principal: real, shares: real, bias: real, checkpoint: nat)

  const INITIAL: Pool := Live(0.0, 0.0, 1.0, 0, 0)

  function Checkpoint(p: Pool): Pool
    requires p.Live?
  {
    var next := p.checkpoint + 1;
    p.(drainpoint := if p.bias == 0.0 then next else p.drainpoint, checkpoint := next)
  }

  /** The new pool and receipt, or `None` where the operation is refused. */
  function Deposit(pool: Pool, asset: nat): Option<(Pool, Receipt)> {
    if asset == 0 then None
    else
      var p := if pool.Fresh? then INITIAL else pool;
      if p.bias == 0.0 then None
      else
        var shares := if p.issued == 0.0 then asset as real else asset as real / p.bias;
        if shares == 0.0 then None
        else Some((p.(effective := p.effective + asset as real, issued := p.issued + shares),
                   Receipt(asset as real, shares, p.bias, p.checkpoint)))
  }

  function Mint(p: Pool, asset: nat): Option<Pool> {
    if asset == 0 then Some(p)
    else if p.Fresh? || p.issued == 0.0 then None
    else
      var effective := p.effective + asset as real;
      Some(Checkpoint(p.(effective := effective, bias := effective / p.issued)))
  }

  function Reap(p: Pool, asset: nat): Option<Pool> {
    if asset == 0 then Some(p)
    else if p.Fresh? || p.issued == 0.0 || p.effective < asset as real then None
    else Some(Repriced(p, p.effective - asset as real))
  }

  function Repriced(p: Pool, effective: real): Pool
    requires p.Live? && p.issued != 0.0
  {
    Checkpoint(p.(effective := effective, bias := if effective == 0.0 then 0.0 else effective / p.issued))
  }

  function TotalValue(p: Pool): real {
    if p.Fresh? then 0.0 else p.effective
  }

  /** A reap of everything there is. */
  function Drain(p: Pool): Option<Pool> {
    if TotalValue(p) == 0.0 then Some(p)
    else if p.Fresh? || p.issued == 0.0 then None
    else Some(Repriced(p, 0.0))
  }

  function Worth(p: Pool, r: Receipt): Option<real>
    requires p.Live?
  {
    var drained := p.drainpoint > r.checkpoint;
    var base := if drained then 1.0 else r.bias;
    if base == 0.0 then None
    else Some((if drained then r.shares else r.shares * r.bias) * (p.bias / base))
  }

  function Withdraw(p: Pool, r: Receipt): Option<(Pool, real)> {
    if p.Fresh? || r.shares > p.issued || r.shares == 0.0 || p.issued == 0.0 then None
    else match Worth(p, r)
      case None => None
      case Some(worth) =>
        var paid := if worth <= p.effective then worth else p.effective;
        var q := p.(effective := p.effective - paid, issued := p.issued - r.shares);
        if q.issued != 0.0 then Some((q, paid))
        else if q.effective != 0.0 then Some((INITIAL, paid + q.effective))
        else Some((q.(bias := 1.0), paid))
  }
}
