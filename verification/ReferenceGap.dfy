/**
 How far the lazy balance and the reference ledger drift apart over a whole run: a bound for every
 user, kept up step by step from what each step rounds.
 */
module ReferenceGap {
  import opened Wrappers
  import opened FixedPoint
  import opened RealMaps
  import opened Exploration
  import opened GapArithmetic
  import opened LedgerPrecision
  import opened ShareChecker
  import opened UserGaps
  import ExplorerGuarantees
  import FixedLedger
  import PoolArithmetic
  import PoolRuns
  import SharePool

  // ---------------------------------------------------------------------------
  // Steps of both models
  // ---------------------------------------------------------------------------

  /** A step both models take, without the configuration. */
  ghost predicate Moves(s: Held, op: Op, s': Held) {
    match op
    case Deposit(user, amount) =>
      && amount <= MAX
      && SharePool.Deposit(s.lazy, amount).1.Ok?
      && s'.lazy == SharePool.Deposit(s.lazy, amount).0
      && s'.receipts == s.receipts[user := SharePool.Deposit(s.lazy, amount).1.value.1]
      && FixedLedger.FixedDeposit(s.manual, user, amount) == (s'.manual, Ok(()))
    case Withdraw(user) =>
      && user in s.receipts
      && SharePool.Withdraw(s.lazy, s.receipts[user]).1.Ok?
      && s'.lazy == SharePool.Withdraw(s.lazy, s.receipts[user]).0
      && s'.receipts == s.receipts - {user}
      && FixedLedger.FixedWithdraw(s.manual, user).1.Ok?
      && s'.manual == FixedLedger.FixedWithdraw(s.manual, user).0
    case Mint(v) =>
      && v <= MAX && s'.receipts == s.receipts
      && SharePool.Mint(s.lazy, v) == (s'.lazy, Ok(v))
      && FixedLedger.FixedMint(s.manual, v) == Some((s'.manual, Ok(())))
    case Reap(v) =>
      && v <= MAX && s'.receipts == s.receipts
      && SharePool.Reap(s.lazy, v) == (s'.lazy, Ok(v))
      && FixedLedger.FixedReap(s.manual, v) == Some((s'.manual, Ok(())))
    case Drain =>
      && s'.receipts == s.receipts
      && SharePool.Drain(s.lazy).1.Ok? && s'.lazy == SharePool.Drain(s.lazy).0
      && FixedLedger.FixedDrain(s.manual) == Some((s'.manual, Ok(())))
  }

  lemma {:induction false} StepMoves(cfg: Checker, s: Held, op: Op, s': Held)
    requires ExplorerGuarantees.RunsSharePool(cfg) && RunsLedger(cfg) && Step(cfg, s, op) == Next(s')
    ensures Moves(s, op, s')
  {
    match op
    case Deposit(user, amount) =>
      assert cfg.lazy.deposit(s.lazy, amount) == ExplorerGuarantees.LazyDeposit(s.lazy, amount);
      assert cfg.manual.deposit(s.manual, user, amount, amount) == LedgerDeposit(s.manual, user, amount);
    case Withdraw(user) =>
    case Mint(v) => assert cfg.lazy.mint(s.lazy, v) == ExplorerGuarantees.LazyMint(s.lazy, v);
    case Reap(v) => assert cfg.lazy.reap(s.lazy, v) == ExplorerGuarantees.LazyReap(s.lazy, v);
    case Drain =>
  }

  function SharesOf(receipts: map<nat, SharePool.Receipt>): map<nat, real> {
    map user | user in receipts :: receipts[user].shares as real
  }

  /** The pool is solvent, and its shares are those of the users. */
  ghost predicate Orderly(s: Held) {
    && PoolRuns.Solvent(s.lazy)
    && (forall user :: user in s.receipts ==> PoolArithmetic.Sound(s.receipts[user]))
    && (s.lazy.Fresh? ==> s.receipts == map[])
    && (s.lazy.Live? ==> s.lazy.issued as real == Total(SharesOf(s.receipts)))
    && SameUsers(s)
  }

  lemma {:induction false} NewShares(receipts: map<nat, SharePool.Receipt>, user: nat, r: SharePool.Receipt)
    requires user !in receipts
    ensures Total(SharesOf(receipts[user := r])) == Total(SharesOf(receipts)) + r.shares as real
  {
    assert SharesOf(receipts[user := r]) == SharesOf(receipts)[user := r.shares as real];
    TotalInsert(SharesOf(receipts), user, r.shares as real);
  }

  lemma {:induction false} DepositOrderly(s: Held, op: Op, s': Held)
    requires Orderly(s) && Moves(s, op, s') && op.Deposit? && SameUsers(s')
    ensures Orderly(s')
  {
    var p := if s.lazy.Fresh? then SharePool.INITIAL else s.lazy;
    var r := SharePool.Deposit(s.lazy, op.amount).1.value.1;
    PoolRuns.DepositKeepsSolvency(s.lazy, op.amount);
    NewShares(s.receipts, op.user, r);
    assert SharesOf(map[]) == map[];
    assert p.issued as real == Total(SharesOf(s.receipts));
    assert s'.lazy.Live? && s'.lazy.issued == p.issued + r.shares;
  }

  lemma {:induction false} WithdrawOrderly(s: Held, op: Op, s': Held)
    requires Orderly(s) && Moves(s, op, s') && op.Withdraw? && SameUsers(s')
    ensures Orderly(s')
  {
    var r := s.receipts[op.user];
    PoolRuns.WorthCovered(s.lazy, r);
    PoolRuns.SettleInFull(s.lazy, r.shares, SharePool.Worth(s.lazy, r).value);
    assert SharesOf(s'.receipts) == SharesOf(s.receipts) - {op.user};
    TotalRemove(SharesOf(s.receipts), op.user);
  }

  lemma {:induction false} MoveOrderly(s: Held, op: Op, s': Held)
    requires Orderly(s) && Moves(s, op, s') && SameUsers(s')
    ensures Orderly(s')
  {
    match op
    case Deposit(user, amount) => DepositOrderly(s, op, s');
    case Withdraw(user) => WithdrawOrderly(s, op, s');
    case Mint(v) => PoolRuns.MintKeepsSolvency(s.lazy, v);
    case Reap(v) => PoolRuns.ReapKeepsSolvency(s.lazy, v);
    case Drain => PoolRuns.ReapKeepsSolvency(s.lazy, SharePool.TotalValue(s.lazy));
  }

  // ---------------------------------------------------------------------------
  // The gap of a run
  // ---------------------------------------------------------------------------

  /**
   How far each balance of the ledger may be from the user's shares at the pool's price, and each
   balance kept from before a drain from the shares at `price`, in inner units.
   */
  datatype Gap = Gap(user: map<nat, real>, kept: map<nat, real>, price: real)

  const NO_GAP: Gap := Gap(map[], map[], 0.0)

  /**
   What the pool may still hold for a user, where the ledger holds nothing: the part of all gaps,
   the dust and `extra`.
   */
  ghost function Leftover(s: Held, g: Gap, extra: real): map<nat, real>
    requires Holding(s.lazy)
  {
    var rest := Total(g.user) + Dust(s.lazy) + extra;
    map user | user in s.receipts :: Times(rest)(s.receipts[user].shares as real / s.lazy.issued as real)
  }

  /** What the ledger keeps of its balances when it is drained. */
  ghost function KeptGap(s: Held, g: Gap, user: map<nat, real>): Gap
    requires s.lazy.Live?
  {
    if Total(FixedLedger.Inner(s.manual.users)) > 0.0 then Gap(user, g.user, s.lazy.bias as real)
    else g.(user := user)
  }

  ghost function MintGap(s: Held, g: Gap, v: nat): Gap
    requires Holding(s.lazy)
  {
    var shares, issued, dust := SharesOf(s.receipts), s.lazy.issued as real, Dust(s.lazy);
    var total := Total(FixedLedger.Inner(s.manual.users));
    if total > 0.0 then Gap(Reshared(shares, issued, dust, g.user, g.user, total, v), map[], 0.0)
    else if s.manual.beforeDrain.Some? && Total(FixedLedger.Inner(s.manual.beforeDrain.value)) > 0.0 then
      var weights := Total(FixedLedger.Inner(s.manual.beforeDrain.value));
      g.(user := Reshared(shares, issued, dust, g.user, g.kept, weights, v))
    else g.(user := Leftover(s, g, (v * DIV) as real))
  }

  ghost function ReapGap(s: Held, g: Gap, v: nat): Gap
    requires Holding(s.lazy)
  {
    var shares, issued, dust := SharesOf(s.receipts), s.lazy.issued as real, Dust(s.lazy);
    var total := Total(FixedLedger.Inner(s.manual.users));
    if total <= 0.0 || v >= total.Floor / DIV then KeptGap(s, g, Leftover(s, g, DIV as real))
    else g.(user := Reshared(shares, issued, dust, g.user, g.user, total, v))
  }

  /** The gaps one step leaves: a new deposit costs less than one share, a withdrawal nothing to the others. */
  ghost function NextGap(s: Held, op: Op, g: Gap): Gap {
    match op
    case Deposit(user, _) => Gap(g.user[user := if Holding(s.lazy) then s.lazy.bias as real else 0.0], map[], 0.0)
    case Withdraw(user) => Gap(g.user - {user}, g.kept - {user}, g.price)
    case Mint(v) => if v == 0 || !Holding(s.lazy) then g else MintGap(s, g, v)
    case Reap(v) => if v == 0 || !Holding(s.lazy) then g else ReapGap(s, g, v)
    case Drain => if s.lazy.Fresh? then g else KeptGap(s, g, map user | user in s.receipts :: 0.0)
  }

  ghost predicate SnapshotWithin(s: Held, g: Gap) {
    s.manual.beforeDrain.Some? ==> WithinBy(s.manual.beforeDrain.value, SharesOf(s.receipts), g.price, g.kept)
  }

  /** Every balance is within its gap. */
  ghost predicate Tracked(s: Held, g: Gap) {
    && g.user.Keys == s.receipts.Keys
    && (s.lazy.Live? ==> WithinBy(s.manual.users, SharesOf(s.receipts), s.lazy.bias as real, g.user))
    && SnapshotWithin(s, g)
  }

  predicate InRangeOp(op: Op) {
    match op
    case Deposit(_, amount) => InRange(amount)
    case Withdraw(_) => true
    case Mint(v) => InRange(v)
    case Reap(v) => InRange(v)
    case Drain => true
  }

  // ---------------------------------------------------------------------------
  // Deposits and withdrawals
  // ---------------------------------------------------------------------------

  /** The shares of a deposit in range are worth the deposit, but for less than one share. */
  lemma {:induction false} DepositNear(p: SharePool.Pool, amount: u128)
    requires PoolRuns.Solvent(p) && InRange(amount) && SharePool.Deposit(p, amount).1.Ok?
    ensures var r := SharePool.Deposit(p, amount).1.value.1;
            && SharePool.Deposit(p, amount).0.Live?
            && SharePool.Deposit(p, amount).0.bias == r.bias
            && Near((amount * DIV) as real, Times(r.bias as real)(r.shares as real),
                    if Holding(p) then p.bias as real else 0.0)
  {
    var r := SharePool.Deposit(p, amount).1.value.1;
    ProductAsReal(r.shares, r.bias);
    TimesIs(r.bias as real, r.shares as real);
    if Holding(p) {
      PoolArithmetic.SharesAreMaximal(p, amount);
      PoolArithmetic.SharesNeverOverpriced(p, amount);
    }
  }

  lemma {:induction false} DepositTracked(s: Held, op: Op, s': Held, g: Gap)
    requires Orderly(s) && Tracked(s, g) && Moves(s, op, s') && op.Deposit? && InRangeOp(op)
    ensures Tracked(s', NextGap(s, op, g))
  {
    var r := SharePool.Deposit(s.lazy, op.amount).1.value.1;
    DepositNear(s.lazy, op.amount);
    assert SharesOf(s'.receipts) == SharesOf(s.receipts)[op.user := r.shares as real];
    assert WithinBy(s.manual.users, SharesOf(s.receipts), r.bias as real, g.user);
    WithinAdd(s.manual.users, SharesOf(s.receipts), r.bias as real, g.user, op.user, op.amount * DIV, r.shares as real,
              if Holding(s.lazy) then s.lazy.bias as real else 0.0);
  }

  lemma {:induction false} WithdrawTracked(s: Held, op: Op, s': Held, g: Gap)
    requires Orderly(s) && Tracked(s, g) && Moves(s, op, s') && op.Withdraw? && Orderly(s')
    ensures Tracked(s', NextGap(s, op, g))
  {
    var r := s.receipts[op.user];
    PoolRuns.WorthCovered(s.lazy, r);
    PoolRuns.SettleInFull(s.lazy, r.shares, SharePool.Worth(s.lazy, r).value);
    assert SharesOf(s'.receipts) == SharesOf(s.receipts) - {op.user};
    WithinRemove(s.manual.users, SharesOf(s.receipts), s.lazy.bias as real, g.user, op.user);
    if s.manual.beforeDrain.Some? {
      WithinRemove(s.manual.beforeDrain.value, SharesOf(s.receipts), g.price, g.kept, op.user);
    }
    if s'.lazy.issued == 0 {
      NobodyLeft(s');
    }
  }

  lemma {:induction false} NobodyLeft(s: Held)
    requires Orderly(s) && s.lazy.Live? && s.lazy.issued == 0
    ensures s.receipts == map[] && s.manual.users == map[]
  {
    TotalPositive(SharesOf(s.receipts));
    assert SharesOf(s.receipts).Keys == s.receipts.Keys;
  }

  // ---------------------------------------------------------------------------
  // Repricings
  // ---------------------------------------------------------------------------

  /** Where the ledger holds nothing any more. */
  lemma {:induction false} LeftoverNear(s: Held, g: Gap, bias': nat, users': map<nat, u128>, extra: real)
    requires s.lazy.Live? && Holding(s.lazy) && g.user.Keys == s.receipts.Keys
    requires users'.Keys == s.receipts.Keys && forall user :: user in users' ==> users'[user] == 0
    requires (bias' * s.lazy.issued) as real <= Total(g.user) + Dust(s.lazy) + extra
    ensures WithinBy(users', SharesOf(s.receipts), bias' as real, Leftover(s, g, extra))
  {
    var left, rest := Leftover(s, g, extra), Total(g.user) + Dust(s.lazy) + extra;
    forall user | user in users'
      ensures Near(users'[user] as real, Times(bias' as real)(SharesOf(s.receipts)[user]), left[user])
    {
      LeftoverAt(s.receipts[user].shares, s.lazy.issued, bias', rest);
    }
  }

  /** What a repricing needs to know of the state before. */
  ghost predicate Priceable(s: Held, g: Gap) {
    && Holding(s.lazy) && PoolRuns.Solvent(s.lazy)
    && s.lazy.issued as real == Total(SharesOf(s.receipts))
    && WithinBy(s.manual.users, SharesOf(s.receipts), s.lazy.bias as real, g.user)
  }

  /** A mint the ledger hands out to nobody. */
  lemma {:induction false} MintToNobody(s: Held, g: Gap, bias': nat, v: nat)
    requires Priceable(s, g) && FixedLedger.TotalOf(s.manual.users) == Some(0)
    requires bias' == (s.lazy.effective + v) * DIV / s.lazy.issued
    ensures WithinBy(s.manual.users, SharesOf(s.receipts), bias' as real, Leftover(s, g, (v * DIV) as real))
  {
    Floor((s.lazy.effective + v) * DIV, s.lazy.issued);
    ValueBound(s.lazy, s.manual.users, 0, SharesOf(s.receipts), g.user);
    AllZero(s.manual.users);
    LeftoverNear(s, g, bias', s.manual.users, (v * DIV) as real);
  }

  /** A reap that drains the ledger, or finds it empty. */
  lemma {:induction false} ReapToNothing(s: Held, g: Gap, bias': nat, users': map<nat, u128>, v: nat, total: u128)
    requires Priceable(s, g) && FixedLedger.TotalOf(s.manual.users) == Some(total)
    requires v >= total / DIV && v <= s.lazy.effective
    requires bias' == (s.lazy.effective - v) * DIV / s.lazy.issued
    requires users'.Keys == s.manual.users.Keys && forall user :: user in users' ==> users'[user] == 0
    ensures WithinBy(users', SharesOf(s.receipts), bias' as real, Leftover(s, g, DIV as real))
  {
    Floor((s.lazy.effective - v) * DIV, s.lazy.issued);
    Floor(total, DIV);
    ValueBound(s.lazy, s.manual.users, total, SharesOf(s.receipts), g.user);
    LeftoverNear(s, g, bias', users', DIV as real);
  }

  lemma {:induction false} MintedPool(p: SharePool.Pool, v: u128)
    requires v != 0 && SharePool.Mint(p, v).1.Ok?
    ensures Holding(p)
    ensures var p' := SharePool.Mint(p, v).0; p'.Live? && p'.bias == (p.effective + v) * DIV / p.issued
  {
  }

  lemma {:induction false} ReapedPool(p: SharePool.Pool, v: u128)
    requires v != 0 && SharePool.Reap(p, v).1.Ok?
    ensures Holding(p) && v <= p.effective
    ensures var p' := SharePool.Reap(p, v).0; p'.Live? && p'.bias == (p.effective - v) * DIV / p.issued
  {
    FloorAtMost(0, p.issued, 0);
  }

  lemma {:induction false} SharedGap(s: Held, g: Gap, v: nat, total: u128)
    requires Holding(s.lazy) && FixedLedger.TotalOf(s.manual.users) == Some(total) && total > 0
    ensures MintGap(s, g, v)
            == Gap(Reshared(SharesOf(s.receipts), s.lazy.issued as real, Dust(s.lazy), g.user, g.user,
                            total as real, v),
                   map[], 0.0)
  {
    TotalIs(s.manual.users, total);
  }

  lemma {:induction false} RevivalGap(s: Held, g: Gap, v: nat, weights: u128)
    requires Holding(s.lazy) && FixedLedger.TotalOf(s.manual.users) == Some(0) && s.manual.beforeDrain.Some?
    requires FixedLedger.TotalOf(s.manual.beforeDrain.value) == Some(weights) && weights > 0
    ensures MintGap(s, g, v)
            == g.(user := Reshared(SharesOf(s.receipts), s.lazy.issued as real, Dust(s.lazy), g.user, g.kept,
                                   weights as real, v))
  {
    TotalIs(s.manual.users, 0);
    TotalIs(s.manual.beforeDrain.value, weights);
  }

  lemma {:induction false} LostGap(s: Held, g: Gap, v: nat)
    requires Holding(s.lazy) && FixedLedger.TotalOf(s.manual.users) == Some(0) && s.manual.beforeDrain.Some?
    requires FixedLedger.TotalOf(s.manual.beforeDrain.value) == Some(0)
    ensures MintGap(s, g, v) == g.(user := Leftover(s, g, (v * DIV) as real))
  {
    TotalIs(s.manual.users, 0);
    TotalIs(s.manual.beforeDrain.value, 0);
  }

  lemma {:induction false} SharedMint(s: Held, g: Gap, v: nat, bias': nat, users': map<nat, u128>, total: u128)
    requires Holding(s.lazy)
    requires Minting(s.lazy, bias', s.manual.users, users', s.manual.users, total, v, SharesOf(s.receipts),
                     s.lazy.bias as real, g.user, g.user)
    ensures WithinBy(users', SharesOf(s.receipts), bias' as real, MintGap(s, g, v).user)
  {
    SharedGap(s, g, v, total);
    MintWithin(s.lazy, bias', s.manual.users, users', s.manual.users, total, v, SharesOf(s.receipts),
               s.lazy.bias as real, g.user, g.user);
  }

  lemma {:induction false} RevivalMint(s: Held, g: Gap, v: nat, bias': nat, users': map<nat, u128>, weights: u128)
    requires Holding(s.lazy) && FixedLedger.TotalOf(s.manual.users) == Some(0) && s.manual.beforeDrain.Some?
    requires Minting(s.lazy, bias', s.manual.users, users', s.manual.beforeDrain.value, weights, v,
                     SharesOf(s.receipts), g.price, g.user, g.kept)
    ensures WithinBy(users', SharesOf(s.receipts), bias' as real, MintGap(s, g, v).user)
  {
    RevivalGap(s, g, v, weights);
    MintWithin(s.lazy, bias', s.manual.users, users', s.manual.beforeDrain.value, weights, v, SharesOf(s.receipts),
               g.price, g.user, g.kept);
  }

  lemma {:induction false} LostMint(s: Held, g: Gap, v: nat, bias': nat)
    requires Priceable(s, g) && FixedLedger.TotalOf(s.manual.users) == Some(0) && s.manual.beforeDrain.Some?
    requires FixedLedger.TotalOf(s.manual.beforeDrain.value) == Some(0)
    requires bias' == (s.lazy.effective + v) * DIV / s.lazy.issued
    ensures WithinBy(s.manual.users, SharesOf(s.receipts), bias' as real, MintGap(s, g, v).user)
  {
    LostGap(s, g, v);
    MintToNobody(s, g, bias', v);
  }

  /** What the ledger does in a mint: share by its balances, by its snapshot, or not at all. */
  ghost predicate LedgerMints(l: FixedLedger.Fixed, v: u128, l': FixedLedger.Fixed) {
    match FixedLedger.TotalOf(l.users)
    case None => false
    case Some(total) => if total > 0 then MintsShared(l, total, v, l') else MintsRevived(l, v, l')
  }

  ghost predicate MintsShared(l: FixedLedger.Fixed, total: u128, v: u128, l': FixedLedger.Fixed) {
    && total > 0 && l'.beforeDrain.None?
    && FixedLedger.Raised(l.users, l.users, total, SaturatingFromInteger(v)) == Some(l'.users)
  }

  ghost predicate MintsRevived(l: FixedLedger.Fixed, v: u128, l': FixedLedger.Fixed) {
    && l.beforeDrain.Some? && l'.beforeDrain == l.beforeDrain
    && match FixedLedger.TotalOf(l.beforeDrain.value)
       case None => false
       case Some(weights) =>
         if weights == 0 then l' == l
         else FixedLedger.Raised(l.users, l.beforeDrain.value, weights, SaturatingFromInteger(v)) == Some(l'.users)
  }

  lemma {:induction false} MintedLedger(l: FixedLedger.Fixed, v: u128, l': FixedLedger.Fixed)
    requires v != 0 && FixedLedger.FixedMint(l, v) == Some((l', Ok(())))
    ensures LedgerMints(l, v, l')
  {
  }

  /** A mint about to happen: the price after it, and the snapshot near its own. */
  ghost predicate MintAt(s: Held, g: Gap, v: nat, bias': nat) {
    && Priceable(s, g) && InRange(v) && bias' == (s.lazy.effective + v) * DIV / s.lazy.issued
    && SnapshotWithin(s, g)
  }

  lemma {:induction false} SharedUsers(s: Held, g: Gap, v: nat, bias': nat, l': FixedLedger.Fixed, total: u128)
    requires MintAt(s, g, v, bias')
    requires FixedLedger.TotalOf(s.manual.users) == Some(total) && MintsShared(s.manual, total, v, l')
    ensures WithinBy(l'.users, SharesOf(s.receipts), bias' as real, MintGap(s, g, v).user)
  {
    assert Minting(s.lazy, bias', s.manual.users, l'.users, s.manual.users, total, v, SharesOf(s.receipts),
                   s.lazy.bias as real, g.user, g.user);
    SharedMint(s, g, v, bias', l'.users, total);
  }

  lemma {:induction false} RevivedUsers(s: Held, g: Gap, v: nat, bias': nat, l': FixedLedger.Fixed)
    requires MintAt(s, g, v, bias')
    requires FixedLedger.TotalOf(s.manual.users) == Some(0) && MintsRevived(s.manual, v, l')
    ensures WithinBy(l'.users, SharesOf(s.receipts), bias' as real, MintGap(s, g, v).user)
  {
    var weights := FixedLedger.TotalOf(s.manual.beforeDrain.value).value;
    if weights == 0 {
      LostMint(s, g, v, bias');
    } else {
      assert Minting(s.lazy, bias', s.manual.users, l'.users, s.manual.beforeDrain.value, weights, v,
                     SharesOf(s.receipts), g.price, g.user, g.kept);
      RevivalMint(s, g, v, bias', l'.users, weights);
    }
  }

  lemma {:induction false} MintedUsers(s: Held, g: Gap, v: nat, bias': nat, l': FixedLedger.Fixed)
    requires MintAt(s, g, v, bias') && LedgerMints(s.manual, v, l')
    ensures WithinBy(l'.users, SharesOf(s.receipts), bias' as real, MintGap(s, g, v).user)
  {
    var total := FixedLedger.TotalOf(s.manual.users).value;
    if MintsShared(s.manual, total, v, l') {
      SharedUsers(s, g, v, bias', l', total);
    } else {
      assert total == 0;
      RevivedUsers(s, g, v, bias', l');
    }
  }

  /** A mint keeps the snapshot, or makes it useless. */
  lemma {:induction false} MintedSnapshot(s: Held, g: Gap, v: nat, l': FixedLedger.Fixed)
    requires Holding(s.lazy) && v <= MAX && LedgerMints(s.manual, v, l')
    ensures l'.beforeDrain.Some? ==>
              && l'.beforeDrain == s.manual.beforeDrain
              && MintGap(s, g, v).kept == g.kept && MintGap(s, g, v).price == g.price
  {
    var total := FixedLedger.TotalOf(s.manual.users).value;
    TotalIs(s.manual.users, total);
  }

  lemma {:induction false} IsPriceable(s: Held, g: Gap)
    requires Orderly(s) && Tracked(s, g) && Holding(s.lazy)
    ensures Priceable(s, g)
  {
  }

  lemma {:induction false} MintTracked(s: Held, v: nat, s': Held, g: Gap)
    requires Orderly(s) && Tracked(s, g) && Moves(s, Mint(v), s') && InRange(v)
    ensures Tracked(s', NextGap(s, Mint(v), g))
  {
    if v != 0 {
      MintedPool(s.lazy, v);
      MintedLedger(s.manual, v, s'.manual);
      IsPriceable(s, g);
      MintedUsers(s, g, v, s'.lazy.bias, s'.manual);
      MintedSnapshot(s, g, v, s'.manual);
      assert MintGap(s, g, v).user.Keys == SharesOf(s.receipts).Keys;
    }
  }

  // ---------------------------------------------------------------------------
  // Reaps and drains
  // ---------------------------------------------------------------------------

  lemma {:induction false} EmptyingGap(s: Held, g: Gap, v: nat, total: u128)
    requires Holding(s.lazy) && FixedLedger.TotalOf(s.manual.users) == Some(total) && v >= total / DIV
    ensures ReapGap(s, g, v) == KeptGap(s, g, Leftover(s, g, DIV as real))
  {
    TotalIs(s.manual.users, total);
  }

  lemma {:induction false} LoweringGap(s: Held, g: Gap, v: nat, total: u128)
    requires Holding(s.lazy) && FixedLedger.TotalOf(s.manual.users) == Some(total) && total > 0 && v < total / DIV
    ensures ReapGap(s, g, v)
            == g.(user := Reshared(SharesOf(s.receipts), s.lazy.issued as real, Dust(s.lazy), g.user, g.user,
                                   total as real, v))
  {
    TotalIs(s.manual.users, total);
  }

  lemma {:induction false} SharedReap(s: Held, g: Gap, v: nat, bias': nat, users': map<nat, u128>, total: u128)
    requires Holding(s.lazy) && v < total / DIV
    requires Reaping(s.lazy, bias', s.manual.users, users', total, v, SharesOf(s.receipts), g.user)
    ensures WithinBy(users', SharesOf(s.receipts), bias' as real, ReapGap(s, g, v).user)
  {
    LoweringGap(s, g, v, total);
    ReapWithin(s.lazy, bias', s.manual.users, users', total, v, SharesOf(s.receipts), g.user);
  }

  /** What the ledger does when it is drained. */
  ghost predicate LedgerDrains(l: FixedLedger.Fixed, l': FixedLedger.Fixed) {
    && l.users != map[] && l'.users.Keys == l.users.Keys
    && (forall user :: user in l'.users ==> l'.users[user] == 0)
    && match FixedLedger.TotalOf(l.users)
       case None => false
       case Some(total) => l'.beforeDrain == if total > 0 then Some(l.users) else l.beforeDrain
  }

  lemma {:induction false} DrainedLedger(l: FixedLedger.Fixed, l': FixedLedger.Fixed)
    requires FixedLedger.FixedDrain(l) == Some((l', Ok(())))
    ensures LedgerDrains(l, l')
  {
    if FixedLedger.TotalOf(l.users) == Some(0) {
      AllZero(l.users);
    }
  }

  lemma {:induction false} DrainedSnapshot(s: Held, g: Gap, user: map<nat, real>, l': FixedLedger.Fixed)
    requires s.lazy.Live? && LedgerDrains(s.manual, l')
    requires WithinBy(s.manual.users, SharesOf(s.receipts), s.lazy.bias as real, g.user)
    requires SnapshotWithin(s, g)
    ensures KeptGap(s, g, user).user == user
    ensures l'.beforeDrain.Some? ==>
              WithinBy(l'.beforeDrain.value, SharesOf(s.receipts), KeptGap(s, g, user).price, KeptGap(s, g, user).kept)
  {
    var total := FixedLedger.TotalOf(s.manual.users).value;
    TotalIs(s.manual.users, total);
    if total > 0 {
      assert KeptGap(s, g, user) == Gap(user, g.user, s.lazy.bias as real) && l'.beforeDrain == Some(s.manual.users);
    } else {
      assert KeptGap(s, g, user) == g.(user := user) && l'.beforeDrain == s.manual.beforeDrain;
    }
  }

  /** What the ledger does in a reap. */
  ghost predicate LedgerReaps(l: FixedLedger.Fixed, v: u128, l': FixedLedger.Fixed) {
    match FixedLedger.TotalOf(l.users)
    case None => false
    case Some(total) =>
      if v >= total / DIV then LedgerDrains(l, l')
      else
        && FixedLedger.Lowered(l.users, total, SaturatingFromInteger(v)) == Some(l'.users)
        && l'.beforeDrain == l.beforeDrain
  }

  lemma {:induction false} ReapedLedger(l: FixedLedger.Fixed, v: u128, l': FixedLedger.Fixed)
    requires v != 0 && FixedLedger.FixedReap(l, v) == Some((l', Ok(())))
    ensures LedgerReaps(l, v, l')
  {
    if v >= FixedLedger.TotalOf(l.users).value / DIV {
      DrainedLedger(l, l');
    }
  }

  /** A reap about to happen: the price after it, and the snapshot near its own. */
  ghost predicate ReapAt(s: Held, g: Gap, v: nat, bias': nat) {
    && Priceable(s, g) && InRange(v) && v <= s.lazy.effective
    && bias' == (s.lazy.effective - v) * DIV / s.lazy.issued
    && SnapshotWithin(s, g)
  }

  lemma {:induction false} ReapedUsers(s: Held, g: Gap, v: nat, bias': nat, l': FixedLedger.Fixed)
    requires ReapAt(s, g, v, bias') && LedgerReaps(s.manual, v, l')
    ensures WithinBy(l'.users, SharesOf(s.receipts), bias' as real, ReapGap(s, g, v).user)
  {
    var total := FixedLedger.TotalOf(s.manual.users).value;
    if v >= total / DIV {
      EmptyingGap(s, g, v, total);
      ReapToNothing(s, g, bias', l'.users, v, total);
    } else {
      SharedReap(s, g, v, bias', l'.users, total);
    }
  }

  lemma {:induction false} ReapedSnapshot(s: Held, g: Gap, v: nat, bias': nat, l': FixedLedger.Fixed)
    requires ReapAt(s, g, v, bias') && LedgerReaps(s.manual, v, l')
    ensures l'.beforeDrain.Some? ==>
              WithinBy(l'.beforeDrain.value, SharesOf(s.receipts), ReapGap(s, g, v).price, ReapGap(s, g, v).kept)
  {
    var total := FixedLedger.TotalOf(s.manual.users).value;
    if v >= total / DIV {
      EmptyingGap(s, g, v, total);
      DrainedSnapshot(s, g, Leftover(s, g, DIV as real), l');
    } else {
      LoweringGap(s, g, v, total);
    }
  }

  lemma {:induction false} ReapMoves(s: Held, v: nat, s': Held, g: Gap)
    requires Orderly(s) && Tracked(s, g) && Moves(s, Reap(v), s') && InRange(v) && v != 0
    ensures s'.lazy.Live? && ReapAt(s, g, v, s'.lazy.bias) && LedgerReaps(s.manual, v, s'.manual)
  {
    ReapedPool(s.lazy, v);
    ReapedLedger(s.manual, v, s'.manual);
    IsPriceable(s, g);
  }

  lemma {:induction false} ReapTracked(s: Held, v: nat, s': Held, g: Gap)
    requires Orderly(s) && Tracked(s, g) && Moves(s, Reap(v), s') && InRange(v)
    ensures Tracked(s', NextGap(s, Reap(v), g))
  {
    if v != 0 {
      ReapMoves(s, v, s', g);
      ReapedUsers(s, g, v, s'.lazy.bias, s'.manual);
      ReapedSnapshot(s, g, v, s'.lazy.bias, s'.manual);
      assert ReapGap(s, g, v).user.Keys == SharesOf(s.receipts).Keys;
    }
  }

  /** A drain leaves a price of zero. */
  lemma {:induction false} DrainedPool(p: SharePool.Pool)
    requires Holding(p) && PoolRuns.Solvent(p)
    ensures SharePool.Drain(p).0.Live? && SharePool.Drain(p).0.bias == 0
  {
    if p.bias > 0 {
      PositiveProduct(p.bias, p.issued);
    }
  }

  lemma {:induction false} PositiveProduct(x: nat, y: nat)
    requires x > 0 && y > 0
    ensures x * y > 0
  {
  }

  /** Nobody has anything in either model. */
  lemma {:induction false} NothingWithin(users: map<nat, u128>, receipts: map<nat, SharePool.Receipt>)
    requires users.Keys == receipts.Keys && forall user :: user in users ==> users[user] == 0
    ensures WithinBy(users, SharesOf(receipts), 0.0, map user | user in receipts :: 0.0)
  {
    forall user | user in users
      ensures Times(0.0)(SharesOf(receipts)[user]) == 0.0
    {
      TimesIs(0.0, SharesOf(receipts)[user]);
    }
  }

  lemma {:induction false} DrainTracked(s: Held, s': Held, g: Gap)
    requires Orderly(s) && Tracked(s, g) && Moves(s, Drain, s')
    ensures Tracked(s', NextGap(s, Drain, g))
  {
    DrainedLedger(s.manual, s'.manual);
    if s.lazy.Live? && s.lazy.issued == 0 {
      NobodyLeft(s);
    }
    assert Holding(s.lazy);
    DrainedPool(s.lazy);
    var none := map user | user in s.receipts :: 0.0;
    NothingWithin(s'.manual.users, s.receipts);
    DrainedSnapshot(s, g, none, s'.manual);
  }

  // ---------------------------------------------------------------------------
  // Runs
  // ---------------------------------------------------------------------------

  lemma {:induction false} MoveTracked(s: Held, op: Op, s': Held, g: Gap)
    requires Orderly(s) && Tracked(s, g) && Moves(s, op, s') && InRangeOp(op) && Orderly(s')
    ensures Tracked(s', NextGap(s, op, g))
  {
    match op
    case Deposit(_, _) => DepositTracked(s, op, s', g);
    case Withdraw(_) => WithdrawTracked(s, op, s', g);
    case Mint(v) => MintTracked(s, v, s', g);
    case Reap(v) => ReapTracked(s, v, s', g);
    case Drain => DrainTracked(s, s', g);
  }

  lemma {:induction false} StartTracked(cfg: Checker)
    requires ExplorerGuarantees.RunsSharePool(cfg) && RunsLedger(cfg)
    ensures Orderly(Start(cfg)) && Tracked(Start(cfg), NO_GAP)
  {
  }

  /** The gaps after a run. */
  ghost function Gaps(cfg: Checker, requests: seq<Op>): Gap {
    if requests == [] then NO_GAP
    else
      var before, op := requests[..|requests| - 1], requests[|requests| - 1];
      match Replay(cfg, before)
      case None => NO_GAP
      case Some(s) => NextGap(s, op, Gaps(cfg, before))
  }

  /**
   Over every run with amounts in range, drains, revivals and split reaps included, each balance
   of the ledger is within its gap of the user's shares at the pool's price.
   */
  lemma {:induction false} EveryRunBoundsGap(cfg: Checker, requests: seq<Op>)
    requires ExplorerGuarantees.RunsSharePool(cfg) && RunsLedger(cfg) && Replay(cfg, requests).Some?
    requires forall op :: op in requests ==> InRangeOp(op)
    ensures var s := Replay(cfg, requests).value; Orderly(s) && Tracked(s, Gaps(cfg, requests))
  {
    if requests == [] {
      StartTracked(cfg);
    } else {
      var before, op := requests[..|requests| - 1], requests[|requests| - 1];
      ExplorerGuarantees.LastStep(cfg, requests);
      EveryRunBoundsGap(cfg, before);
      NextTracked(cfg, Replay(cfg, before).value, op, Replay(cfg, requests).value, Gaps(cfg, before));
    }
  }

  lemma {:induction false} NextTracked(cfg: Checker, s: Held, op: Op, s': Held, g: Gap)
    requires ExplorerGuarantees.RunsSharePool(cfg) && RunsLedger(cfg) && Step(cfg, s, op) == Next(s')
    requires Orderly(s) && Tracked(s, g) && InRangeOp(op)
    ensures Orderly(s') && Tracked(s', NextGap(s, op, g))
  {
    StepMoves(cfg, s, op, s');
    StepKeepsUsers(cfg, s, op, s');
    MoveOrderly(s, op, s');
    MoveTracked(s, op, s', g);
  }

  // ---------------------------------------------------------------------------
  // Payments
  // ---------------------------------------------------------------------------

  /** How far the payment of a receipt may be from its shares at the price. */
  function PaymentLoss(p: SharePool.Pool, r: SharePool.Receipt): real
    requires p.Live?
  {
    (DIV + r.principal) as real + if r.shares == p.issued then Dust(p) else 0.0
  }

  lemma {:induction false} ShortNear(paid: nat, shares: nat, bias: nat, loss: nat)
    requires paid * DIV <= shares * bias <= paid * DIV + loss
    ensures Near((paid * DIV) as real, Times(bias as real)(shares as real), loss as real)
  {
    ProductAsReal(shares, bias);
    TimesIs(bias as real, shares as real);
  }

  lemma {:induction false} WorthNear(p: SharePool.Pool, r: SharePool.Receipt)
    requires p.Live? && PoolArithmetic.Sound(r) && InRange(r.shares) && SharePool.Worth(p, r).Some?
    ensures Near((SharePool.Worth(p, r).value * DIV) as real, Times(p.bias as real)(r.shares as real),
                 (DIV + r.principal) as real)
  {
    PoolArithmetic.QuoteAtMost(p.bias, SharePool.DrainedSince(p, r), r);
    PoolArithmetic.QuoteLossBounded(p.bias, SharePool.DrainedSince(p, r), r);
    ShortNear(SharePool.Worth(p, r).value, r.shares, p.bias, DIV + r.principal);
  }

  lemma {:induction false} PaidIs(p: SharePool.Pool, r: SharePool.Receipt, paid: u128)
    requires PoolRuns.Solvent(p) && PoolArithmetic.Sound(r) && SharePool.Withdraw(p, r).1 == Ok(paid)
    ensures p.Live? && SharePool.Worth(p, r).Some?
    ensures paid == if r.shares == p.issued then p.effective else SharePool.Worth(p, r).value
  {
    PoolRuns.WorthCovered(p, r);
    PoolRuns.SettleInFull(p, r.shares, SharePool.Worth(p, r).value);
  }

  lemma {:induction false} PaidNear(p: SharePool.Pool, r: SharePool.Receipt, paid: u128)
    requires PoolRuns.Solvent(p) && PoolArithmetic.Sound(r) && InRange(r.shares)
    requires SharePool.Withdraw(p, r).1 == Ok(paid)
    ensures p.Live? && Near((paid * DIV) as real, Times(p.bias as real)(r.shares as real), PaymentLoss(p, r))
  {
    PaidIs(p, r, paid);
    WorthNear(p, r);
    PricedValue(p);
  }

  lemma {:induction false} BothNear(paid: real, priced: real, balance: real, expected: real, loss: real, gap: real)
    requires Near(paid, priced, loss) && Near(balance, priced, gap) && 0.0 <= balance - expected <= DIV as real
    ensures Near(paid, expected, loss + gap + DIV as real)
  {
  }

  /** How far the two payments to a user may be apart, in inner units. */
  ghost function PaymentGap(s: Held, g: Gap, user: nat): real
    requires s.lazy.Live? && user in s.receipts
  {
    PaymentLoss(s.lazy, s.receipts[user]) + At(g.user, user) + DIV as real
  }

  lemma {:induction false} PaymentsNear(s: Held, g: Gap, user: nat, paid: u128)
    requires Orderly(s) && Tracked(s, g) && user in s.receipts && InRange(s.receipts[user].shares)
    requires SharePool.Withdraw(s.lazy, s.receipts[user]).1 == Ok(paid)
    ensures s.lazy.Live? && FixedLedger.FixedWithdraw(s.manual, user).1 == Ok(LedgerPays(s, user))
    ensures Near((paid * DIV) as real, (LedgerPays(s, user) * DIV) as real, PaymentGap(s, g, user))
  {
    var r, balance := s.receipts[user], s.manual.users[user];
    PaidNear(s.lazy, r, paid);
    Floor(balance, DIV);
    BothNear((paid * DIV) as real, Times(s.lazy.bias as real)(SharesOf(s.receipts)[user]), balance as real,
             (balance / DIV * DIV) as real, PaymentLoss(s.lazy, r), g.user[user]);
  }

  /** Whoever withdraws after such a run is paid nearly the same by both models. */
  lemma {:induction false} EveryPaymentNear(cfg: Checker, requests: seq<Op>, user: nat, paid: u128)
    requires ExplorerGuarantees.RunsSharePool(cfg) && RunsLedger(cfg) && Replay(cfg, requests).Some?
    requires forall op :: op in requests ==> InRangeOp(op)
    requires var s := Replay(cfg, requests).value;
             && user in s.receipts && InRange(s.receipts[user].shares)
             && SharePool.Withdraw(s.lazy, s.receipts[user]).1 == Ok(paid)
    ensures var s := Replay(cfg, requests).value;
            && s.lazy.Live? && FixedLedger.FixedWithdraw(s.manual, user).1 == Ok(LedgerPays(s, user))
            && Near((paid * DIV) as real, (LedgerPays(s, user) * DIV) as real,
                    PaymentGap(s, Gaps(cfg, requests), user))
  {
    EveryRunBoundsGap(cfg, requests);
    PaymentsNear(Replay(cfg, requests).value, Gaps(cfg, requests), user, paid);
  }

  lemma {:induction false} WholeDistance(paid: nat, expected: nat, gap: real, allowed: nat)
    requires Near((paid * DIV) as real, (expected * DIV) as real, gap) && gap <= (allowed * DIV) as real
    ensures ExplorerGuarantees.Distance(paid, expected) <= allowed
  {
  }

  /** So a difference allowed by the configuration that covers the gap rules out drift in that withdrawal. */
  lemma {:induction false} AllowedGapNeverDrifts(cfg: Checker, requests: seq<Op>, user: nat)
    requires ExplorerGuarantees.RunsSharePool(cfg) && RunsLedger(cfg) && Replay(cfg, requests).Some?
    requires forall op :: op in requests ==> InRangeOp(op)
    requires var s := Replay(cfg, requests).value;
             user in s.receipts ==>
               && s.lazy.Live? && InRange(s.receipts[user].shares)
               && PaymentGap(s, Gaps(cfg, requests), user) <= (cfg.allowedDiff * DIV) as real
    ensures !Step(cfg, Replay(cfg, requests).value, Withdraw(user)).Drifted?
  {
    var s := Replay(cfg, requests).value;
    if user in s.receipts && SharePool.Withdraw(s.lazy, s.receipts[user]).1.Ok? {
      var paid := SharePool.Withdraw(s.lazy, s.receipts[user]).1.value;
      EveryPaymentNear(cfg, requests, user, paid);
      WholeDistance(paid, LedgerPays(s, user), PaymentGap(s, Gaps(cfg, requests), user), cfg.allowedDiff);
      assert cfg.lazy.withdraw(s.lazy, s.receipts[user]) == ExplorerGuarantees.LazyWithdraw(s.lazy, s.receipts[user]);
      assert cfg.manual.withdraw(s.manual, user, paid) == LedgerWithdraw(s.manual, user);
      ExplorerGuarantees.DriftIffOutOfTolerance(cfg, s, user);
    }
  }
}
