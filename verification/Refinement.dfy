/**
 With exact prices the pool, which touches no user, pays every user what the ledger, which
 rewrites every user, holds for them: over every run, through drains and revivals.
 */
module Refinement {
  import opened Wrappers
  import opened RealMaps
  import Pool = ExactPool
  import Book = EagerLedger

  datatype Op =
    | Deposit(user: nat, amount: nat)
    | Withdraw(user: nat)
    | Mint(amount: nat)
    | Reap(amount: nat)
    | Drain

  /** Both models side by side, and the receipt each user of the pool holds. */
  datatype Joint = Joint(pool: Pool.Pool, receipts: map<nat, Pool.Receipt>, ledger: Book.Ledger)

  const START: Joint := Joint(Pool.Fresh, map[], Book.EMPTY)

  /** One deposit a user at a time, and nothing but deposits while nobody holds anything. */
  predicate Allowed(j: Joint, op: Op) {
    match op
    case Deposit(user, _) => user !in j.receipts
    case Withdraw(user) => user in j.receipts
    case _ => j.receipts != map[]
  }

  /** The pool's half of a step: the new pool and receipts, and what was paid. */
  function PoolStep(j: Joint, op: Op): Option<(Pool.Pool, map<nat, Pool.Receipt>, real)>
    requires Allowed(j, op)
  {
    match op
    case Deposit(user, amount) =>
      var pr :- Pool.Deposit(j.pool, amount);
      Some((pr.0, j.receipts[user := pr.1], 0.0))
    case Withdraw(user) =>
      var pp :- Pool.Withdraw(j.pool, j.receipts[user]);
      Some((pp.0, j.receipts - {user}, pp.1))
    case Mint(amount) =>
      var p :- Pool.Mint(j.pool, amount);
      Some((p, j.receipts, 0.0))
    case Reap(amount) =>
      var p :- Pool.Reap(j.pool, amount);
      Some((p, j.receipts, 0.0))
    case Drain =>
      var p :- Pool.Drain(j.pool);
      Some((p, j.receipts, 0.0))
  }

  /** The ledger's half of a step: the new ledger, whether it accepted, and what was paid. */
  ghost function BookStep(j: Joint, op: Op): (Book.Ledger, Result<real, Book.ManualError>) {
    match op
    case Deposit(user, amount) => Unpaid(Book.Deposit(j.ledger, user, amount))
    case Withdraw(user) => Book.Withdraw(j.ledger, user)
    case Mint(amount) => Unpaid(Book.Mint(j.ledger, amount))
    case Reap(amount) => Unpaid(Book.Reap(j.ledger, amount))
    case Drain => Unpaid(Book.Drain(j.ledger))
  }

  function Unpaid(lr: (Book.Ledger, Result<(), Book.ManualError>)): (Book.Ledger, Result<real, Book.ManualError>) {
    (lr.0, match lr.1 case Ok(_) => Ok(0.0) case Err(e) => Err(e))
  }

  /** A step both models take. */
  ghost predicate Accepted(j: Joint, op: Op) {
    Allowed(j, op) && PoolStep(j, op).Some? && BookStep(j, op).1.Ok?
  }

  ghost function Step(j: Joint, op: Op): Joint
    requires Accepted(j, op)
  {
    var (p, receipts, _) := PoolStep(j, op).value;
    Joint(p, receipts, BookStep(j, op).0)
  }

  // ---------------------------------------------------------------------------
  // The simulation relation
  // ---------------------------------------------------------------------------

  function SharesOf(receipts: map<nat, Pool.Receipt>): map<nat, real> {
    map user | user in receipts :: receipts[user].shares
  }

  /** Entry by entry, `m` is the image of the shares. */
  ghost predicate Image(m: map<nat, real>, receipts: map<nat, Pool.Receipt>, f: real -> real) {
    m.Keys == receipts.Keys && forall user :: user in m ==> m[user] == f(receipts[user].shares)
  }

  /** The shares are the receipts', and at the current price they are worth exactly the pool. */
  ghost predicate Coherent(j: Joint) {
    && (forall user :: user in j.receipts ==> j.receipts[user].shares > 0.0 && j.receipts[user].bias > 0.0)
    && (j.pool.Fresh? ==> j.receipts == map[])
    && (j.pool.Live? ==>
          && j.pool.bias >= 0.0
          && j.pool.issued == Total(SharesOf(j.receipts))
          && j.pool.effective == Times(j.pool.bias)(j.pool.issued)
          && (j.receipts == map[] ==> j.pool.bias == 1.0))
  }

  /** Every balance in the ledger is the user's shares at the pool's price. */
  ghost predicate Agree(j: Joint) {
    && j.ledger.users.Keys == j.receipts.Keys
    && (j.pool.Live? ==> Image(j.ledger.users, j.receipts, Times(j.pool.bias)))
  }

  /** The balances kept from before a drain are proportional to the shares, and kept while drained. */
  ghost predicate Remembered(j: Joint) {
    && (j.ledger.beforeDrain.Some? ==>
          exists factor: real :: factor > 0.0 && Image(j.ledger.beforeDrain.value, j.receipts, Times(factor)))
    && (j.pool.Live? && j.pool.bias == 0.0 ==> j.ledger.beforeDrain.Some?)
  }

  ghost predicate Related(j: Joint) {
    Coherent(j) && Agree(j) && Remembered(j)
  }

  // ---------------------------------------------------------------------------
  // Arithmetic of one user
  // ---------------------------------------------------------------------------

  lemma {:induction false} CancelFactor(x: real, y: real, f: real)
    requires f != 0.0 && f * x == f * y
    ensures x == y
  {
    assert f * (x - y) == 0.0;
  }

  /**
   A balance at price `b`, plus a part of `v` by weights proportional to the shares, is a
   balance at the price that is worth `v` more in all.
   */
  lemma {:induction false} ShareOfValue(
      b: real, f: real, shares: real, issued: real, v: real, total: real, price: real)
    requires f != 0.0 && total == Times(f)(issued) && total != 0.0
    requires Times(price)(issued) == Times(b)(issued) + v
    ensures Book.Moved(Times(b)(shares), Times(f)(shares), total, v) == Times(price)(shares)
  {
    var part := f * shares / total;
    assert part * total == f * shares;
    assert f * (issued * part) == part * total;
    CancelFactor(issued * part, shares, f);
    assert price * shares == price * issued * part;
    assert (b * issued + v) * part == b * (issued * part) + part * v;
  }

  lemma {:induction false} PriceOfDeposit(amount: real, bias: real)
    requires bias > 0.0
    ensures Times(bias)(amount / bias) == amount
  {
  }

  lemma {:induction false} RatioCancels(shares: real, base: real, bias: real)
    requires base != 0.0
    ensures shares * base * (bias / base) == bias * shares
  {
    var ratio := bias / base;
    assert ratio * base == bias;
    assert shares * base * ratio == shares * (ratio * base);
  }

  /** Drained since or not, a receipt is worth its shares at the price now. */
  lemma {:induction false} WorthIsSharesAtPrice(p: Pool.Pool, r: Pool.Receipt)
    requires p.Live? && r.bias > 0.0
    ensures Pool.Worth(p, r) == Some(Times(p.bias)(r.shares))
  {
    var value := Pool.Worth(p, r).value;
    assert value == p.bias * r.shares by {
      if p.drainpoint > r.checkpoint {
        assert value == r.shares * (p.bias / 1.0);
      } else {
        RatioCancels(r.shares, r.bias, p.bias);
        assert value == r.shares * r.bias * (p.bias / r.bias);
      }
    }
    assert Times(p.bias)(r.shares) == p.bias * r.shares;
  }

  lemma {:induction false} ValueMono(bias: real, x: real, y: real)
    requires bias >= 0.0 && x <= y
    ensures Times(bias)(x) <= Times(bias)(y)
  {
    assert bias * (y - x) >= 0.0;
  }

  /** Balances proportional to the shares add up in proportion to the issued shares. */
  lemma {:induction false} TotalImage(m: map<nat, real>, receipts: map<nat, Pool.Receipt>, factor: real)
    requires Image(m, receipts, Times(factor))
    ensures Total(m) == Times(factor)(Total(SharesOf(receipts)))
  {
    TimesIsAdditive(factor);
    TotalAdditive(m, SharesOf(receipts), Times(factor));
  }

  /** The pool has shares exactly while somebody holds a receipt. */
  lemma {:induction false} IssuedWhileHeld(j: Joint)
    requires Coherent(j) && j.pool.Live?
    ensures j.pool.issued >= 0.0
    ensures j.pool.issued == 0.0 <==> j.receipts == map[]
    ensures j.pool.effective >= 0.0
  {
    TotalPositive(SharesOf(j.receipts));
    assert SharesOf(j.receipts) == map[] <==> j.receipts == map[] by {
      assert SharesOf(j.receipts).Keys == j.receipts.Keys;
    }
    ValueMono(j.pool.bias, 0.0, j.pool.issued);
  }

  // ---------------------------------------------------------------------------
  // Deposit and withdraw
  // ---------------------------------------------------------------------------

  /** Adding a receipt and its image keeps the books. */
  lemma {:induction false} AddImage(
      m: map<nat, real>, receipts: map<nat, Pool.Receipt>, f: real -> real, user: nat, r: Pool.Receipt)
    requires Image(m, receipts, f) && user !in receipts
    ensures Image(m[user := f(r.shares)], receipts[user := r], f)
    ensures Total(SharesOf(receipts[user := r])) == Total(SharesOf(receipts)) + r.shares
  {
    assert SharesOf(receipts[user := r]) == SharesOf(receipts)[user := r.shares];
    TotalInsert(SharesOf(receipts), user, r.shares);
  }

  lemma {:induction false} RemoveImage(
      m: map<nat, real>, receipts: map<nat, Pool.Receipt>, f: real -> real, user: nat)
    requires Image(m, receipts, f) && user in receipts
    ensures Image(m - {user}, receipts - {user}, f)
    ensures Total(SharesOf(receipts)) == Total(SharesOf(receipts - {user})) + receipts[user].shares
  {
    assert SharesOf(receipts - {user}) == SharesOf(receipts) - {user};
    TotalRemove(SharesOf(receipts), user);
  }

  /** A new receipt, entered in the ledger at what it is worth. */
  lemma {:induction false} AddKeepsRelated(j: Joint, user: nat, r: Pool.Receipt, amount: real)
    requires Related(j) && j.pool.Live? && user !in j.receipts
    requires r.shares > 0.0 && r.bias == j.pool.bias > 0.0 && Times(j.pool.bias)(r.shares) == amount
    ensures Related(Joint(
                j.pool.(effective := j.pool.effective + amount, issued := j.pool.issued + r.shares),
                j.receipts[user := r],
                Book.Ledger(j.ledger.users[user := amount], None)))
  {
    Distribute(j.pool.bias, j.pool.issued, r.shares);
    AddImage(j.ledger.users, j.receipts, Times(j.pool.bias), user, r);
  }

  lemma {:induction false} DepositAgrees(j: Joint, user: nat, amount: nat)
    requires Related(j) && Allowed(j, Deposit(user, amount)) && PoolStep(j, Deposit(user, amount)).Some?
    ensures BookStep(j, Deposit(user, amount)).1.Ok?
    ensures Related(Step(j, Deposit(user, amount)))
  {
    var p := if j.pool.Fresh? then Pool.INITIAL else j.pool;
    var live := j.(pool := p);
    assert Related(live);
    IssuedWhileHeld(live);
    var r := Pool.Deposit(j.pool, amount).value.1;
    PriceOfDeposit(amount as real, p.bias);
    AddKeepsRelated(live, user, r, amount as real);
  }

  /** The pool after shares have been paid out at its price; an emptied pool is priced at one again. */
  function PaidOut(p: Pool.Pool, shares: real): Pool.Pool
    requires p.Live?
  {
    var rest := p.issued - shares;
    p.(effective := p.effective - Times(p.bias)(shares), issued := rest, bias := if rest == 0.0 then 1.0 else p.bias)
  }

  lemma {:induction false} WithdrawPays(j: Joint, user: nat)
    requires Coherent(j) && user in j.receipts
    ensures j.pool.Live?
    ensures var p, r := j.pool, j.receipts[user];
            && Pool.Withdraw(p, r) == Some((PaidOut(p, r.shares), Times(p.bias)(r.shares)))
            && (p.issued - r.shares == 0.0 <==> j.receipts - {user} == map[])
            && Coherent(j.(pool := PaidOut(p, r.shares), receipts := j.receipts - {user}))
  {
    var p, r := j.pool, j.receipts[user];
    var rest := p.issued - r.shares;
    var others := j.receipts - {user};
    IssuedWhileHeld(j);
    RemoveImage(SharesOf(j.receipts), j.receipts, x => x, user);
    TotalPositive(SharesOf(others));
    assert SharesOf(others) == map[] <==> others == map[] by {
      assert SharesOf(others).Keys == others.Keys;
    }
    WorthIsSharesAtPrice(p, r);
    ValueMono(p.bias, r.shares, p.issued);
    ValueMono(p.bias, 0.0, r.shares);
    Distribute(p.bias, rest, r.shares);
  }

  lemma {:induction false} WithdrawKeepsMemory(j: Joint, user: nat)
    requires Related(j) && user in j.receipts && j.ledger.beforeDrain.Some?
    ensures exists factor: real ::
              factor > 0.0 && Image(j.ledger.beforeDrain.value - {user}, j.receipts - {user}, Times(factor))
  {
    var factor :| factor > 0.0 && Image(j.ledger.beforeDrain.value, j.receipts, Times(factor));
    RemoveImage(j.ledger.beforeDrain.value, j.receipts, Times(factor), user);
  }

  lemma {:induction false} WithdrawAgrees(j: Joint, user: nat)
    requires Related(j) && Allowed(j, Withdraw(user))
    ensures PoolStep(j, Withdraw(user)).Some? && BookStep(j, Withdraw(user)).1.Ok?
    ensures PoolStep(j, Withdraw(user)).value.2 == BookStep(j, Withdraw(user)).1.value == j.ledger.users[user]
    ensures Related(Step(j, Withdraw(user)))
  {
    WithdrawPays(j, user);
    RemoveImage(j.ledger.users, j.receipts, Times(j.pool.bias), user);
    if j.ledger.beforeDrain.Some? {
      WithdrawKeepsMemory(j, user);
    }
  }

  // ---------------------------------------------------------------------------
  // Mint, reap and drain
  // ---------------------------------------------------------------------------

  lemma {:induction false} PositiveProduct(bias: real, issued: real)
    requires issued > 0.0
    ensures Times(bias)(issued) == 0.0 <==> bias == 0.0
  {
  }

  /** While somebody holds a receipt, the ledger's total is the pool's value, zero only at price zero. */
  lemma {:induction false} TotalIsEffective(j: Joint)
    requires Coherent(j) && Agree(j) && j.receipts != map[]
    ensures j.pool.Live? && j.pool.issued > 0.0 && j.ledger.users != map[]
    ensures Total(j.ledger.users) == j.pool.effective >= 0.0
    ensures j.pool.effective == 0.0 <==> j.pool.bias == 0.0
  {
    IssuedWhileHeld(j);
    TotalImage(j.ledger.users, j.receipts, j.pool.bias);
    PositiveProduct(j.pool.bias, j.pool.issued);
    assert j.receipts.Keys != {};
  }

  /** Handing out `v` by weights proportional to the shares moves every balance to the new price. */
  lemma {:induction false} SharedImage(
      users: map<nat, real>, weights: map<nat, real>, receipts: map<nat, Pool.Receipt>,
      bias: real, factor: real, issued: real, v: real, total: real, price: real)
    requires Image(users, receipts, Times(bias)) && Image(weights, receipts, Times(factor))
    requires factor != 0.0 && total == Times(factor)(issued) && total != 0.0
    requires Times(price)(issued) == Times(bias)(issued) + v
    ensures Image(Book.Shared(users, weights, total, v), receipts, Times(price))
  {
    var shared := Book.Shared(users, weights, total, v);
    forall user | user in shared
      ensures shared[user] == Times(price)(receipts[user].shares)
    {
      var shares := receipts[user].shares;
      ShareOfValue(bias, factor, shares, issued, v, total, price);
      assert user in weights && weights[user] == Times(factor)(shares);
    }
  }

  lemma {:induction false} PriceTimesIssued(effective: real, issued: real)
    requires issued > 0.0
    ensures Times(effective / issued)(issued) == effective
    ensures effective >= 0.0 ==> effective / issued >= 0.0
    ensures effective == 0.0 <==> effective / issued == 0.0
  {
  }

  /** A repricing keeps the pool coherent, and sets price zero exactly when nothing is left. */
  lemma {:induction false} RepricedCoherent(j: Joint, effective: real)
    requires Coherent(j) && j.receipts != map[] && j.pool.Live? && j.pool.issued > 0.0 && effective >= 0.0
    ensures Coherent(j.(pool := Pool.Repriced(j.pool, effective)))
    ensures Pool.Repriced(j.pool, effective).bias == 0.0 <==> effective == 0.0
    ensures Pool.Repriced(j.pool, effective).bias == effective / j.pool.issued
  {
    PriceTimesIssued(effective, j.pool.issued);
  }

  lemma {:induction false} MintAgrees(j: Joint, amount: nat)
    requires Related(j) && Allowed(j, Mint(amount))
    ensures PoolStep(j, Mint(amount)).Some? && BookStep(j, Mint(amount)).1.Ok?
    ensures Related(Step(j, Mint(amount)))
  {
    TotalIsEffective(j);
    if amount != 0 {
      var p, v := j.pool, amount as real;
      var p' := Pool.Repriced(p, p.effective + v);
      RepricedCoherent(j, p.effective + v);
      assert Pool.Mint(p, amount) == Some(p');
      if p.effective == 0.0 {
        var snapshot := j.ledger.beforeDrain.value;
        var factor :| factor > 0.0 && Image(snapshot, j.receipts, Times(factor));
        TotalImage(snapshot, j.receipts, factor);
        PositiveProduct(factor, p.issued);
        SharedImage(j.ledger.users, snapshot, j.receipts, p.bias, factor, p.issued, v, Total(snapshot), p'.bias);
      } else {
        SharedImage(j.ledger.users, j.ledger.users, j.receipts, p.bias, p.bias, p.issued, v, p.effective, p'.bias);
      }
    }
  }

  /** Draining the ledger while the pool is priced at zero. */
  lemma {:induction false} DrainedRelated(j: Joint)
    requires Related(j) && j.receipts != map[] && j.pool.Live? && j.pool.issued > 0.0 && j.pool.effective > 0.0
    ensures Related(Joint(Pool.Repriced(j.pool, 0.0), j.receipts, Book.Drain(j.ledger).0))
    ensures Book.Drain(j.ledger).1.Ok?
  {
    TotalIsEffective(j);
    RepricedCoherent(j, 0.0);
    assert Image(Book.Zeroes(j.ledger.users), j.receipts, Times(0.0));
    assert Image(j.ledger.users, j.receipts, Times(j.pool.bias));
  }

  /**
   The one disagreement: the ledger compares a reap with its total rounded down, so a reap of
   the whole units of a fractional pool drains the ledger and leaves the pool a fraction.
   */
  predicate SplitReap(j: Joint, op: Op) {
    && op.Reap? && op.amount != 0 && j.pool.Live?
    && j.pool.effective.Floor <= op.amount
    && (op.amount as real) < j.pool.effective
  }

  lemma {:induction false} ReapAgrees(j: Joint, amount: nat)
    requires Related(j) && Allowed(j, Reap(amount)) && PoolStep(j, Reap(amount)).Some?
    requires !SplitReap(j, Reap(amount))
    ensures BookStep(j, Reap(amount)).1.Ok?
    ensures Related(Step(j, Reap(amount)))
  {
    TotalIsEffective(j);
    if amount != 0 {
      var p, v := j.pool, amount as real;
      var p' := Pool.Repriced(p, p.effective - v);
      if v == p.effective {
        DrainedRelated(j);
      } else {
        RepricedCoherent(j, p.effective - v);
        SharedImage(j.ledger.users, j.ledger.users, j.receipts, p.bias, p.bias, p.issued, -v, p.effective, p'.bias);
      }
    }
  }

  lemma {:induction false} PositiveWorth(bias: real, shares: real)
    requires bias > 0.0 && shares > 0.0
    ensures Times(bias)(shares) > 0.0
  {
  }

  lemma {:induction false} SplitReapOutcome(j: Joint, amount: nat)
    requires Related(j) && Allowed(j, Reap(amount)) && SplitReap(j, Reap(amount))
    ensures Accepted(j, Reap(amount))
    ensures amount == Total(j.ledger.users).Floor
    ensures var j' := Step(j, Reap(amount));
            && j'.pool.Live? && j'.pool.bias > 0.0
            && j'.receipts == j.receipts
            && j'.ledger.users == Book.Zeroes(j.ledger.users)
  {
    TotalIsEffective(j);
    RepricedCoherent(j, j.pool.effective - amount as real);
  }

  /** A split reap leaves every user of the ledger nothing and every receipt of the pool something. */
  lemma {:induction false} SplitReapDisagrees(j: Joint, amount: nat)
    requires Related(j) && Allowed(j, Reap(amount)) && SplitReap(j, Reap(amount))
    ensures Accepted(j, Reap(amount))
    ensures var j' := Step(j, Reap(amount));
            && j'.pool.Live?
            && (forall user :: user in j'.receipts ==>
                  j'.ledger.users[user] == 0.0 < Times(j'.pool.bias)(j'.receipts[user].shares))
            && !Related(j')
  {
    SplitReapOutcome(j, amount);
    var j' := Step(j, Reap(amount));
    forall user | user in j'.receipts
      ensures 0.0 < Times(j'.pool.bias)(j'.receipts[user].shares)
    {
      PositiveWorth(j'.pool.bias, j'.receipts[user].shares);
    }
    var user :| user in j'.receipts;
  }

  lemma {:induction false} DrainAgrees(j: Joint)
    requires Related(j) && Allowed(j, Drain)
    ensures PoolStep(j, Drain).Some? && BookStep(j, Drain).1.Ok?
    ensures Related(Step(j, Drain))
  {
    TotalIsEffective(j);
    if j.pool.effective > 0.0 {
      DrainedRelated(j);
    }
  }

  /**
   Simulation. From related states, whatever the pool accepts the ledger accepts, and the two
   stay related exactly when the step is not a split reap.
   */
  lemma {:induction false} StepAgrees(j: Joint, op: Op)
    requires Related(j) && Allowed(j, op) && PoolStep(j, op).Some?
    ensures Accepted(j, op)
    ensures Related(Step(j, op)) <==> !SplitReap(j, op)
    ensures op.Withdraw? ==> PoolStep(j, op).value.2 == BookStep(j, op).1.value == j.ledger.users[op.user]
  {
    match op
    case Deposit(user, amount) => DepositAgrees(j, user, amount);
    case Withdraw(user) => WithdrawAgrees(j, user);
    case Mint(amount) => MintAgrees(j, amount);
    case Reap(amount) =>
      if SplitReap(j, op) {
        SplitReapDisagrees(j, amount);
      } else {
        ReapAgrees(j, amount);
      }
    case Drain => DrainAgrees(j);
  }

  /**
   The ledger alone accepts exactly two things: a deposit while the pool is priced at zero,
   and a reap of more than there is.
   */
  lemma {:induction false} OnlyLedgerAccepts(j: Joint, op: Op)
    requires Related(j) && Allowed(j, op)
    ensures PoolStep(j, op).None? && BookStep(j, op).1.Ok? <==>
              || (op.Deposit? && op.amount != 0 && j.pool.Live? && j.pool.bias == 0.0)
              || (op.Reap? && op.amount as real > Pool.TotalValue(j.pool))
  {
    match op
    case Deposit(user, amount) =>
      if j.pool.Live? && amount != 0 && j.pool.bias != 0.0 {
        PriceOfDeposit(amount as real, j.pool.bias);
      }
    case Withdraw(user) => WithdrawAgrees(j, user);
    case Mint(amount) => MintAgrees(j, amount);
    case Reap(amount) => TotalIsEffective(j);
    case Drain => DrainAgrees(j);
  }

  // ---------------------------------------------------------------------------
  // Runs
  // ---------------------------------------------------------------------------

  /** The state after `ops`, if both models accept every step. */
  ghost function Run(ops: seq<Op>): Option<Joint> {
    if ops == [] then Some(START)
    else
      var j :- Run(ops[..|ops| - 1]);
      if Accepted(j, ops[|ops| - 1]) then Some(Step(j, ops[|ops| - 1])) else None
  }

  ghost predicate SplitsNothing(ops: seq<Op>) {
    forall i :: 0 <= i < |ops| ==> var j := Run(ops[..i]); j.Some? ==> !SplitReap(j.value, ops[i])
  }

  lemma {:induction false} RunIsRelated(ops: seq<Op>)
    requires Run(ops).Some? && SplitsNothing(ops)
    ensures Related(Run(ops).value)
  {
    if ops != [] {
      var before := ops[..|ops| - 1];
      forall i | 0 <= i < |before|
        ensures var j := Run(before[..i]); j.Some? ==> !SplitReap(j.value, before[i])
      {
        assert before[..i] == ops[..i];
      }
      RunIsRelated(before);
      StepAgrees(Run(before).value, ops[|ops| - 1]);
    }
  }

  /**
   Refinement. After every run without a split reap, through any drains, withdrawals while
   drained and revivals, the pool pays each user exactly the ledger's balance, and the ledger
   accepts whatever the pool accepts next.
   */
  lemma {:induction false} EveryRunRefines(ops: seq<Op>, user: nat, op: Op)
    requires Run(ops).Some? && SplitsNothing(ops)
    ensures var j := Run(ops).value;
            && j.receipts.Keys == j.ledger.users.Keys
            && (user in j.receipts ==>
                  && Pool.Withdraw(j.pool, j.receipts[user]).Some?
                  && Pool.Withdraw(j.pool, j.receipts[user]).value.1 == j.ledger.users[user])
            && (Allowed(j, op) && PoolStep(j, op).Some? ==> Run(ops + [op]).Some?)
  {
    var j := Run(ops).value;
    RunIsRelated(ops);
    if user in j.receipts {
      WithdrawAgrees(j, user);
    }
    if Allowed(j, op) && PoolStep(j, op).Some? {
      StepAgrees(j, op);
      assert (ops + [op])[..|ops|] == ops;
    }
  }

  lemma {:induction false} Extend(ops: seq<Op>, op: Op)
    requires Run(ops).Some? && Accepted(Run(ops).value, op)
    ensures Run(ops + [op]) == Some(Step(Run(ops).value, op))
  {
    assert (ops + [op])[..|ops|] == ops;
  }

  /** A step that is no split reap extends a run. */
  lemma {:induction false} Advance(ops: seq<Op>, op: Op)
    requires Run(ops).Some? && SplitsNothing(ops)
    requires Allowed(Run(ops).value, op) && PoolStep(Run(ops).value, op).Some? && !SplitReap(Run(ops).value, op)
    ensures SplitsNothing(ops + [op]) && Run(ops + [op]).Some?
    ensures Run(ops + [op]).value.pool == PoolStep(Run(ops).value, op).value.0
    ensures Run(ops + [op]).value.receipts == PoolStep(Run(ops).value, op).value.1
  {
    RunIsRelated(ops);
    StepAgrees(Run(ops).value, op);
    Extend(ops, op);
    forall i | 0 <= i < |ops + [op]|
      ensures var j := Run((ops + [op])[..i]); j.Some? ==> !SplitReap(j.value, (ops + [op])[i])
    {
      assert (ops + [op])[..i] == ops[..i];
      assert ops[..|ops|] == ops;
    }
  }

  lemma {:induction false} TwoDeposits()
    ensures var ops := [Deposit(0, 1), Deposit(1, 1)];
            && SplitsNothing(ops) && Run(ops).Some?
            && Run(ops).value.pool == Pool.Live(2.0, 2.0, 1.0, 0, 0)
            && Run(ops).value.receipts.Keys == {0, 1} && Run(ops).value.receipts[0].shares == 1.0
  {
    Advance([], Deposit(0, 1));
    assert [] + [Deposit(0, 1)] == [Deposit(0, 1)];
    Advance([Deposit(0, 1)], Deposit(1, 1));
    assert [Deposit(0, 1)] + [Deposit(1, 1)] == [Deposit(0, 1), Deposit(1, 1)];
  }

  lemma {:induction false} TwoDepositsAndAMint()
    ensures var ops := [Deposit(0, 1), Deposit(1, 1), Mint(1)];
            && SplitsNothing(ops)
            && Run(ops).Some?
            && Run(ops).value.pool == Pool.Live(3.0, 2.0, 1.5, 1, 0)
            && 0 in Run(ops).value.receipts && 1 in Run(ops).value.receipts
            && Run(ops).value.receipts[0].shares == 1.0
  {
    var two := [Deposit(0, 1), Deposit(1, 1)];
    TwoDeposits();
    assert 0 in Run(two).value.receipts;
    Advance(two, Mint(1));
    assert two + [Mint(1)] == [Deposit(0, 1), Deposit(1, 1), Mint(1)];
  }

  /** The next user to leave takes half of three, and a pool of 3/2 remains. */
  lemma {:induction false} OneLeaves(ops: seq<Op>)
    requires Run(ops).Some? && SplitsNothing(ops)
    requires Run(ops).value.pool == Pool.Live(3.0, 2.0, 1.5, 1, 0)
    requires 0 in Run(ops).value.receipts && 1 in Run(ops).value.receipts
    requires Run(ops).value.receipts[0].shares == 1.0
    ensures Run(ops + [Withdraw(0)]).Some?
    ensures var j := Run(ops + [Withdraw(0)]).value;
            Related(j) && 1 in j.receipts && j.pool.Live? && j.pool.effective == 1.5
  {
    var j := Run(ops).value;
    RunIsRelated(ops);
    StepAgrees(j, Withdraw(0));
    WithdrawPays(j, 0);
    Extend(ops, Withdraw(0));
    assert PaidOut(Pool.Live(3.0, 2.0, 1.5, 1, 0), 1.0).effective == 1.5;
  }

  lemma {:induction false} SplitReapAt(ops: seq<Op>)
    requires Run(ops).Some? && Related(Run(ops).value) && 1 in Run(ops).value.receipts
    requires Run(ops).value.pool.Live? && Run(ops).value.pool.effective == 1.5
    ensures Allowed(Run(ops).value, Reap(1)) && SplitReap(Run(ops).value, Reap(1))
  {
    assert Run(ops).value.receipts != map[];
  }

  /** A split reap can happen: a reap of one unit splits 3/2. */
  lemma {:induction false} SplitReapHappens()
    ensures exists ops, op ::
              Run(ops).Some? && Related(Run(ops).value) && Allowed(Run(ops).value, op) && SplitReap(Run(ops).value, op)
  {
    var ops := [Deposit(0, 1), Deposit(1, 1), Mint(1)];
    TwoDepositsAndAMint();
    OneLeaves(ops);
    SplitReapAt(ops + [Withdraw(0)]);
  }
}
