/** Every run of the fixed-point ledger: what comes in bounds what it holds, so it cannot overflow in range. */
module LedgerRuns {
  import opened Wrappers
  import opened FixedPoint
  import opened RealMaps
  import opened FixedLedger
  import opened LedgerPrecision
  import PoolRuns
  import SharePool

  datatype Op =
    | Deposit(user: nat, amount: u128)
    | Withdraw(user: nat)
    | Mint(value: u128)
    | Reap(value: u128)
    | Drain

  ghost function Step(l: Fixed, op: Op): Option<Fixed> {
    match op
    case Deposit(user, amount) => Some(FixedDeposit(l, user, amount).0)
    case Withdraw(user) => Some(FixedWithdraw(l, user).0)
    case Mint(value) =>
      var lr :- FixedMint(l, value);
      Some(lr.0)
    case Reap(value) =>
      var lr :- FixedReap(l, value);
      Some(lr.0)
    case Drain =>
      var lr :- FixedDrain(l);
      Some(lr.0)
  }

  /** The ledger after `ops`, refused ones included, unless the arithmetic overflows. */
  ghost function Run(ops: seq<Op>): Option<Fixed> {
    if ops == [] then Some(NO_USERS)
    else
      var l :- Run(ops[..|ops| - 1]);
      Step(l, ops[|ops| - 1])
  }

  function Incoming(op: Op): nat {
    match op
    case Deposit(_, amount) => amount
    case Mint(value) => value
    case _ => 0
  }

  function Inflow(ops: seq<Op>): nat {
    if ops == [] then 0 else Inflow(ops[..|ops| - 1]) + Incoming(ops[|ops| - 1])
  }

  // ---------------------------------------------------------------------------
  // When a step overflows
  // ---------------------------------------------------------------------------

  /** A balance raised by its part of `v` in `total` does not fit. */
  predicate Outgrows(balance: u128, total: u128, v: u128)
    requires total > 0
  {
    balance + balance * DIV / total * v / DIV > MAX
  }

  /**
   What ends the program: adding up balances that do not fit, or a mint that raises one of them
   beyond what fits.
   */
  ghost predicate Overflows(l: Fixed, op: Op) {
    && l.users != map[]
    && (op.Drain? || ((op.Mint? || op.Reap?) && op.value != 0))
    && match TotalOf(l.users)
       case None => true
       case Some(total) =>
         && op.Mint? && total > 0
         && exists user :: user in l.users && Outgrows(l.users[user], total, SaturatingFromInteger(op.value))
  }

  /** The balances kept from before a drain are those of the same users and can be added up. */
  ghost predicate Kept(l: Fixed) {
    l.beforeDrain.Some? ==> l.beforeDrain.value.Keys == l.users.Keys && TotalOf(l.beforeDrain.value).Some?
  }

  lemma {:induction false} RaiseIff(balance: u128, total: u128, v: u128)
    requires 0 < total && balance <= total
    ensures Raise(balance, balance, total, v).None? <==> Outgrows(balance, total, v)
  {
    PartBounds(balance, total, v);
  }

  lemma {:induction false} RaisedIff(users: map<nat, u128>, v: u128)
    requires TotalOf(users).Some? && TotalOf(users).value > 0
    ensures Raised(users, users, TotalOf(users).value, v).None? <==>
            exists user :: user in users && Outgrows(users[user], TotalOf(users).value, v)
  {
    var total := TotalOf(users).value;
    forall user | user in users
      ensures Raise(users[user], WeightOf(users, user), total, v).None? <==> Outgrows(users[user], total, v)
    {
      BalanceWithin(users, user);
      RaiseIff(users[user], total, v);
    }
  }

  /** A revival gives out of nothing: no balance can exceed what is minted. */
  lemma {:induction false} RevivalFits(users: map<nat, u128>, weights: map<nat, u128>, v: u128)
    requires TotalOf(users) == Some(0) && TotalOf(weights).Some? && TotalOf(weights).value > 0
    ensures Raised(users, weights, TotalOf(weights).value, v).Some?
  {
    forall user | user in users
      ensures Raise(users[user], WeightOf(weights, user), TotalOf(weights).value, v).Some?
    {
      BalanceWithin(users, user);
      if user in weights {
        BalanceWithin(weights, user);
      }
      PartBounds(WeightOf(weights, user), TotalOf(weights).value, v);
    }
  }

  lemma {:induction false} MintOverflowsIff(l: Fixed, value: u128)
    requires Kept(l)
    ensures FixedMint(l, value).None? <==> Overflows(l, Mint(value))
  {
    var v := SaturatingFromInteger(value);
    if TotalOf(l.users).Some? {
      if TotalOf(l.users).value > 0 {
        RaisedIff(l.users, v);
      } else if l.beforeDrain.Some? && TotalOf(l.beforeDrain.value).value > 0 {
        RevivalFits(l.users, l.beforeDrain.value, v);
      }
    }
  }

  lemma {:induction false} StepOverflowsIff(l: Fixed, op: Op)
    requires Kept(l)
    ensures Step(l, op).None? <==> Overflows(l, op)
  {
    match op
    case Deposit(user, amount) =>
    case Withdraw(user) =>
    case Mint(value) => MintOverflowsIff(l, value);
    case Reap(value) =>
      if TotalOf(l.users).Some? {
        ReapNearExact(l, value);
      }
    case Drain =>
  }

  lemma {:induction false} WithdrawKeeps(l: Fixed, user: nat)
    requires Kept(l)
    ensures Kept(FixedWithdraw(l, user).0)
  {
    if l.beforeDrain.Some? && user in l.beforeDrain.value {
      InnerRemove(l.beforeDrain.value, user);
      InnerTotal(l.beforeDrain.value);
      InnerTotal(l.beforeDrain.value - {user});
    }
  }

  lemma {:induction false} StepKeeps(l: Fixed, op: Op)
    requires Kept(l) && Step(l, op).Some?
    ensures Kept(Step(l, op).value)
  {
    match op
    case Deposit(user, amount) =>
    case Withdraw(user) => WithdrawKeeps(l, user);
    case Mint(value) =>
    case Reap(value) =>
    case Drain =>
  }

  /** Mints, reaps and drains leave the users alone. */
  lemma {:induction false} StepKeepsUsers(l: Fixed, op: Op)
    requires (op.Mint? || op.Reap? || op.Drain?) && Step(l, op).Some?
    ensures Step(l, op).value.users.Keys == l.users.Keys
  {
  }

  lemma {:induction false} RunKeeps(ops: seq<Op>)
    requires Run(ops).Some?
    ensures Kept(Run(ops).value)
  {
    if ops != [] {
      RunKeeps(ops[..|ops| - 1]);
      StepKeeps(Run(ops[..|ops| - 1]).value, ops[|ops| - 1]);
    }
  }

  lemma {:induction false} OneMore(ops: seq<Op>, op: Op)
    ensures Run(ops + [op]) == if Run(ops).Some? then Step(Run(ops).value, op) else None
    ensures Inflow(ops + [op]) == Inflow(ops) + Incoming(op)
  {
    assert (ops + [op])[..|ops|] == ops;
  }

  /** After every run the next step overflows exactly when a total, or a balance raised by a mint, does not fit. */
  lemma {:induction false} NextOverflowsIff(ops: seq<Op>, op: Op)
    requires Run(ops).Some?
    ensures Run(ops + [op]).None? <==> Overflows(Run(ops).value, op)
  {
    OneMore(ops, op);
    RunKeeps(ops);
    StepOverflowsIff(Run(ops).value, op);
  }

  // ---------------------------------------------------------------------------
  // What comes in bounds what is held
  // ---------------------------------------------------------------------------

  /** The balances, and those kept from before a drain, are those of the same users and within `inflow`. */
  ghost predicate Bounded(l: Fixed, inflow: nat) {
    && Total(Inner(l.users)) <= (inflow * DIV) as real
    && (l.beforeDrain.Some? ==>
          && l.beforeDrain.value.Keys == l.users.Keys
          && Total(Inner(l.beforeDrain.value)) <= (inflow * DIV) as real)
  }

  lemma {:induction false} BoundedFits(m: map<nat, u128>, inflow: nat)
    requires Total(Inner(m)) <= (inflow * DIV) as real && InRange(inflow)
    ensures TotalOf(m).Some? && TotalOf(m).value as real == Total(Inner(m))
    ensures TotalOf(m).value <= inflow * DIV
  {
    InnerTotal(m);
  }

  /** Entry by entry no more is no more in all. */
  lemma {:induction false} NoMore(less: map<nat, u128>, more: map<nat, u128>)
    requires less.Keys == more.Keys && forall user :: user in less ==> less[user] <= more[user]
    ensures Total(Inner(less)) <= Total(Inner(more))
  {
    TimesIsAdditive(0.0);
    assert Times(0.0)(Total(Inner(more))) == 0.0;
    forall user | user in less
      ensures Inner(less)[user] <= Inner(more)[user] + Times(0.0)(Inner(more)[user])
    {
      assert Times(0.0)(Inner(more)[user]) == 0.0;
    }
    TotalBelow(Inner(less), Inner(more), Inner(more), Times(0.0));
  }

  /** A part in whole units is at most its share of `v`. */
  lemma {:induction false} PartScaled(part: nat, weight: nat, total: nat, v: nat)
    requires total > 0 && part * total <= weight * v
    ensures part as real <= Times(v as real / total as real)(weight as real)
  {
    var scale := v as real / total as real;
    assert scale * total as real == v as real;
    ProductAsReal(part, total);
    ProductAsReal(weight, v);
    assert scale * weight as real * total as real == weight as real * v as real;
    CancelReal(part as real, scale * weight as real, total as real);
  }

  lemma {:induction false} ScaleWhole(total: nat, v: nat)
    requires total > 0
    ensures Times(v as real / total as real)(total as real) == v as real
  {
  }

  lemma {:induction false} SumWithin(
      raised: map<nat, u128>, users: map<nat, u128>, weights: map<nat, u128>, total: nat, v: nat)
    requires total > 0 && Total(Inner(weights)) == total as real && raised.Keys == users.Keys == weights.Keys
    requires forall user :: user in users ==>
               raised[user] as real <= users[user] as real + Times(v as real / total as real)(weights[user] as real)
    ensures Total(Inner(raised)) <= Total(Inner(users)) + v as real
  {
    var scale := v as real / total as real;
    TimesIsAdditive(scale);
    TotalBelow(Inner(raised), Inner(users), Inner(weights), Times(scale));
    ScaleWhole(total, v);
  }

  /** Parts of `v` by weights that add up to `total` add up to at most `v`. */
  lemma {:induction false} RaisedWithin(
      users: map<nat, u128>, weights: map<nat, u128>, v: u128, raised: map<nat, u128>)
    requires users.Keys == weights.Keys && TotalOf(weights).Some? && TotalOf(weights).value > 0
    requires Raised(users, weights, TotalOf(weights).value, v) == Some(raised)
    ensures Total(Inner(raised)) <= Total(Inner(users)) + v as real
  {
    var total := TotalOf(weights).value;
    forall user | user in users
      ensures raised[user] as real <= users[user] as real + Times(v as real / total as real)(weights[user] as real)
    {
      RaiseWithin(users[user], weights, v, user, raised[user]);
    }
    InnerTotal(weights);
    SumWithin(raised, users, weights, total, v);
  }

  lemma {:induction false} RaiseWithin(balance: u128, weights: map<nat, u128>, v: u128, user: nat, raised: u128)
    requires TotalOf(weights).Some? && TotalOf(weights).value > 0 && user in weights
    requires Raise(balance, weights[user], TotalOf(weights).value, v) == Some(raised)
    ensures raised as real <=
            balance as real + Times(v as real / TotalOf(weights).value as real)(weights[user] as real)
  {
    var total := TotalOf(weights).value;
    BalanceWithin(weights, user);
    PartBounds(weights[user], total, v);
    PartScaled(Part(weights[user], total, v).value, weights[user], total, v);
  }

  // ---------------------------------------------------------------------------
  // Every step
  // ---------------------------------------------------------------------------

  lemma {:induction false} DepositBounded(l: Fixed, user: nat, amount: u128, inflow: nat)
    requires Bounded(l, inflow)
    ensures Bounded(FixedDeposit(l, user, amount).0, inflow + amount)
  {
    MulMono(inflow, inflow + amount, DIV);
    if user !in l.users && amount != 0 {
      var users := l.users[user := SaturatingFromInteger(amount)];
      InnerRemove(users, user);
      assert users - {user} == l.users;
    }
  }

  lemma {:induction false} WithdrawBounded(l: Fixed, user: nat, inflow: nat)
    requires Bounded(l, inflow)
    ensures Bounded(FixedWithdraw(l, user).0, inflow)
  {
    if user in l.users {
      InnerRemove(l.users, user);
      if l.beforeDrain.Some? {
        InnerRemove(l.beforeDrain.value, user);
      }
    }
  }

  lemma {:induction false} SharedBounded(
      users: map<nat, u128>, weights: map<nat, u128>, value: u128, inflow: nat, raised: map<nat, u128>)
    requires users.Keys == weights.Keys && TotalOf(weights).Some? && TotalOf(weights).value > 0
    requires Total(Inner(users)) <= (inflow * DIV) as real
    requires Raised(users, weights, TotalOf(weights).value, SaturatingFromInteger(value)) == Some(raised)
    ensures Total(Inner(raised)) <= ((inflow + value) * DIV) as real
  {
    RaisedWithin(users, weights, SaturatingFromInteger(value), raised);
  }

  lemma {:induction false} MintBounded(l: Fixed, value: u128, inflow: nat)
    requires Bounded(l, inflow) && FixedMint(l, value).Some?
    ensures Bounded(FixedMint(l, value).value.0, inflow + value)
  {
    var l' := FixedMint(l, value).value.0;
    MulMono(inflow, inflow + value, DIV);
    if l'.users != l.users {
      if TotalOf(l.users).value == 0 {
        SharedBounded(l.users, l.beforeDrain.value, value, inflow, l'.users);
      } else {
        SharedBounded(l.users, l.users, value, inflow, l'.users);
      }
    }
  }

  lemma {:induction false} DrainBounded(l: Fixed, inflow: nat)
    requires Bounded(l, inflow) && FixedDrain(l).Some?
    ensures Bounded(FixedDrain(l).value.0, inflow)
  {
    NoMore(Wiped(l.users), l.users);
  }

  lemma {:induction false} LoweredNoMore(users: map<nat, u128>, total: u128, v: u128)
    requires Lowered(users, total, v).Some?
    ensures Total(Inner(Lowered(users, total, v).value)) <= Total(Inner(users))
  {
    NoMore(Lowered(users, total, v).value, users);
  }

  lemma {:induction false} ReapBounded(l: Fixed, value: u128, inflow: nat)
    requires Bounded(l, inflow) && FixedReap(l, value).Some?
    ensures Bounded(FixedReap(l, value).value.0, inflow)
  {
    if l.users != map[] && value != 0 {
      if value >= TotalOf(l.users).value / DIV {
        DrainBounded(l, inflow);
      } else {
        LoweredNoMore(l.users, TotalOf(l.users).value, SaturatingFromInteger(value));
      }
    }
  }

  lemma {:induction false} StepBounded(l: Fixed, op: Op, inflow: nat)
    requires Bounded(l, inflow) && Step(l, op).Some?
    ensures Bounded(Step(l, op).value, inflow + Incoming(op))
  {
    match op
    case Deposit(user, amount) => DepositBounded(l, user, amount, inflow);
    case Withdraw(user) => WithdrawBounded(l, user, inflow);
    case Mint(value) => MintBounded(l, value, inflow);
    case Reap(value) => ReapBounded(l, value, inflow);
    case Drain => DrainBounded(l, inflow);
  }

  /** The ledger never holds more than the deposits and mints of its run brought in. */
  lemma {:induction false} NeverHoldsMore(ops: seq<Op>)
    requires Run(ops).Some?
    ensures Bounded(Run(ops).value, Inflow(ops))
  {
    if ops == [] {
      assert Inner(map[]) == map[];
    } else {
      var before := ops[..|ops| - 1];
      NeverHoldsMore(before);
      StepBounded(Run(before).value, ops[|ops| - 1], Inflow(before));
    }
  }

  lemma {:induction false} NothingOutgrows(users: map<nat, u128>, value: u128, inflow: nat, user: nat)
    requires Total(Inner(users)) <= (inflow * DIV) as real && InRange(inflow + value)
    requires TotalOf(users).Some? && TotalOf(users).value > 0 && user in users
    ensures !Outgrows(users[user], TotalOf(users).value, SaturatingFromInteger(value))
  {
    InnerTotal(users);
    BalanceWithin(users, user);
    PartBounds(users[user], TotalOf(users).value, SaturatingFromInteger(value));
  }

  lemma {:induction false} NothingOverflows(l: Fixed, op: Op, inflow: nat)
    requires Bounded(l, inflow) && InRange(inflow + Incoming(op))
    ensures !Overflows(l, op)
  {
    MulMono(inflow, inflow + Incoming(op), DIV);
    BoundedFits(l.users, inflow);
    if op.Mint? && TotalOf(l.users).value > 0 {
      forall user | user in l.users
        ensures !Outgrows(l.users[user], TotalOf(l.users).value, SaturatingFromInteger(op.value))
      {
        NothingOutgrows(l.users, op.value, inflow, user);
      }
    }
  }

  /** So as long as they add up to an amount in range no step overflows. */
  lemma {:induction false} EveryRunFits(ops: seq<Op>)
    requires InRange(Inflow(ops))
    ensures Run(ops).Some?
  {
    if ops != [] {
      var before, op := ops[..|ops| - 1], ops[|ops| - 1];
      MulMono(Inflow(before), Inflow(ops), DIV);
      EveryRunFits(before);
      NeverHoldsMore(before);
      NothingOverflows(Run(before).value, op, Inflow(before));
      NextOverflowsIff(before, op);
      assert before + [op] == ops;
    }
  }

  // ---------------------------------------------------------------------------
  // Runs beyond the range
  // ---------------------------------------------------------------------------

  lemma {:induction false} TwoBalances(a: u128, b: u128)
    ensures Total(Inner(map[0 := a, 1 := b])) == (a + b) as real
  {
    var both, one := map[0 := a, 1 := b], map[1 := b];
    InnerRemove(both, 0);
    assert both - {0} == one;
    InnerRemove(one, 1);
    assert one - {1} == map[] && Inner(map[]) == map[];
  }

  const HALF: u128 := 170_141_183_460_469_231_732

  lemma {:induction false} TwoSteps(a: Op, b: Op)
    ensures Run([a]) == Step(NO_USERS, a) && Inflow([a, b]) == Incoming(a) + Incoming(b)
    ensures Run([a, b]) == if Step(NO_USERS, a).Some? then Step(Step(NO_USERS, a).value, b) else None
  {
    OneMore([], a);
    OneMore([a], b);
    assert [] + [a] == [a] && [a] + [b] == [a, b];
  }

  /** Two deposits of half the range each, and one unit more. */
  function TwoHalves(): seq<Op> {
    [Deposit(0, HALF), Deposit(1, HALF)]
  }

  lemma {:induction false} TwoHalvesHeld()
    ensures Inflow(TwoHalves()) == 2 * HALF
    ensures Run(TwoHalves()) == Some(Fixed(map[0 := HALF * DIV, 1 := HALF * DIV], None))
  {
    TwoSteps(Deposit(0, HALF), Deposit(1, HALF));
  }

  /** One unit beyond the range a run can overflow: its two balances cannot be added up. */
  lemma {:induction false} LedgerOverflows()
    ensures InRange(Inflow(TwoHalves()) - 1) && Run(TwoHalves()).Some? && Run(TwoHalves() + [Drain]).None?
  {
    var l := Fixed(map[0 := HALF * DIV, 1 := HALF * DIV], None);
    TwoHalvesHeld();
    OneMore(TwoHalves(), Drain);
    TwoBalances(HALF * DIV, HALF * DIV);
    assert l.users != map[] by { assert 0 in l.users; }
  }

  /** The share pool takes the same two deposits, and the drain. */
  lemma {:induction false} PoolHandlesIt()
    ensures var w := PoolRuns.Run(PoolRuns.START, [PoolRuns.DepositOp(HALF), PoolRuns.DepositOp(HALF)]);
            w.receipts.Keys == {0, 1} && SharePool.Drain(w.pool).1 == Ok(2 * HALF)
  {
    var w := PoolRuns.Run(PoolRuns.START, [PoolRuns.DepositOp(HALF), PoolRuns.DepositOp(HALF)]);
    PoolRuns.TwoSteps(PoolRuns.DepositOp(HALF), PoolRuns.DepositOp(HALF));
    assert PoolRuns.Run(PoolRuns.START, [PoolRuns.DepositOp(HALF)]).pool == SharePool.Live(HALF, HALF, DIV, 0, 0);
    assert w.pool == SharePool.Live(2 * HALF, 2 * HALF, DIV, 0, 0);
  }

  lemma {:induction false} OneBalance(a: u128)
    ensures TotalOf(map[0 := a]) == Some(a) && TotalOf(Wiped(map[0 := a])) == Some(0)
  {
    InnerRemove(map[0 := a], 0);
    InnerRemove(map[0 := 0], 0);
    assert map[0 := a] - {0} == map[] && map[0 := 0] - {0} == map[] && Inner(map[]) == map[];
    assert Wiped(map[0 := a]) == map[0 := 0];
  }

  /** Conversely a run can stay clear of an overflow far beyond the range, because amounts are clamped. */
  lemma {:induction false} ClampedRunGoesOn()
    ensures var ops := [Deposit(0, MAX), Drain, Mint(MAX)];
            Inflow(ops) == 2 * MAX && Run(ops) == Some(Fixed(map[0 := MAX], Some(map[0 := MAX])))
  {
    var two: seq<Op> := [Deposit(0, MAX), Drain];
    var held := map[0 := MAX];
    TwoSteps(Deposit(0, MAX), Drain);
    OneMore(two, Mint(MAX));
    assert two + [Mint(MAX)] == [Deposit(0, MAX), Drain, Mint(MAX)];
    OneBalance(MAX);
    assert 0 in held && 0 in Wiped(held);
    assert Run(two) == Some(Fixed(Wiped(held), Some(held)));
    WholeRevival();
  }

  lemma {:induction false} WholeRevival()
    ensures Raised(Wiped(map[0 := MAX]), map[0 := MAX], MAX, MAX) == Some(map[0 := MAX])
  {
    var held: map<nat, u128> := map[0 := MAX];
    WholePart();
    assert Wiped(held) == map[0 := 0];
    forall user | user in Wiped(held)
      ensures Raise(Wiped(held)[user], WeightOf(held, user), MAX, MAX) == Some(MAX)
    {
      assert user == 0;
    }
    var raised := Raised(Wiped(held), held, MAX, MAX).value;
    assert raised == held;
  }

  /** The part of the only holder is everything. */
  lemma {:induction false} WholePart()
    ensures Part(MAX, MAX, MAX) == Some(MAX)
  {
    FloorCancel(DIV, MAX);
    FloorCancel(MAX, DIV);
    assert DIV * MAX == MAX * DIV;
  }
}
