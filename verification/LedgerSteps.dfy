/**
 What each step of the eager ledger does to each balance, to the unit, which requests it refuses, and
 what its snapshot is the snapshot of.
 */
module LedgerSteps {
  import opened Wrappers
  import opened FixedPoint
  import opened EagerLedger
  import opened FixedLedger
  import opened LedgerRuns
  import opened Operations

  // ---------------------------------------------------------------------------
  // Parts
  // ---------------------------------------------------------------------------

  /** A part is floored twice: the ratio of the weight in the total, and the ratio times the clamped value. */
  predicate PartOf(part: nat, weight: u128, total: u128, value: u128, ratio: nat) {
    FloorOf(ratio, weight * DIV, total) && FloorOf(part, ratio * Saturate(value * DIV), DIV)
  }

  lemma {:induction false} PartIs(part: nat, weight: u128, total: u128, value: u128, ratio: nat)
    requires total > 0 && PartOf(part, weight, total, value, ratio)
    ensures Part(weight, total, SaturatingFromInteger(value)) ==
            if ratio <= MAX && part <= MAX then Some(part) else None
  {
    FloorIs(ratio, weight * DIV, total);
    FloorIs(part, ratio * Saturate(value * DIV), DIV);
  }

  /** What a mint shares by: the balances, or, where they are all zero, the snapshot. */
  ghost function Weights(l: Fixed): map<nat, u128> {
    if TotalOf(l.users) == Some(0) && l.beforeDrain.Some? then l.beforeDrain.value else l.users
  }

  /** A mint that changes the balances raises each by exactly its part; users without a weight get nothing. */
  lemma {:induction false} MintRaises(l: Fixed, value: u128, l': Fixed, user: nat, part: nat, total: u128, ratio: nat)
    requires FixedMint(l, value) == Some((l', Ok(()))) && value != 0 && user in l.users
    requires TotalOf(Weights(l)) == Some(total) && total > 0
    requires PartOf(part, if user in Weights(l) then Weights(l)[user] else 0, total, value, ratio)
    ensures l'.users.Keys == l.users.Keys && l'.users[user] == l.users[user] + part
  {
    PartIs(part, if user in Weights(l) then Weights(l)[user] else 0, total, value, ratio);
  }

  /** A reap of less than the floored total lowers each balance by exactly its part. */
  lemma {:induction false} ReapLowers(l: Fixed, value: u128, l': Fixed, user: nat, part: nat, total: u128, ratio: nat)
    requires FixedReap(l, value) == Some((l', Ok(()))) && value != 0 && user in l.users
    requires TotalOf(l.users) == Some(total) && (value + 1) * DIV <= total
    requires PartOf(part, l.users[user], total, value, ratio)
    ensures l'.users.Keys == l.users.Keys && l'.users[user] == l.users[user] - part
    ensures l'.beforeDrain == l.beforeDrain
  {
    FloorAtLeast(total, DIV, value + 1);
    PartIs(part, l.users[user], total, value, ratio);
  }

  /** A drain, and a reap of the floored total or more, leaves nobody anything. */
  lemma {:induction false} WipeLeavesNothing(l: Fixed, op: Op, l': Fixed)
    requires Wipes(l, op) && LedgerRuns.Step(l, op) == Some(l')
    ensures l'.users.Keys == l.users.Keys && forall user :: user in l'.users ==> l'.users[user] == 0
    ensures l'.beforeDrain == Some(l.users)
  {
    WipesIff(l, op);
  }

  /** Nothing changes where there is nothing to do, or nobody to do it to. */
  lemma {:induction false} NothingToShare(l: Fixed, value: u128)
    requires l.users != map[]
    ensures FixedMint(l, 0) == FixedReap(l, 0) == Some((l, Ok(())))
    ensures TotalOf(l.users) == Some(0) ==>
              && FixedDrain(l) == FixedReap(l, value) == Some((l, Ok(())))
              && (l.beforeDrain.Some? && TotalOf(l.beforeDrain.value) == Some(0) ==>
                    FixedMint(l, value) == Some((l, Ok(()))))
  {
  }

  // ---------------------------------------------------------------------------
  // Refusals
  // ---------------------------------------------------------------------------

  /** Who is refused a deposit or a withdrawal, and what they get otherwise. */
  lemma {:induction false} HolderRefusedIff(l: Fixed, user: nat, amount: u128)
    ensures FixedDeposit(l, user, amount).1 == Err(DuplicateDeposit) <==> user in l.users
    ensures FixedDeposit(l, user, amount).1 == Err(ZeroDeposit) <==> user !in l.users && amount == 0
    ensures FixedDeposit(l, user, amount).1.Err? ==>
              FixedDeposit(l, user, amount).0 == l
              && FixedDeposit(l, user, amount).1.error in {DuplicateDeposit, ZeroDeposit}
    ensures FixedDeposit(l, user, amount).1.Ok? ==>
              FixedDeposit(l, user, amount).0 == Fixed(l.users[user := Saturate(amount * DIV)], None)
    ensures FixedWithdraw(l, user).1 == Err(WithdrawAfterDrainedSnapshotNotFound) <==>
              l.beforeDrain.Some? && user !in l.beforeDrain.value
    ensures FixedWithdraw(l, user).1 == Err(WithdrawWithoutDeposit) <==>
              user !in l.users && (l.beforeDrain.Some? ==> user in l.beforeDrain.value)
    ensures FixedWithdraw(l, user).1.Err? ==>
              FixedWithdraw(l, user).1.error in {WithdrawAfterDrainedSnapshotNotFound, WithdrawWithoutDeposit}
              && FixedWithdraw(l, user).0.users == l.users
    ensures FixedWithdraw(l, user).1.Ok? ==>
              && user in l.users && FloorOf(FixedWithdraw(l, user).1.value, l.users[user], DIV)
              && FixedWithdraw(l, user).0.users == l.users - {user}
  {
    if user in l.users {
      Floor(l.users[user], DIV);
    }
  }

  /** When a mint, a reap or a drain that does not overflow is refused. */
  lemma {:induction false} AdjustmentRefusedIff(l: Fixed, value: u128)
    ensures FixedMint(l, value).Some? ==>
              && (FixedMint(l, value).value.1 == Err(MintWithoutDeposits) <==> l.users == map[])
              && (FixedMint(l, value).value.1 == Err(CollapsedState) <==>
                    l.users != map[] && value != 0 && TotalOf(l.users) == Some(0) && l.beforeDrain.None?)
              && (FixedMint(l, value).value.1.Err? ==>
                    FixedMint(l, value).value.0 == l
                    && FixedMint(l, value).value.1.error in {MintWithoutDeposits, CollapsedState})
    ensures FixedReap(l, value).Some? ==>
              && (FixedReap(l, value).value.1 == Err(ReapWithoutDeposits) <==> l.users == map[])
              && (FixedReap(l, value).value.1.Err? ==> FixedReap(l, value).value == (l, Err(ReapWithoutDeposits)))
    ensures FixedDrain(l).Some? ==>
              && (FixedDrain(l).value.1 == Err(DrainWithoutDeposits) <==> l.users == map[])
              && (FixedDrain(l).value.1.Err? ==> FixedDrain(l).value == (l, Err(DrainWithoutDeposits)))
  {
  }

  // ---------------------------------------------------------------------------
  // The snapshot
  // ---------------------------------------------------------------------------

  /** Sets all balances to zero: a drain, or a reap that leaves less than one unit, while there is something. */
  ghost predicate Wipes(l: Fixed, op: Op) {
    && TotalOf(l.users).Some? && TotalOf(l.users).value > 0
    && (op.Drain? || (op.Reap? && op.value != 0 && TotalOf(l.users).value < (op.value + 1) * DIV))
  }

  /** Makes the snapshot obsolete: a new user, or a mint while there is something. */
  ghost predicate Forgets(l: Fixed, op: Op) {
    match op
    case Deposit(user, amount) => user !in l.users && amount != 0
    case Mint(value) => value != 0 && TotalOf(l.users).Some? && TotalOf(l.users).value > 0
    case _ => false
  }

  lemma {:induction false} SomeBalance(l: Fixed)
    requires TotalOf(l.users).Some? && TotalOf(l.users).value > 0
    ensures l.users != map[]
  {
    assert l.users == map[] ==> Inner(l.users) == map[];
  }

  lemma {:induction false} WipesIff(l: Fixed, op: Op)
    requires Wipes(l, op)
    ensures LedgerRuns.Step(l, op) == Some(Fixed(Wiped(l.users), Some(l.users)))
  {
    SomeBalance(l);
    if op.Reap? {
      FloorAtMost(TotalOf(l.users).value, DIV, op.value);
    }
  }

  lemma {:induction false} SnapshotOfStep(l: Fixed, op: Op, l': Fixed)
    requires LedgerRuns.Step(l, op) == Some(l')
    ensures l'.beforeDrain ==
            if Wipes(l, op) then Some(l.users)
            else if Forgets(l, op) then None
            else if op.Withdraw? && l.beforeDrain.Some? then Some(l.beforeDrain.value - {op.user})
            else l.beforeDrain
  {
    if Wipes(l, op) {
      WipesIff(l, op);
    } else {
      match op
      case Deposit(_, _) =>
      case Withdraw(user) => GoneAlready(l, user);
      case Mint(_) =>
        if TotalOf(l.users).Some? && TotalOf(l.users).value > 0 {
          SomeBalance(l);
        }
      case Reap(value) => KeepsSnapshot(l, value);
      case Drain =>
    }
  }

  /** A withdrawal refused for want of a snapshot entry has none to remove. */
  lemma {:induction false} GoneAlready(l: Fixed, user: nat)
    ensures l.beforeDrain.Some? && user !in l.beforeDrain.value ==> l.beforeDrain.value - {user} == l.beforeDrain.value
  {
  }

  lemma {:induction false} KeepsSnapshot(l: Fixed, value: u128)
    requires !Wipes(l, Reap(value)) && FixedReap(l, value).Some?
    ensures FixedReap(l, value).value.0.beforeDrain == l.beforeDrain
  {
    if l.users != map[] && value != 0 {
      var total := TotalOf(l.users).value;
      if value >= total / DIV {
        Floor(total, DIV);
        MulMono(total / DIV, value, DIV);
      }
    }
  }

  /** The last step that wiped the balances, unless the snapshot has been forgotten since. */
  ghost function LastWipe(ops: seq<Op>): Option<nat>
    requires Run(ops).Some?
  {
    if ops == [] then None
    else
      var before, op := ops[..|ops| - 1], ops[|ops| - 1];
      if Wipes(Run(before).value, op) then Some(|ops| - 1)
      else if Forgets(Run(before).value, op) then None
      else LastWipe(before)
  }

  /** The snapshot of the balances `before` a wipe: those of some of its users, unchanged. */
  predicate Within(snapshot: map<nat, u128>, before: map<nat, u128>) {
    forall user :: user in snapshot ==> user in before && snapshot[user] == before[user]
  }

  /**
   After every run the ledger has a snapshot exactly when its balances were wiped and neither a new user
   nor a mint into something followed, and then it holds, for each user still there, the balance from
   before that wipe.
   */
  lemma {:induction false} SnapshotIsOfLastWipe(ops: seq<Op>)
    requires Run(ops).Some?
    ensures Run(ops).value.beforeDrain.Some? <==> LastWipe(ops).Some?
    ensures LastWipe(ops).Some? ==>
              && LastWipe(ops).value < |ops| && Run(ops[..LastWipe(ops).value]).Some?
              && Run(ops).value.beforeDrain.value.Keys == Run(ops).value.users.Keys
              && Within(Run(ops).value.beforeDrain.value, Run(ops[..LastWipe(ops).value]).value.users)
  {
    RunKeeps(ops);
    if ops != [] {
      var before, op := ops[..|ops| - 1], ops[|ops| - 1];
      SnapshotIsOfLastWipe(before);
      SnapshotOfStep(Run(before).value, op, Run(ops).value);
      if LastWipe(ops).Some? {
        assert ops[..LastWipe(ops).value] == before[..LastWipe(ops).value];
      }
    }
  }

  // ---------------------------------------------------------------------------
  // A revival that pays nobody
  // ---------------------------------------------------------------------------

  function Three(x: u128): map<nat, u128> {
    map[0 := x, 1 := x, 2 := x]
  }

  lemma {:induction false} ThreeBalances(x: u128)
    requires 3 * x <= MAX
    ensures TotalOf(Three(x)) == Some(3 * x) && Wiped(Three(x)) == Three(0)
  {
    var two := map[0 := x, 1 := x];
    InnerRemove(Three(x), 2);
    assert Three(x) - {2} == two;
    TwoBalances(x, x);
  }

  function ThreeDeposits(): seq<Op> {
    [Deposit(0, 1), Deposit(1, 1), Deposit(2, 1)]
  }

  lemma {:induction false} ThreeDeposited()
    ensures Run(ThreeDeposits()) == Some(Fixed(Three(DIV), None))
  {
    TwoSteps(Deposit(0, 1), Deposit(1, 1));
    OneMore([Deposit(0, 1), Deposit(1, 1)], Deposit(2, 1));
    assert [Deposit(0, 1), Deposit(1, 1)] + [Deposit(2, 1)] == ThreeDeposits();
    assert map[0 := DIV, 1 := DIV][2 := DIV] == Three(DIV);
  }

  const THIRD: u128 := 333_333_333_333_333_333

  lemma {:induction false} ThirdsRaised()
    ensures Raised(Three(0), Three(DIV), 3 * DIV, SaturatingFromInteger(3)) == Some(Three(3 * THIRD))
  {
    PartIs(3 * THIRD, DIV, 3 * DIV, 3, THIRD);
    forall user | user in Three(0)
      ensures Raise(Three(0)[user], WeightOf(Three(DIV), user), 3 * DIV, SaturatingFromInteger(3)) == Some(3 * THIRD)
    {
      assert Three(0)[user] == 0 && WeightOf(Three(DIV), user) == DIV;
    }
    assert Raised(Three(0), Three(DIV), 3 * DIV, SaturatingFromInteger(3)).value == Three(3 * THIRD);
  }

  lemma {:induction false} ThreeWiped()
    ensures FixedDrain(Fixed(Three(DIV), None)) == Some((Fixed(Three(0), Some(Three(DIV))), Ok(())))
  {
    ThreeBalances(DIV);
    assert 0 in Three(DIV);
  }

  lemma {:induction false} ThreeRevived()
    ensures FixedMint(Fixed(Three(0), Some(Three(DIV))), 3) ==
            Some((Fixed(Three(3 * THIRD), Some(Three(DIV))), Ok(())))
  {
    ThreeBalances(DIV);
    ThreeBalances(0);
    assert 0 in Three(0);
    ThirdsRaised();
  }

  lemma {:induction false} ThreeRun()
    ensures Run(ThreeDeposits() + [Drain] + [Mint(3)]) == Some(Fixed(Three(3 * THIRD), Some(Three(DIV))))
  {
    var drained := ThreeDeposits() + [Drain];
    ThreeDeposited();
    ThreeWiped();
    OneMore(ThreeDeposits(), Drain);
    assert Run(drained) == Some(Fixed(Three(0), Some(Three(DIV))));
    OneMore(drained, Mint(3));
    ThreeRevived();
  }

  lemma {:induction false} LessThanOneUnit(user: nat)
    requires user < 3
    ensures FixedWithdraw(Fixed(Three(3 * THIRD), Some(Three(DIV))), user).1 == Ok(0)
  {
    assert Three(3 * THIRD)[user] == 3 * THIRD && user in Three(DIV);
  }

  /** Three users of one unit, drained, and three units minted: each holds less than one, and is paid nothing. */
  lemma {:induction false} RevivalPaysNothing(user: nat)
    requires user < 3
    ensures Run(ThreeDeposits() + [Drain] + [Mint(3)]).Some?
    ensures FixedWithdraw(Run(ThreeDeposits() + [Drain] + [Mint(3)]).value, user).1 == Ok(0)
  {
    ThreeRun();
    LessThanOneUnit(user);
  }
}
