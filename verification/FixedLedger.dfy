/**
 The eager ledger in the fixed-point numbers it computes with. `None` stands for an addition or
 multiplication that overflows, which ends the program.
 */
module FixedLedger {
  import opened Wrappers
  import opened FixedPoint
  import opened RealMaps
  import opened EagerLedger

  datatype Fixed = Fixed(users: map<nat, u128>, beforeDrain: Option<map<nat, u128>>)

  const NO_USERS: Fixed := Fixed(map[], None)

  function Inner(m: map<nat, u128>): map<nat, real> {
    map user | user in m :: m[user] as real
  }

  /** The sum of the balances, if it fits. */
  ghost function TotalOf(m: map<nat, u128>): Option<u128> {
    var total := Total(Inner(m)).Floor;
    if 0 <= total <= MAX then Some(total) else None
  }

  function FixedDeposit(l: Fixed, user: nat, amount: u128): (Fixed, Result<(), ManualError>) {
    if user in l.users then (l, Err(DuplicateDeposit))
    else if amount == 0 then (l, Err(ZeroDeposit))
    else (Fixed(l.users[user := SaturatingFromInteger(amount)], None), Ok(()))
  }

  /** The payment is the balance without its fraction. */
  function FixedWithdraw(l: Fixed, user: nat): (Fixed, Result<u128, ManualError>) {
    if l.beforeDrain.Some? && user !in l.beforeDrain.value then (l, Err(WithdrawAfterDrainedSnapshotNotFound))
    else
      var kept := l.(beforeDrain := if l.beforeDrain.Some? then Some(l.beforeDrain.value - {user}) else None);
      if user !in l.users then (kept, Err(WithdrawWithoutDeposit))
      else (kept.(users := l.users - {user}), Ok(l.users[user] / DIV))
  }

  /** The part of `v` that `weight` has in `total`. */
  function Part(weight: u128, total: u128, v: u128): Option<u128> {
    var ratio :- CheckedDiv(weight, total);
    CheckedMul(ratio, v)
  }

  function WeightOf(weights: map<nat, u128>, user: nat): u128 {
    if user in weights then weights[user] else 0
  }

  function Raise(balance: u128, weight: u128, total: u128, v: u128): Option<u128> {
    var gain :- Part(weight, total, v);
    Fit(balance + gain)
  }

  function Lower(balance: u128, total: u128, v: u128): Option<u128> {
    var loss :- Part(balance, total, v);
    if loss <= balance then Some(balance - loss) else None
  }

  function Raised(users: map<nat, u128>, weights: map<nat, u128>, total: u128, v: u128): Option<map<nat, u128>> {
    if forall user :: user in users ==> Raise(users[user], WeightOf(weights, user), total, v).Some? then
      Some(map user | user in users :: Raise(users[user], WeightOf(weights, user), total, v).value)
    else None
  }

  function Lowered(users: map<nat, u128>, total: u128, v: u128): Option<map<nat, u128>> {
    if forall user :: user in users ==> Lower(users[user], total, v).Some? then
      Some(map user | user in users :: Lower(users[user], total, v).value)
    else None
  }

  ghost function FixedMint(l: Fixed, value: u128): Option<(Fixed, Result<(), ManualError>)> {
    if l.users == map[] then Some((l, Err(MintWithoutDeposits)))
    else if value == 0 then Some((l, Ok(())))
    else
      var total :- TotalOf(l.users);
      var v := SaturatingFromInteger(value);
      if total != 0 then
        var users :- Raised(l.users, l.users, total, v);
        Some((Fixed(users, None), Ok(())))
      else if l.beforeDrain.None? then Some((l, Err(CollapsedState)))
      else
        var weights :- TotalOf(l.beforeDrain.value);
        if weights == 0 then Some((l, Ok(())))
        else
          var users :- Raised(l.users, l.beforeDrain.value, weights, v);
          Some((l.(users := users), Ok(())))
  }

  function Wiped(users: map<nat, u128>): map<nat, u128> {
    map user | user in users :: 0
  }

  ghost function FixedDrain(l: Fixed): Option<(Fixed, Result<(), ManualError>)> {
    if l.users == map[] then Some((l, Err(DrainWithoutDeposits)))
    else
      var total :- TotalOf(l.users);
      if total == 0 then Some((l, Ok(())))
      else Some((Fixed(Wiped(l.users), Some(l.users)), Ok(())))
  }

  ghost function FixedReap(l: Fixed, value: u128): Option<(Fixed, Result<(), ManualError>)> {
    if l.users == map[] then Some((l, Err(ReapWithoutDeposits)))
    else if value == 0 then Some((l, Ok(())))
    else
      var total :- TotalOf(l.users);
      if value >= total / DIV then FixedDrain(l)
      else
        var users :- Lowered(l.users, total, SaturatingFromInteger(value));
        Some((l.(users := users), Ok(())))
  }

  // ---------------------------------------------------------------------------
  // Totals
  // ---------------------------------------------------------------------------

  lemma {:induction false} InnerRemove(m: map<nat, u128>, user: nat)
    requires user in m
    ensures Total(Inner(m)) == m[user] as real + Total(Inner(m - {user}))
  {
    TotalRemove(Inner(m), user);
    assert Inner(m - {user}) == Inner(m) - {user};
  }

  lemma {:induction false} AddWhole(n: nat, x: real)
    requires x == x.Floor as real >= 0.0
    ensures n as real + x == (n as real + x).Floor as real >= 0.0
  {
    assert n as real + x == (n + x.Floor) as real;
  }

  lemma {:induction false} AddInner(m: map<nat, u128>, user: nat)
    requires user in m && Total(Inner(m - {user})) == Total(Inner(m - {user})).Floor as real >= 0.0
    ensures Total(Inner(m)) == Total(Inner(m)).Floor as real >= 0.0
  {
    InnerRemove(m, user);
    AddWhole(m[user], Total(Inner(m - {user})));
  }

  /** The total is a whole number of inner units, and no balance exceeds it. */
  lemma {:induction false} InnerTotal(m: map<nat, u128>)
    ensures Total(Inner(m)) == Total(Inner(m)).Floor as real >= 0.0
    decreases |m|
  {
    if user :| user in m {
      InnerTotal(m - {user});
      AddInner(m, user);
    } else {
      assert Inner(m) == map[];
    }
  }

  lemma {:induction false} BalanceAtMostTotal(m: map<nat, u128>, user: nat)
    requires user in m
    ensures m[user] as real <= Total(Inner(m))
  {
    InnerRemove(m, user);
    InnerTotal(m - {user});
  }
}
