/**
 The eager reference: a ledger that rewrites every user on each mint and reap, over exact
 numbers. A drain keeps the balances it wipes, so that a later mint can hand out by them.
 */
module EagerLedger {
  import opened Wrappers
  import opened RealMaps

  datatype ManualError =
    | DuplicateDeposit
    | MintWithoutDeposits
    | ReapWithoutDeposits
    | DrainWithoutDeposits
    | ZeroDeposit
    | WithdrawAfterDrainedSnapshotNotFound
    | WithdrawWithoutDeposit
    | CollapsedState

  datatype Ledger = Ledger(users: map<nat, real>, beforeDrain: Option<map<nat, real>>)

  const EMPTY: Ledger := Ledger(map[], None)

  function Deposit(l: Ledger, user: nat, amount: nat): (Ledger, Result<(), ManualError>) {
    if user in l.users then (l, Err(DuplicateDeposit))
    else if amount == 0 then (l, Err(ZeroDeposit))
    else (Ledger(l.users[user := amount as real], None), Ok(()))
  }

  function Withdraw(l: Ledger, user: nat): (Ledger, Result<real, ManualError>) {
    if l.beforeDrain.Some? && user !in l.beforeDrain.value then (l, Err(WithdrawAfterDrainedSnapshotNotFound))
    else
      var kept := l.(beforeDrain := if l.beforeDrain.Some? then Some(l.beforeDrain.value - {user}) else None);
      if user !in l.users then (kept, Err(WithdrawWithoutDeposit))
      else (kept.(users := l.users - {user}), Ok(l.users[user]))
  }

  function Moved(balance: real, weight: real, total: real, value: real): real
    requires total != 0.0
  {
    balance + weight / total * value
  }

  /** Every balance grows by its part of `value`, the parts being proportional to `weights`. */
  function Shared(users: map<nat, real>, weights: map<nat, real>, total: real, value: real): map<nat, real>
    requires total != 0.0
  {
    map user | user in users ::
      Moved(users[user], if user in weights then weights[user] else 0.0, total, value)
  }

  ghost function Mint(l: Ledger, value: nat): (Ledger, Result<(), ManualError>) {
    if l.users == map[] then (l, Err(MintWithoutDeposits))
    else if value == 0 then (l, Ok(()))
    else if Total(l.users) == 0.0 then
      if l.beforeDrain.None? then (l, Err(CollapsedState))
      else if Total(l.beforeDrain.value) == 0.0 then (l, Ok(()))
      else (l.(users := Shared(l.users, l.beforeDrain.value, Total(l.beforeDrain.value), value as real)), Ok(()))
    else (Ledger(Shared(l.users, l.users, Total(l.users), value as real), None), Ok(()))
  }

  function Zeroes(users: map<nat, real>): map<nat, real> {
    map user | user in users :: 0.0
  }

  ghost function Drain(l: Ledger): (Ledger, Result<(), ManualError>) {
    if l.users == map[] then (l, Err(DrainWithoutDeposits))
    else if Total(l.users) == 0.0 then (l, Ok(()))
    else (Ledger(Zeroes(l.users), Some(l.users)), Ok(()))
  }

  /** A reap of the floored total or more is a drain. */
  ghost function Reap(l: Ledger, value: nat): (Ledger, Result<(), ManualError>) {
    if l.users == map[] then (l, Err(ReapWithoutDeposits))
    else if value == 0 then (l, Ok(()))
    else if value >= Total(l.users).Floor then Drain(l)
    else (l.(users := Shared(l.users, l.users, Total(l.users), -(value as real))), Ok(()))
  }
}
