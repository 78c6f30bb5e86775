/** The eager ledger as the object its operations update in place, user by user. */
module ManualLedger {
  import opened Wrappers
  import opened FixedPoint
  import opened RealMaps
  import opened EagerLedger
  import opened FixedLedger

  class ManualBalance {
    var users: map<nat, u128>
    var beforeDrain: Option<map<nat, u128>>

    function View(): Fixed
      reads this
    {
      Fixed(users, beforeDrain)
    }

    constructor ()
      ensures View() == NO_USERS
    {
      users := map[];
      beforeDrain := None;
    }

    method Deposit(user: nat, amount: u128) returns (r: Result<(), ManualError>)
      modifies this
      ensures (View(), r) == FixedDeposit(old(View()), user, amount)
    {
      if user in users {
        return Err(DuplicateDeposit);
      }
      if amount == 0 {
        return Err(ZeroDeposit);
      }
      users := users[user := SaturatingFromInteger(amount)];
      beforeDrain := None;
      r := Ok(());
    }

    method Withdraw(user: nat) returns (r: Result<u128, ManualError>)
      modifies this
      ensures (View(), r) == FixedWithdraw(old(View()), user)
    {
      if beforeDrain.Some? {
        if user !in beforeDrain.value {
          return Err(WithdrawAfterDrainedSnapshotNotFound);
        }
        beforeDrain := Some(beforeDrain.value - {user});
      }
      if user !in users {
        return Err(WithdrawWithoutDeposit);
      }
      var balance := users[user];
      users := users - {user};
      r := Ok(balance / DIV);
    }

    /** One pass over the users, whatever their order, until an addition overflows. */
    method AddParts(weights: map<nat, u128>, total: u128, v: u128) returns (fits: bool)
      modifies this`users
      ensures fits == Raised(old(users), weights, total, v).Some?
      ensures fits ==> users == Raised(old(users), weights, total, v).value
    {
      var todo := users.Keys;
      while todo != {}
        invariant todo <= users.Keys == old(users).Keys
        invariant forall user :: user in todo ==> users[user] == old(users)[user]
        invariant forall user :: user in users && user !in todo ==>
                    Raise(old(users)[user], WeightOf(weights, user), total, v) == Some(users[user])
        decreases todo
      {
        var user :| user in todo;
        var raised := Raise(users[user], WeightOf(weights, user), total, v);
        if raised.None? {
          return false;
        }
        users := users[user := raised.value];
        todo := todo - {user};
      }
      fits := true;
    }

    method SubtractParts(total: u128, v: u128) returns (fits: bool)
      modifies this`users
      ensures fits == Lowered(old(users), total, v).Some?
      ensures fits ==> users == Lowered(old(users), total, v).value
    {
      var todo := users.Keys;
      while todo != {}
        invariant todo <= users.Keys == old(users).Keys
        invariant forall user :: user in todo ==> users[user] == old(users)[user]
        invariant forall user :: user in users && user !in todo ==>
                    Lower(old(users)[user], total, v) == Some(users[user])
        decreases todo
      {
        var user :| user in todo;
        var lowered := Lower(users[user], total, v);
        if lowered.None? {
          return false;
        }
        users := users[user := lowered.value];
        todo := todo - {user};
      }
      fits := true;
    }

    /** Nothing is said of the balances when the arithmetic overflows: the program ends there. */
    method Mint(value: u128) returns (r: Option<Result<(), ManualError>>)
      modifies this
      ensures match FixedMint(old(View()), value)
              case None => r == None
              case Some((l, result)) => View() == l && r == Some(result)
    {
      if users == map[] {
        return Some(Err(MintWithoutDeposits));
      }
      if value == 0 {
        return Some(Ok(()));
      }
      var total := Sum(users);
      if total.None? {
        return None;
      }
      var v := SaturatingFromInteger(value);
      var fits;
      if total.value == 0 {
        if beforeDrain.None? {
          return Some(Err(CollapsedState));
        }
        var weights := Sum(beforeDrain.value);
        if weights.None? {
          return None;
        }
        if weights.value == 0 {
          return Some(Ok(()));
        }
        fits := AddParts(beforeDrain.value, weights.value, v);
        return if fits then Some(Ok(())) else None;
      }
      fits := AddParts(users, total.value, v);
      beforeDrain := None;
      r := if fits then Some(Ok(())) else None;
    }

    method Reap(value: u128) returns (r: Option<Result<(), ManualError>>)
      modifies this
      ensures match FixedReap(old(View()), value)
              case None => r == None
              case Some((l, result)) => View() == l && r == Some(result)
    {
      if users == map[] {
        return Some(Err(ReapWithoutDeposits));
      }
      if value == 0 {
        return Some(Ok(()));
      }
      var total := Sum(users);
      if total.None? {
        return None;
      }
      if value >= total.value / DIV {
        r := Drain();
        return;
      }
      var fits := SubtractParts(total.value, SaturatingFromInteger(value));
      r := if fits then Some(Ok(())) else None;
    }

    method Drain() returns (r: Option<Result<(), ManualError>>)
      modifies this
      ensures match FixedDrain(old(View()))
              case None => r == None
              case Some((l, result)) => View() == l && r == Some(result)
    {
      if users == map[] {
        return Some(Err(DrainWithoutDeposits));
      }
      var total := Sum(users);
      if total.None? {
        return None;
      }
      if total.value == 0 {
        return Some(Ok(()));
      }
      beforeDrain := Some(users);
      var todo := users.Keys;
      while todo != {}
        invariant todo <= users.Keys == old(users.Keys)
        invariant beforeDrain == Some(old(users))
        invariant forall user :: user in users && user !in todo ==> users[user] == 0
        decreases todo
      {
        var user :| user in todo;
        users := users[user := 0];
        todo := todo - {user};
      }
      assert users == Wiped(old(users));
      r := Some(Ok(()));
    }
  }

  /** The total of all balances, added up one by one, until an addition overflows. */
  method Sum(m: map<nat, u128>) returns (total: Option<u128>)
    ensures total == TotalOf(m)
  {
    var sum: u128 := 0;
    var rest := m;
    assert Inner(map[]) == map[];
    while rest != map[]
      invariant sum as real + Total(Inner(rest)) == Total(Inner(m))
      decreases |rest|
    {
      var user :| user in rest;
      InnerRemove(rest, user);
      InnerTotal(rest - {user});
      if sum + rest[user] > MAX {
        return None;
      }
      sum := sum + rest[user];
      rest := rest - {user};
    }
    total := Some(sum);
  }
}
