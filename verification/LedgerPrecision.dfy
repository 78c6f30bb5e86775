/** How close the ledger's fixed-point steps stay to exact ones, and when its arithmetic can overflow. */
module LedgerPrecision {
  import opened Wrappers
  import opened FixedPoint
  import opened RealMaps
  import opened EagerLedger
  import opened FixedLedger

  /** The number of assets that `n` inner units are. */
  function Units(n: nat): real {
    n as real / DIV as real
  }

  function InUnits(m: map<nat, u128>): map<nat, real> {
    map user | user in m :: Units(m[user])
  }

  function Exact(l: Fixed): Ledger {
    Ledger(InUnits(l.users), if l.beforeDrain.Some? then Some(InUnits(l.beforeDrain.value)) else None)
  }

  // ---------------------------------------------------------------------------
  // One part
  // ---------------------------------------------------------------------------

  lemma {:induction false} PartAtMost(weight: nat, total: nat, v: nat, ratio: nat, part: nat)
    requires ratio * total <= weight * DIV && part * DIV <= ratio * v
    ensures part * total <= weight * v
  {
    MulMono(part * DIV, ratio * v, total);
    MulMono(ratio * total, weight * DIV, v);
    MulSwap(ratio, v, total);
    MulSwap(part, DIV, total);
    MulSwap(weight, DIV, v);
    CancelLess(part * total, weight * v + 1, DIV);
  }

  lemma {:induction false} PartAtLeast(weight: nat, total: nat, v: nat, ratio: nat, part: nat)
    requires total > 0 && weight * DIV <= (ratio + 1) * total && ratio * v < part * DIV + DIV
    ensures weight * v * DIV < part * total * DIV + total * (v + DIV)
  {
    MulMono(weight * DIV, (ratio + 1) * total, v);
    MulLess(ratio * v, part * DIV + DIV, total);
    MulSwap(weight, DIV, v);
    assert (ratio + 1) * total * v == ratio * v * total + total * v;
    assert (part * DIV + DIV) * total == part * total * DIV + total * DIV;
    assert total * (v + DIV) == total * v + total * DIV;
  }

  /** A part never overflows, and its two floorings lose less than `v / DIV + 1` inner units. */
  lemma {:induction false} PartBounds(weight: u128, total: u128, v: u128)
    requires 0 < total && weight <= total
    ensures Part(weight, total, v).Some?
    ensures var part := Part(weight, total, v).value;
            part <= v && part * total <= weight * v && weight * v * DIV < part * total * DIV + total * (v + DIV)
  {
    var ratio := weight * DIV / total;
    Floor(weight * DIV, total);
    FloorAtMost(weight * DIV, total, DIV);
    var part := ratio * v / DIV;
    Floor(ratio * v, DIV);
    MulMono(ratio, DIV, v);
    FloorAtMost(ratio * v, DIV, v);
    PartAtMost(weight, total, v, ratio, part);
    PartAtLeast(weight, total, v, ratio, part);
  }

  lemma {:induction false} CancelReal(a: real, b: real, c: real)
    requires c > 0.0
    ensures a * c <= b * c ==> a <= b
    ensures a * c < b * c ==> a < b
  {
    if a > b {
      assert (a - b) * c > 0.0;
    }
  }

  lemma {:induction false} ProductAsReal(a: nat, b: nat)
    ensures (a * b) as real == a as real * b as real
  {
  }

  /** Both sides in inner units, with the scale cancelled. */
  lemma {:induction false} PartInUnits(weight: u128, total: u128, value: nat)
    requires 0 < total && weight <= total && InRange(value)
    ensures var part := Part(weight, total, SaturatingFromInteger(value));
            && part.Some?
            && part.value * total <= weight * value * DIV < (part.value + value + 1) * total
  {
    var v := SaturatingFromInteger(value);
    PartBounds(weight, total, v);
    var part := Part(weight, total, v).value;
    assert weight * v == weight * value * DIV;
    assert total * (v + DIV) == total * (value + 1) * DIV;
    assert part * total * DIV + total * (value + 1) * DIV == (part + value + 1) * total * DIV;
    CancelLess(weight * value * DIV, (part + value + 1) * total, DIV);
  }

  lemma {:induction false} RatioOfUnits(weight: u128, total: u128)
    requires 0 < total
    ensures Units(total) > 0.0
    ensures Units(weight) / Units(total) == weight as real / total as real
  {
    var w, t, d := weight as real, total as real, DIV as real;
    assert w / d / (t / d) * (t / d) == w / d;
    assert w / t * t == w;
    CancelEqual(w / d / (t / d), w / t, t / d);
  }

  lemma {:induction false} CancelEqual(a: real, b: real, c: real)
    requires c > 0.0 && a * c == b * c
    ensures a == b
  {
    CancelReal(a, b, c);
    CancelReal(b, a, c);
  }

  /** A quotient between two whole numbers of inner units. */
  lemma {:induction false} QuotientBetween(low: nat, high: nat, weight: nat, total: nat, value: nat)
    requires total > 0 && low * total <= weight * value * DIV < high * total
    ensures Units(low) <= weight as real / total as real * value as real < Units(high)
  {
    var q, t, n, d := weight as real / total as real, total as real, value as real, DIV as real;
    assert q * t == weight as real;
    assert q * n * d * t == (weight * value * DIV) as real by {
      ProductAsReal(weight, value);
      assert q * n * d * t == q * t * n * d;
    }
    ProductAsReal(low, total);
    ProductAsReal(high, total);
    CancelReal(low as real, q * n * d, t);
    CancelReal(q * n * d, high as real, t);
  }

  /** A fixed-point part is short of the exact one by less than `value + 1` inner units. */
  lemma {:induction false} PartNearExact(weight: u128, total: u128, value: nat)
    requires 0 < total && weight <= total && InRange(value)
    ensures Units(total) > 0.0
    ensures var part := Part(weight, total, SaturatingFromInteger(value));
            && part.Some?
            && Units(part.value) <= Units(weight) / Units(total) * value as real < Units(part.value + value + 1)
  {
    PartInUnits(weight, total, value);
    var part := Part(weight, total, SaturatingFromInteger(value)).value;
    RatioOfUnits(weight, total);
    QuotientBetween(part, part + value + 1, weight, total, value);
  }

  // ---------------------------------------------------------------------------
  // Totals in units
  // ---------------------------------------------------------------------------

  lemma {:induction false} FractionOfUnits(n: nat)
    ensures Units(n).Floor == n / DIV
  {
    Floor(n, DIV);
  }

  lemma {:induction false} ScaledTotal(m: map<nat, u128>)
    ensures Total(InUnits(m)) == Total(Inner(m)) / DIV as real
  {
    var scale := 1.0 / DIV as real;
    TimesIsAdditive(scale);
    TotalAdditive(InUnits(m), Inner(m), Times(scale));
  }

  lemma {:induction false} TotalInUnits(m: map<nat, u128>)
    requires TotalOf(m).Some?
    ensures Total(InUnits(m)) == Units(TotalOf(m).value)
    ensures Total(InUnits(m)) == 0.0 <==> TotalOf(m).value == 0
    ensures Total(InUnits(m)).Floor == TotalOf(m).value / DIV
  {
    ScaledTotal(m);
    InnerTotal(m);
    FractionOfUnits(TotalOf(m).value);
  }

  lemma {:induction false} BalanceWithin(m: map<nat, u128>, user: nat)
    requires TotalOf(m).Some? && user in m
    ensures m[user] <= TotalOf(m).value
  {
    InnerTotal(m);
    BalanceAtMostTotal(m, user);
  }

  // ---------------------------------------------------------------------------
  // One step
  // ---------------------------------------------------------------------------

  /** A deposit in range is exact. */
  lemma {:induction false} DepositIsExact(l: Fixed, user: nat, amount: u128)
    requires InRange(amount)
    ensures var (f, r) := FixedDeposit(l, user, amount); (Exact(f), r) == Deposit(Exact(l), user, amount)
  {
    var f := FixedDeposit(l, user, amount).0;
    assert Units(amount * DIV) == amount as real;
    if user !in l.users && amount != 0 {
      assert InUnits(f.users) == InUnits(l.users)[user := amount as real];
    }
  }

  /** So is a withdrawal, but for the fraction of the payment. */
  lemma {:induction false} WithdrawIsFloored(l: Fixed, user: nat)
    ensures var (f, r) := FixedWithdraw(l, user);
            var (e, s) := Withdraw(Exact(l), user);
            && Exact(f) == e
            && (r.Ok? <==> s.Ok?)
            && (r.Ok? ==> r.value == s.value.Floor)
            && (r.Err? ==> r.error == s.error)
  {
    var f := FixedWithdraw(l, user).0;
    if l.beforeDrain.Some? {
      assert InUnits(l.beforeDrain.value - {user}) == InUnits(l.beforeDrain.value) - {user};
    }
    assert InUnits(l.users - {user}) == InUnits(l.users) - {user};
    if user in l.users {
      FractionOfUnits(l.users[user]);
    }
  }

  /** So is a drain whose total can be added up. */
  lemma {:induction false} DrainIsExact(l: Fixed)
    requires FixedDrain(l).Some?
    ensures var (f, r) := FixedDrain(l).value; (Exact(f), r) == Drain(Exact(l))
  {
    assert InUnits(l.users).Keys == l.users.Keys;
    if l.users != map[] {
      TotalInUnits(l.users);
      assert InUnits(Wiped(l.users)) == Zeroes(InUnits(l.users));
    }
  }

  /** Every balance is short of the exact one by less than `n` inner units. */
  ghost predicate Below(m: map<nat, u128>, e: map<nat, real>, n: nat) {
    m.Keys == e.Keys && forall user :: user in m ==> Units(m[user]) <= e[user] < Units(m[user] + n)
  }

  /** Every balance exceeds the exact one by less than `n` inner units. */
  ghost predicate Above(m: map<nat, u128>, e: map<nat, real>, n: nat) {
    m.Keys == e.Keys && forall user :: user in m ==> e[user] <= Units(m[user]) < e[user] + Units(n)
  }

  lemma {:induction false} RaiseNearExact(balance: u128, weight: u128, total: u128, value: nat)
    requires 0 < total && weight <= total && InRange(value)
    requires Raise(balance, weight, total, SaturatingFromInteger(value)).Some?
    ensures Units(total) > 0.0
    ensures var raised := Raise(balance, weight, total, SaturatingFromInteger(value)).value;
            var exact := Moved(Units(balance), Units(weight), Units(total), value as real);
            Units(raised) <= exact < Units(raised + value + 1)
  {
    PartNearExact(weight, total, value);
    var part := Part(weight, total, SaturatingFromInteger(value)).value;
    assert Units(balance + part) == Units(balance) + Units(part);
    assert Units(balance + part + value + 1) == Units(balance) + Units(part + value + 1);
  }

  lemma {:induction false} RaisedAt(users: map<nat, u128>, weights: map<nat, u128>, value: nat, user: nat)
    requires TotalOf(weights).Some? && TotalOf(weights).value > 0 && InRange(value) && user in users
    requires Raised(users, weights, TotalOf(weights).value, SaturatingFromInteger(value)).Some?
    ensures Units(TotalOf(weights).value) > 0.0
    ensures var raised := Raised(users, weights, TotalOf(weights).value, SaturatingFromInteger(value)).value;
            var shared := Shared(InUnits(users), InUnits(weights), Units(TotalOf(weights).value), value as real);
            Units(raised[user]) <= shared[user] < Units(raised[user] + value + 1)
  {
    if user in weights {
      BalanceWithin(weights, user);
    }
    RaiseNearExact(users[user], WeightOf(weights, user), TotalOf(weights).value, value);
    assert (if user in InUnits(weights) then InUnits(weights)[user] else 0.0) == Units(WeightOf(weights, user));
  }

  lemma {:induction false} RaisedNearExact(users: map<nat, u128>, weights: map<nat, u128>, value: nat)
    requires TotalOf(weights).Some? && TotalOf(weights).value > 0 && InRange(value)
    requires Raised(users, weights, TotalOf(weights).value, SaturatingFromInteger(value)).Some?
    ensures Units(TotalOf(weights).value) > 0.0
    ensures Below(Raised(users, weights, TotalOf(weights).value, SaturatingFromInteger(value)).value,
                  Shared(InUnits(users), InUnits(weights), Units(TotalOf(weights).value), value as real), value + 1)
  {
    var raised := Raised(users, weights, TotalOf(weights).value, SaturatingFromInteger(value)).value;
    forall user | user in raised
      ensures Units(TotalOf(weights).value) > 0.0
      ensures var shared := Shared(InUnits(users), InUnits(weights), Units(TotalOf(weights).value), value as real);
              Units(raised[user]) <= shared[user] < Units(raised[user] + value + 1)
    {
      RaisedAt(users, weights, value, user);
    }
  }

  /**
   A mint in range gives the same result as on exact numbers, and every user less than
   `value + 1` inner units less.
   */
  lemma {:induction false} MintNearExact(l: Fixed, value: u128)
    requires InRange(value) && FixedMint(l, value).Some?
    ensures var (f, r) := FixedMint(l, value).value;
            var (e, s) := Mint(Exact(l), value);
            && r == s
            && Exact(f).beforeDrain == e.beforeDrain
            && Below(f.users, e.users, value + 1)
  {
    assert InUnits(l.users).Keys == l.users.Keys;
    assert Below(l.users, InUnits(l.users), value + 1);
    if l.users != map[] && value != 0 {
      TotalInUnits(l.users);
      if TotalOf(l.users).value != 0 {
        RaisedNearExact(l.users, l.users, value);
      } else if l.beforeDrain.Some? {
        TotalInUnits(l.beforeDrain.value);
        if TotalOf(l.beforeDrain.value).value != 0 {
          RaisedNearExact(l.users, l.beforeDrain.value, value);
        }
      }
    }
  }

  lemma {:induction false} PartCovered(part: nat, balance: nat, total: nat, v: nat)
    requires part * total <= balance * v && v <= total && total > 0
    ensures part <= balance
  {
    MulMono(v, total, balance);
    CancelLess(part, balance + 1, total);
  }

  /** A part of less than the total is covered by the balance it is taken from. */
  lemma {:induction false} LossCovered(balance: u128, total: u128, value: nat)
    requires 0 < total && balance <= total && value < total / DIV
    ensures var v := SaturatingFromInteger(value);
            Part(balance, total, v).Some? && Part(balance, total, v).value <= balance
  {
    Floor(total, DIV);
    MulMono(value, total / DIV, DIV);
    var v := SaturatingFromInteger(value);
    PartBounds(balance, total, v);
    PartCovered(Part(balance, total, v).value, balance, total, v);
  }

  /** A loss is written as a negative gain. */
  lemma {:induction false} SubtractNear(balance: nat, part: nat, n: nat, total: nat, value: nat)
    requires part <= balance && Units(total) > 0.0
    requires Units(part) <= Units(balance) / Units(total) * value as real < Units(part + n)
    ensures var exact := Moved(Units(balance), Units(balance), Units(total), -(value as real));
            exact <= Units(balance - part) < exact + Units(n)
  {
    var ratio := Units(balance) / Units(total);
    assert ratio * -(value as real) == -(ratio * value as real);
    assert Units(balance - part) == Units(balance) - Units(part);
    assert Units(part + n) == Units(part) + Units(n);
  }

  lemma {:induction false} LowerNearExact(balance: u128, total: u128, value: nat)
    requires 0 < total && balance <= total && value < total / DIV
    ensures Lower(balance, total, SaturatingFromInteger(value)).Some?
    ensures Units(total) > 0.0
    ensures var lowered := Lower(balance, total, SaturatingFromInteger(value)).value;
            var exact := Moved(Units(balance), Units(balance), Units(total), -(value as real));
            exact <= Units(lowered) < exact + Units(value + 1)
  {
    assert InRange(value) by {
      Floor(total, DIV);
      MulMono(value, total / DIV, DIV);
    }
    LossCovered(balance, total, value);
    PartNearExact(balance, total, value);
    var part := Part(balance, total, SaturatingFromInteger(value)).value;
    SubtractNear(balance, part, value + 1, total, value);
  }

  /**
   A reap never overflows where the total fits, gives the same result as on exact numbers, drains
   where that one drains, and leaves every user less than `value + 1` inner units more.
   */
  lemma {:induction false} ReapNearExact(l: Fixed, value: u128)
    requires TotalOf(l.users).Some?
    ensures FixedReap(l, value).Some?
    ensures var (f, r) := FixedReap(l, value).value;
            var (e, s) := Reap(Exact(l), value);
            && r == s
            && Exact(f).beforeDrain == e.beforeDrain
            && Above(f.users, e.users, value + 1)
  {
    assert InUnits(l.users).Keys == l.users.Keys;
    assert Above(l.users, InUnits(l.users), value + 1);
    TotalInUnits(l.users);
    var total := TotalOf(l.users).value;
    if l.users != map[] && value != 0 {
      if value >= total / DIV {
        DrainIsExact(l);
      } else {
        LoweredNearExact(l.users, value);
      }
    }
  }

  lemma {:induction false} LoweredAt(users: map<nat, u128>, value: nat, user: nat)
    requires TotalOf(users).Some? && value < TotalOf(users).value / DIV && user in users
    ensures Lower(users[user], TotalOf(users).value, SaturatingFromInteger(value)).Some?
    ensures Units(TotalOf(users).value) > 0.0
    ensures var lowered := Lower(users[user], TotalOf(users).value, SaturatingFromInteger(value)).value;
            var shared := Shared(InUnits(users), InUnits(users), Units(TotalOf(users).value), -(value as real));
            shared[user] <= Units(lowered) < shared[user] + Units(value + 1)
  {
    BalanceWithin(users, user);
    Floor(TotalOf(users).value, DIV);
    LowerNearExact(users[user], TotalOf(users).value, value);
  }

  lemma {:induction false} LoweredNearExact(users: map<nat, u128>, value: nat)
    requires TotalOf(users).Some? && value < TotalOf(users).value / DIV
    ensures Lowered(users, TotalOf(users).value, SaturatingFromInteger(value)).Some?
    ensures Units(TotalOf(users).value) > 0.0
    ensures Above(Lowered(users, TotalOf(users).value, SaturatingFromInteger(value)).value,
                  Shared(InUnits(users), InUnits(users), Units(TotalOf(users).value), -(value as real)), value + 1)
  {
    var total, v := TotalOf(users).value, SaturatingFromInteger(value);
    TotalInUnits(users);
    Floor(total, DIV);
    forall user | user in users
      ensures Lower(users[user], total, v).Some? && Units(total) > 0.0
      ensures var lowered := Lower(users[user], total, v).value;
              var shared := Shared(InUnits(users), InUnits(users), Units(total), -(value as real));
              shared[user] <= Units(lowered) < shared[user] + Units(value + 1)
    {
      LoweredAt(users, value, user);
    }
  }
}
