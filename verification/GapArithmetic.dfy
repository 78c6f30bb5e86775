/**
 The arithmetic of one user's value in the pool and in the reference ledger, over real numbers.
 Fractions are passed as numbers that multiply out, so that no step has to divide.
 */
module GapArithmetic {
  import opened Wrappers
  import opened FixedPoint
  import opened FixedLedger
  import opened LedgerPrecision
  import opened RealMaps

  /** The two numbers differ by at most `gap`. */
  predicate Near(x: real, y: real, gap: real) {
    -gap <= x - y <= gap
  }

  lemma {:induction false} QuotientTimes(x: real, y: real)
    requires y != 0.0
    ensures x / y * y == x
  {
  }

  lemma {:induction false} ScaleNear(x: real, y: real, gap: real, factor: real)
    requires factor >= 0.0 && Near(x, y, gap)
    ensures Near(factor * x, factor * y, factor * gap)
  {
    assert factor * (x - y) <= factor * gap;
    assert factor * (x - y) >= factor * -gap;
  }

  function Magnitude(v: real): real {
    if v < 0.0 then -v else v
  }

  lemma {:induction false} MovedNear(q: real, f: real, error: real, v: real)
    requires Near(q, f, error)
    ensures Near(v * q, v * f, Magnitude(v) * error)
  {
    ScaleNear(q, f, error, Magnitude(v));
  }

  /** The fraction `f` of something near `price` times the issued shares is near `price` times the shares. */
  lemma {:induction false} FractionOfTotal(
      f: real, total: real, shares: real, issued: real, price: real, totalGap: real)
    requires f >= 0.0 && f * issued == shares && Near(total, price * issued, totalGap)
    ensures Near(f * total, price * shares, f * totalGap)
  {
    ScaleNear(total, price * issued, totalGap, f);
    assert f * (price * issued) == price * (f * issued);
  }

  lemma {:induction false} CancelNear(x: real, y: real, gap: real, d: real)
    requires d > 0.0 && Near(x * d, y * d, gap * d)
    ensures Near(x, y, gap)
  {
    assert (x - y) * d == x * d - y * d && -gap * d == -(gap * d);
    CancelReal(x - y, gap, d);
    CancelReal(-gap, x - y, d);
  }

  /**
   Weights near `price` times the shares give nearly the fractions of the shares: the fraction `q`
   of a weight in `total`, both off by `gap` and `totalGap`, is within `error` of the fraction `f`.
   */
  lemma {:induction false} FractionNear(
      q: real, f: real, error: real, weight: real, total: real, shares: real, issued: real,
      price: real, gap: real, totalGap: real)
    requires total > 0.0 && f >= 0.0
    requires q * total == weight && f * issued == shares && error * total == gap + f * totalGap
    requires Near(weight, price * shares, gap) && Near(total, price * issued, totalGap)
    ensures Near(q, f, error)
  {
    FractionOfTotal(f, total, shares, issued, price, totalGap);
    assert Near(weight, f * total, gap + f * totalGap);
    CancelNear(q, f, error, total);
  }

  /** The pro-rata part of a pool is the shares at the price, and a part of the dust. */
  lemma {:induction false} ProRataIsPriced(f: real, shares: real, issued: real, bias: real, value: real, dust: real)
    requires f >= 0.0 && f * issued == shares && value == bias * issued + dust && dust >= 0.0
    ensures f * value == bias * shares + f * dust && f * dust >= 0.0
  {
    assert f * (bias * issued) == bias * (f * issued);
    assert f * value == f * (bias * issued) + f * dust;
  }

  /** A floored price is short of the pro-rata part by less than one inner unit a share. */
  lemma {:induction false} PricedNear(f: real, shares: real, issued: real, bias: real, value: real, dust: real)
    requires f >= 0.0 && f * issued == shares && value == bias * issued + dust && 0.0 <= dust <= issued
    ensures bias * shares <= f * value <= bias * shares + shares
  {
    ProRataIsPriced(f, shares, issued, bias, value, dust);
    assert f * dust <= f * issued;
  }

  /** A balance and a value that were `gap` apart, moved by nearly the same. */
  lemma {:induction false} AddNear(
      balance: real, balance': real, priced: real, priced': real, exact: real, moved: real, moved': real,
      gap: real, dust: real, error: real, ledgerLoss: real, poolLoss: real)
    requires Near(balance, priced, gap) && exact == priced + dust && dust >= 0.0
    requires Near(moved, moved', error)
    requires Near(balance', balance + moved, ledgerLoss)
    requires priced' <= exact + moved' <= priced' + poolLoss
    ensures Near(balance', priced', gap + dust + error + ledgerLoss + poolLoss)
  {
  }

  /**
   One repricing. The ledger moves the balance by its fraction `q` of `v`; the pool, holding `value`
   before, sets the price `bias'` that leaves the dust `dust'`.
   */
  lemma {:induction false} RepricedUser(
      balance: real, balance': real, q: real, f: real, error: real, shares: real, issued: real,
      bias: real, bias': real, value: real, v: real, size: real, dust: real, dust': real, gap: real, ledgerLoss: real)
    requires f >= 0.0 && f * issued == shares && Near(q, f, error)
    requires Near(balance, bias * shares, gap) && value == bias * issued + dust && dust >= 0.0
    requires value + v == bias' * issued + dust' && 0.0 <= dust' <= issued
    requires Near(balance', balance + v * q, ledgerLoss) && size == Magnitude(v)
    ensures Near(balance', bias' * shares, gap + f * dust + size * error + ledgerLoss + shares)
  {
    MovedNear(q, f, error, v);
    ProRataIsPriced(f, shares, issued, bias, value, dust);
    PricedNear(f, shares, issued, bias', value + v, dust');
    assert f * (value + v) == f * value + v * f;
    AddNear(balance, balance', bias * shares, bias' * shares, f * value, v * q, v * f, gap, f * dust,
            size * error, ledgerLoss, shares);
  }

  // ---------------------------------------------------------------------------
  // The ledger's floored parts
  // ---------------------------------------------------------------------------

  lemma {:induction false} FractionBetween(low: real, high: real, q: real, weight: real, total: real, v: real)
    requires total > 0.0 && q * total == weight && low * total <= weight * v <= high * total
    ensures low <= v * q <= high
  {
    assert v * q * total == weight * v;
    CancelReal(low, v * q, total);
    CancelReal(v * q, high, total);
  }

  lemma {:induction false} WholeBetween(q: real, low: nat, high: nat, weight: nat, total: nat, v: nat)
    requires total > 0 && q * total as real == weight as real && low * total <= weight * v <= high * total
    ensures low as real <= v as real * q <= high as real
  {
    ProductAsReal(low, total);
    ProductAsReal(high, total);
    ProductAsReal(weight, v);
    FractionBetween(low as real, high as real, q, weight as real, total as real, v as real);
  }

  /** A floored part of `value` is its exact fraction up to `value + 1` inner units. */
  lemma {:induction false} PartNear(q: real, weight: u128, total: u128, value: nat)
    requires 0 < total && weight <= total && InRange(value) && q * total as real == weight as real
    ensures Part(weight, total, SaturatingFromInteger(value)).Some?
    ensures var part := Part(weight, total, SaturatingFromInteger(value)).value as real;
            part <= (value * DIV) as real * q <= part + (value + 1) as real
  {
    PartInUnits(weight, total, value);
    var part := Part(weight, total, SaturatingFromInteger(value)).value;
    MulSwap(weight, value, DIV);
    WholeBetween(q, part, part + value + 1, weight, total, value * DIV);
  }

  lemma {:induction false} RaiseNear(q: real, balance: u128, raised: u128, weight: u128, total: u128, v: nat)
    requires 0 < total && weight <= total && InRange(v) && q * total as real == weight as real
    requires Raise(balance, weight, total, SaturatingFromInteger(v)) == Some(raised)
    ensures Near(raised as real, balance as real + Times((v * DIV) as real)(q), (v + 1) as real)
  {
    PartNear(q, weight, total, v);
  }

  lemma {:induction false} LowerNear(q: real, balance: u128, lowered: u128, total: u128, v: nat)
    requires 0 < total && balance <= total && InRange(v) && q * total as real == balance as real
    requires Lower(balance, total, SaturatingFromInteger(v)) == Some(lowered)
    ensures Near(lowered as real, balance as real + Times(-(v * DIV) as real)(q), (v + 1) as real)
  {
    PartNear(q, balance, total, v);
  }

  // ---------------------------------------------------------------------------
  // One user
  // ---------------------------------------------------------------------------

  /** How far a weight's fraction of the total is from the user's fraction `f` of the pool. */
  function FractionGap(weightGap: real, f: real, totalGap: real, total: real): real
    requires total > 0.0
  {
    (weightGap + f * totalGap) / total
  }

  /**
   After a repricing by `v`: what there was, the user's part of the dust, the error of the fraction
   the ledger shares by, and what rounding a part, and a price a share, loses.
   */
  function ResharedGap(gap: real, f: real, dust: real, v: nat, error: real, shares: real): real {
    gap + f * dust + (v * DIV) as real * error + (v + 1) as real + shares
  }

  /** A user's fractions of the weights and of the pool, and how far they are apart. */
  lemma {:induction false} Fractions(
      weight: real, total: real, shares: real, issued: real, price: real, weightGap: real, totalGap: real)
      returns (q: real, f: real, error: real)
    requires total > 0.0 && issued > 0.0 && shares >= 0.0
    requires Near(weight, price * shares, weightGap) && Near(total, price * issued, totalGap)
    ensures q * total == weight && f >= 0.0 && f * issued == shares
    ensures q == weight / total && f == shares / issued
    ensures error == FractionGap(weightGap, f, totalGap, total)
    ensures Near(q, f, error)
  {
    q, f := weight / total, shares / issued;
    error := FractionGap(weightGap, f, totalGap, total);
    QuotientTimes(weight, total);
    QuotientTimes(shares, issued);
    QuotientTimes(weightGap + f * totalGap, total);
    FractionNear(q, f, error, weight, total, shares, issued, price, weightGap, totalGap);
  }

  /** The pool before and after a repricing by `change`: its value, split into priced shares and dust. */
  predicate PoolSide(
      issued: real, bias: real, bias': real, value: real, change: real, dust: real, dust': real)
  {
    && issued > 0.0 && value == bias * issued + dust && dust >= 0.0
    && value + change == bias' * issued + dust' && 0.0 <= dust' <= issued
  }

  /** What `RepricedUser` leaves, for a change by `v` assets either way. */
  lemma {:induction false} UserMoved(
      balance: real, balance': real, change: real, v: nat, q: real, f: real, error: real, shares: real,
      issued: real, bias: real, bias': real, value: real, dust: real, dust': real, gap: real)
    requires change == (v * DIV) as real || change == -(v * DIV) as real
    requires PoolSide(issued, bias, bias', value, change, dust, dust')
    requires f >= 0.0 && f * issued == shares && Near(q, f, error)
    requires Near(balance, bias * shares, gap) && Near(balance', balance + change * q, (v + 1) as real)
    ensures Near(balance', bias' * shares, ResharedGap(gap, f, dust, v, error, shares))
  {
    RepricedUser(balance, balance', q, f, error, shares, issued, bias, bias', value, change,
                 (v * DIV) as real, dust, dust', gap, (v + 1) as real);
  }

  /** The same from the weights. */
  lemma {:induction false} UserRepricedBy(
      balance: real, balance': real, change: real, v: nat, weight: real, total: real, shares: real,
      issued: real, bias: real, bias': real, value: real, dust: real, dust': real,
      price: real, gap: real, weightGap: real, totalGap: real)
    requires total > 0.0 && shares >= 0.0
    requires change == (v * DIV) as real || change == -(v * DIV) as real
    requires PoolSide(issued, bias, bias', value, change, dust, dust')
    requires Near(weight, price * shares, weightGap) && Near(total, price * issued, totalGap)
    requires Near(balance, bias * shares, gap) && Near(balance', balance + change * (weight / total), (v + 1) as real)
    ensures var f := shares / issued;
            Near(balance', bias' * shares,
                 ResharedGap(gap, f, dust, v, FractionGap(weightGap, f, totalGap, total), shares))
  {
    var q, f, error := Fractions(weight, total, shares, issued, price, weightGap, totalGap);
    UserMoved(balance, balance', change, v, q, f, error, shares, issued, bias, bias', value, dust, dust', gap);
  }

  lemma {:induction false} TimesIs(x: real, y: real)
    ensures Times(x)(y) == x * y
  {
  }

  /** The same with the products as single numbers. */
  lemma {:induction false} UserRepriced(
      balance: real, balance': real, change: real, v: nat, weight: real, total: real, shares: real,
      issued: real, bias: real, bias': real, value: real, dust: real, dust': real,
      price: real, gap: real, weightGap: real, totalGap: real)
    requires total > 0.0 && shares >= 0.0
    requires change == (v * DIV) as real || change == -(v * DIV) as real
    requires PoolSide(issued, bias, bias', value, change, dust, dust')
    requires Near(weight, Times(price)(shares), weightGap) && Near(total, Times(price)(issued), totalGap)
    requires Near(balance, Times(bias)(shares), gap)
    requires Near(balance', balance + Times(change)(weight / total), (v + 1) as real)
    ensures var f := shares / issued;
            Near(balance', Times(bias')(shares),
                 ResharedGap(gap, f, dust, v, FractionGap(weightGap, f, totalGap, total), shares))
  {
    TimesIs(price, shares);
    TimesIs(price, issued);
    TimesIs(bias, shares);
    TimesIs(bias', shares);
    TimesIs(change, weight / total);
    UserRepricedBy(balance, balance', change, v, weight, total, shares, issued, bias, bias', value, dust, dust',
                   price, gap, weightGap, totalGap);
  }
}
