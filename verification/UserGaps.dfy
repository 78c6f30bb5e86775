/**
 The gaps of all users at once: how far each balance of the ledger is from the user's shares at the
 pool's price, and what one repricing of both models makes of it.
 */
module UserGaps {
  import opened Wrappers
  import opened FixedPoint
  import opened RealMaps
  import opened GapArithmetic
  import opened LedgerPrecision
  import FixedLedger
  import PoolDrift
  import PoolRuns
  import SharePool

  /** Every balance is near `price` times the user's shares. */
  ghost predicate WithinBy(m: map<nat, u128>, shares: map<nat, real>, price: real, gap: map<nat, real>) {
    && m.Keys == shares.Keys == gap.Keys
    && forall user :: user in m ==> shares[user] >= 0.0 && Near(m[user] as real, Times(price)(shares[user]), gap[user])
  }

  lemma {:induction false} WithinAdd(
      m: map<nat, u128>, shares: map<nat, real>, price: real, gap: map<nat, real>, user: nat, x: u128, y: real, d: real)
    requires WithinBy(m, shares, price, gap) && y >= 0.0 && Near(x as real, Times(price)(y), d)
    ensures WithinBy(m[user := x], shares[user := y], price, gap[user := d])
  {
  }

  lemma {:induction false} WithinRemove(
      m: map<nat, u128>, shares: map<nat, real>, price: real, gap: map<nat, real>, user: nat)
    requires WithinBy(m, shares, price, gap)
    ensures WithinBy(m - {user}, shares - {user}, price, gap - {user})
  {
  }

  // ---------------------------------------------------------------------------
  // Totals
  // ---------------------------------------------------------------------------

  function Same(): real -> real {
    x => x
  }

  lemma {:induction false} SameIsAdditive()
    ensures Additive(Same())
  {
    forall x, y
      ensures Splits(Same(), x, y)
    {
    }
  }

  function Priced(shares: map<nat, real>, price: real): map<nat, real> {
    map user | user in shares :: Times(price)(shares[user])
  }

  lemma {:induction false} PricedEntry(
      m: map<nat, u128>, shares: map<nat, real>, price: real, gap: map<nat, real>, user: nat)
    requires WithinBy(m, shares, price, gap) && user in m
    ensures FixedLedger.Inner(m)[user] <= Priced(shares, price)[user] + Same()(gap[user])
    ensures Priced(shares, price)[user] <= FixedLedger.Inner(m)[user] + Same()(gap[user])
  {
  }

  /** So is their total near `price` times all shares. */
  lemma {:induction false} TotalNear(m: map<nat, u128>, shares: map<nat, real>, price: real, gap: map<nat, real>)
    requires WithinBy(m, shares, price, gap)
    ensures Near(Total(FixedLedger.Inner(m)), Times(price)(Total(shares)), Total(gap))
  {
    var inner, priced := FixedLedger.Inner(m), Priced(shares, price);
    forall user | user in m
      ensures inner[user] <= priced[user] + Same()(gap[user]) && priced[user] <= inner[user] + Same()(gap[user])
    {
      PricedEntry(m, shares, price, gap, user);
    }
    SameIsAdditive();
    TimesIsAdditive(price);
    TotalAdditive(priced, shares, Times(price));
    TotalBelow(inner, priced, gap, Same());
    TotalBelow(priced, inner, gap, Same());
  }

  lemma {:induction false} TotalIs(m: map<nat, u128>, total: u128)
    requires FixedLedger.TotalOf(m) == Some(total)
    ensures Total(FixedLedger.Inner(m)) == total as real
  {
    FixedLedger.InnerTotal(m);
  }

  lemma {:induction false} WeightsNear(
      w: map<nat, u128>, total: u128, shares: map<nat, real>, price: real, weightGap: map<nat, real>)
    requires WithinBy(w, shares, price, weightGap) && FixedLedger.TotalOf(w) == Some(total)
    ensures Near(total as real, Times(price)(Total(shares)), Total(weightGap))
  {
    TotalNear(w, shares, price, weightGap);
    TotalIs(w, total);
  }

  lemma {:induction false} AllZero(m: map<nat, u128>)
    requires FixedLedger.TotalOf(m) == Some(0)
    ensures forall user :: user in m ==> m[user] == 0
  {
    forall user | user in m
      ensures m[user] == 0
    {
      BalanceWithin(m, user);
    }
  }

  // ---------------------------------------------------------------------------
  // The ledger's half of a repricing
  // ---------------------------------------------------------------------------

  lemma {:induction false} RaisedNearAt(balance: u128, raised: u128, weight: u128, total: u128, v: nat)
    requires 0 < total && weight <= total && InRange(v)
    requires FixedLedger.Raise(balance, weight, total, SaturatingFromInteger(v)) == Some(raised)
    ensures Near(raised as real, balance as real + Times((v * DIV) as real)(weight as real / total as real),
                 (v + 1) as real)
  {
    QuotientTimes(weight as real, total as real);
    RaiseNear(weight as real / total as real, balance, raised, weight, total, v);
  }

  lemma {:induction false} RaisedNear(m: map<nat, u128>, w: map<nat, u128>, total: u128, v: nat, m': map<nat, u128>)
    requires m.Keys == w.Keys && FixedLedger.TotalOf(w) == Some(total) && total > 0 && InRange(v)
    requires FixedLedger.Raised(m, w, total, SaturatingFromInteger(v)) == Some(m')
    ensures m'.Keys == m.Keys
    ensures forall user :: user in m ==>
              Near(m'[user] as real, m[user] as real + Times((v * DIV) as real)(w[user] as real / total as real),
                   (v + 1) as real)
  {
    forall user | user in m
      ensures Near(m'[user] as real, m[user] as real + Times((v * DIV) as real)(w[user] as real / total as real),
                   (v + 1) as real)
    {
      BalanceWithin(w, user);
      RaisedNearAt(m[user], m'[user], w[user], total, v);
    }
  }

  lemma {:induction false} LoweredNear(m: map<nat, u128>, total: u128, v: nat, m': map<nat, u128>)
    requires FixedLedger.TotalOf(m) == Some(total) && total > 0 && InRange(v)
    requires FixedLedger.Lowered(m, total, SaturatingFromInteger(v)) == Some(m')
    ensures m'.Keys == m.Keys
    ensures forall user :: user in m ==>
              Near(m'[user] as real, m[user] as real + Times(-(v * DIV) as real)(m[user] as real / total as real),
                   (v + 1) as real)
  {
    forall user | user in m
      ensures Near(m'[user] as real, m[user] as real + Times(-(v * DIV) as real)(m[user] as real / total as real),
                   (v + 1) as real)
    {
      BalanceWithin(m, user);
      QuotientTimes(m[user] as real, total as real);
      LowerNear(m[user] as real / total as real, m[user], m'[user], total, v);
    }
  }

  // ---------------------------------------------------------------------------
  // The pool's half
  // ---------------------------------------------------------------------------

  predicate Holding(p: SharePool.Pool) {
    p.Live? && p.issued > 0
  }

  function Dust(p: SharePool.Pool): real {
    PoolDrift.Drift(p) as real
  }

  lemma {:induction false} ValueSplits(p: SharePool.Pool)
    requires p.Live? && PoolRuns.Solvent(p)
    ensures (p.effective * DIV) as real == p.bias as real * p.issued as real + Dust(p) && Dust(p) >= 0.0
  {
    ProductAsReal(p.bias, p.issued);
  }

  lemma {:induction false} PricedValue(p: SharePool.Pool)
    requires p.Live? && PoolRuns.Solvent(p)
    ensures (p.effective * DIV) as real == Times(p.bias as real)(p.issued as real) + Dust(p) && Dust(p) >= 0.0
  {
    ValueSplits(p);
    TimesIs(p.bias as real, p.issued as real);
  }

  /** A price set for `value` leaves dust of at most one inner unit a share. */
  lemma {:induction false} PriceSplits(value: nat, issued: nat, bias: nat) returns (dust: real)
    requires issued > 0 && bias == value * DIV / issued
    ensures (value * DIV) as real == bias as real * issued as real + dust && 0.0 <= dust <= issued as real
  {
    Floor(value * DIV, issued);
    ProductAsReal(bias, issued);
    dust := (value * DIV - bias * issued) as real;
  }

  lemma {:induction false} PoolReprices(p: SharePool.Pool, bias: nat, value: nat, change: real) returns (dust: real)
    requires p.Live? && PoolRuns.Solvent(p) && p.issued > 0 && bias == value * DIV / p.issued
    requires (p.effective * DIV) as real + change == (value * DIV) as real
    ensures PoolSide(p.issued as real, p.bias as real, bias as real, (p.effective * DIV) as real, change, Dust(p), dust)
  {
    ValueSplits(p);
    dust := PriceSplits(value, p.issued, bias);
  }

  lemma {:induction false} MintReprices(p: SharePool.Pool, bias': nat, v: nat) returns (dust: real)
    requires Holding(p) && PoolRuns.Solvent(p) && bias' == (p.effective + v) * DIV / p.issued
    ensures PoolSide(p.issued as real, p.bias as real, bias' as real, (p.effective * DIV) as real, (v * DIV) as real,
                     Dust(p), dust)
  {
    dust := PoolReprices(p, bias', p.effective + v, (v * DIV) as real);
  }

  lemma {:induction false} ReapReprices(p: SharePool.Pool, bias': nat, v: nat) returns (dust: real)
    requires Holding(p) && PoolRuns.Solvent(p) && v <= p.effective && bias' == (p.effective - v) * DIV / p.issued
    ensures PoolSide(p.issued as real, p.bias as real, bias' as real, (p.effective * DIV) as real, -(v * DIV) as real,
                     Dust(p), dust)
  {
    dust := PoolReprices(p, bias', p.effective - v, -(v * DIV) as real);
  }

  // ---------------------------------------------------------------------------
  // All users
  // ---------------------------------------------------------------------------

  function At(m: map<nat, real>, user: nat): real {
    if user in m then m[user] else 0.0
  }

  /** The gaps a repricing by `v` leaves, the ledger sharing by weights that are off by `weightGap`. */
  ghost function Reshared(
      shares: map<nat, real>, issued: real, dust: real, gap: map<nat, real>, weightGap: map<nat, real>,
      total: real, v: nat): map<nat, real>
    requires issued > 0.0 && total > 0.0
  {
    var all := Total(weightGap);
    map user | user in shares ::
      var f := shares[user] / issued;
      ResharedGap(At(gap, user), f, dust, v, FractionGap(At(weightGap, user), f, all, total), shares[user])
  }

  lemma {:induction false} RepricedAt(
      m: map<nat, u128>, m': map<nat, u128>, w: map<nat, u128>, shares: map<nat, real>,
      gap: map<nat, real>, weightGap: map<nat, real>, issued: real, bias: real, bias': real, value: real,
      change: real, v: nat, dust: real, dust': real, price: real, total: real, user: nat)
    requires WithinBy(m, shares, bias, gap) && WithinBy(w, shares, price, weightGap) && user in m && user in m'
    requires total > 0.0 && Near(total, Times(price)(issued), Total(weightGap))
    requires change == (v * DIV) as real || change == -(v * DIV) as real
    requires PoolSide(issued, bias, bias', value, change, dust, dust')
    requires Near(m'[user] as real, m[user] as real + Times(change)(w[user] as real / total), (v + 1) as real)
    ensures user in shares
    ensures Near(m'[user] as real, Times(bias')(shares[user]),
                 Reshared(shares, issued, dust, gap, weightGap, total, v)[user])
  {
    UserRepriced(m[user] as real, m'[user] as real, change, v, w[user] as real, total, shares[user], issued, bias,
                 bias', value, dust, dust', price, gap[user], weightGap[user], Total(weightGap));
  }

  lemma {:induction false} RepricedAll(
      m: map<nat, u128>, m': map<nat, u128>, w: map<nat, u128>, shares: map<nat, real>,
      gap: map<nat, real>, weightGap: map<nat, real>, issued: real, bias: real, bias': real, value: real,
      change: real, v: nat, dust: real, dust': real, price: real, total: real)
    requires WithinBy(m, shares, bias, gap) && WithinBy(w, shares, price, weightGap) && m'.Keys == m.Keys
    requires total > 0.0 && Near(total, Times(price)(issued), Total(weightGap))
    requires change == (v * DIV) as real || change == -(v * DIV) as real
    requires PoolSide(issued, bias, bias', value, change, dust, dust')
    requires forall user :: user in m ==>
               Near(m'[user] as real, m[user] as real + Times(change)(w[user] as real / total), (v + 1) as real)
    ensures WithinBy(m', shares, bias', Reshared(shares, issued, dust, gap, weightGap, total, v))
  {
    var next := Reshared(shares, issued, dust, gap, weightGap, total, v);
    assert next.Keys == shares.Keys;
    forall user | user in m'
      ensures shares[user] >= 0.0 && Near(m'[user] as real, Times(bias')(shares[user]), next[user])
    {
      RepricedAt(m, m', w, shares, gap, weightGap, issued, bias, bias', value, change, v, dust, dust', price, total,
                 user);
    }
  }

  lemma {:induction false} MintShared(
      m: map<nat, u128>, m': map<nat, u128>, w: map<nat, u128>, total: u128, v: nat, shares: map<nat, real>,
      issued: real, bias: real, bias': real, value: real, dust: real, dust': real, price: real,
      gap: map<nat, real>, weightGap: map<nat, real>)
    requires WithinBy(m, shares, bias, gap) && WithinBy(w, shares, price, weightGap) && InRange(v)
    requires FixedLedger.TotalOf(w) == Some(total) && total > 0
    requires FixedLedger.Raised(m, w, total, SaturatingFromInteger(v)) == Some(m')
    requires issued == Total(shares) && PoolSide(issued, bias, bias', value, (v * DIV) as real, dust, dust')
    ensures WithinBy(m', shares, bias', Reshared(shares, issued, dust, gap, weightGap, total as real, v))
  {
    WeightsNear(w, total, shares, price, weightGap);
    RaisedNear(m, w, total, v, m');
    RepricedAll(m, m', w, shares, gap, weightGap, issued, bias, bias', value, (v * DIV) as real, v, dust, dust',
                price, total as real);
  }

  lemma {:induction false} ReapShared(
      m: map<nat, u128>, m': map<nat, u128>, total: u128, v: nat, shares: map<nat, real>,
      issued: real, bias: real, bias': real, value: real, dust: real, dust': real, gap: map<nat, real>)
    requires WithinBy(m, shares, bias, gap) && InRange(v)
    requires FixedLedger.TotalOf(m) == Some(total) && total > 0
    requires FixedLedger.Lowered(m, total, SaturatingFromInteger(v)) == Some(m')
    requires issued == Total(shares) && PoolSide(issued, bias, bias', value, -(v * DIV) as real, dust, dust')
    ensures WithinBy(m', shares, bias', Reshared(shares, issued, dust, gap, gap, total as real, v))
  {
    WeightsNear(m, total, shares, bias, gap);
    LoweredNear(m, total, v, m');
    RepricedAll(m, m', m, shares, gap, gap, issued, bias, bias', value, -(v * DIV) as real, v, dust, dust',
                bias, total as real);
  }

  /** A mint, the ledger sharing by the weights `w`. */
  ghost predicate Minting(
      p: SharePool.Pool, bias': nat, m: map<nat, u128>, m': map<nat, u128>, w: map<nat, u128>, total: u128, v: nat,
      shares: map<nat, real>, price: real, gap: map<nat, real>, weightGap: map<nat, real>)
  {
    && Holding(p) && PoolRuns.Solvent(p) && p.issued as real == Total(shares) && InRange(v)
    && bias' == (p.effective + v) * DIV / p.issued
    && WithinBy(m, shares, p.bias as real, gap) && WithinBy(w, shares, price, weightGap)
    && FixedLedger.TotalOf(w) == Some(total) && total > 0
    && FixedLedger.Raised(m, w, total, SaturatingFromInteger(v)) == Some(m')
  }

  lemma {:induction false} MintWithin(
      p: SharePool.Pool, bias': nat, m: map<nat, u128>, m': map<nat, u128>, w: map<nat, u128>, total: u128, v: nat,
      shares: map<nat, real>, price: real, gap: map<nat, real>, weightGap: map<nat, real>)
    requires Minting(p, bias', m, m', w, total, v, shares, price, gap, weightGap)
    ensures WithinBy(m', shares, bias' as real,
                     Reshared(shares, p.issued as real, Dust(p), gap, weightGap, total as real, v))
  {
    var dust := MintReprices(p, bias', v);
    MintShared(m, m', w, total, v, shares, p.issued as real, p.bias as real, bias' as real,
               (p.effective * DIV) as real, Dust(p), dust, price, gap, weightGap);
  }

  /** A reap the ledger shares by its balances. */
  ghost predicate Reaping(
      p: SharePool.Pool, bias': nat, m: map<nat, u128>, m': map<nat, u128>, total: u128, v: nat,
      shares: map<nat, real>, gap: map<nat, real>)
  {
    && Holding(p) && PoolRuns.Solvent(p) && p.issued as real == Total(shares) && InRange(v) && v <= p.effective
    && bias' == (p.effective - v) * DIV / p.issued
    && WithinBy(m, shares, p.bias as real, gap)
    && FixedLedger.TotalOf(m) == Some(total) && total > 0
    && FixedLedger.Lowered(m, total, SaturatingFromInteger(v)) == Some(m')
  }

  lemma {:induction false} ReapWithin(
      p: SharePool.Pool, bias': nat, m: map<nat, u128>, m': map<nat, u128>, total: u128, v: nat,
      shares: map<nat, real>, gap: map<nat, real>)
    requires Reaping(p, bias', m, m', total, v, shares, gap)
    ensures WithinBy(m', shares, bias' as real, Reshared(shares, p.issued as real, Dust(p), gap, gap, total as real, v))
  {
    var dust := ReapReprices(p, bias', v);
    ReapShared(m, m', total, v, shares, p.issued as real, p.bias as real, bias' as real,
               (p.effective * DIV) as real, Dust(p), dust, gap);
  }

  // ---------------------------------------------------------------------------
  // What the pool holds beyond the ledger
  // ---------------------------------------------------------------------------

  lemma {:induction false} BoundBy(value: real, total: real, priced: real, gap: real, dust: real)
    requires value == priced + dust && Near(total, priced, gap)
    ensures value <= total + gap + dust
  {
  }

  /** The pool's value exceeds the ledger's total by at most all gaps and the dust. */
  lemma {:induction false} ValueBound(
      p: SharePool.Pool, users: map<nat, u128>, total: u128, shares: map<nat, real>, gap: map<nat, real>)
    requires p.Live? && PoolRuns.Solvent(p) && p.issued as real == Total(shares)
    requires WithinBy(users, shares, p.bias as real, gap) && FixedLedger.TotalOf(users) == Some(total)
    ensures (p.effective * DIV) as real <= total as real + Total(gap) + Dust(p)
  {
    WeightsNear(users, total, shares, p.bias as real, gap);
    PricedValue(p);
    BoundBy((p.effective * DIV) as real, total as real, Times(p.bias as real)(Total(shares)), Total(gap), Dust(p));
  }

  /** Shares of a pool that holds at most `rest` are worth at most their part of it. */
  lemma {:induction false} PartOfRest(f: real, shares: real, issued: real, bias: real, rest: real)
    requires issued > 0.0 && f >= 0.0 && f * issued == shares && bias >= 0.0 && bias * issued <= rest
    ensures Near(0.0, bias * shares, f * rest)
  {
    assert bias * shares == f * (bias * issued);
    assert f * (bias * issued) <= f * rest;
    assert bias * issued >= 0.0;
    assert f * (bias * issued) >= 0.0;
  }

  lemma {:induction false} LeftoverAt(shares: nat, issued: nat, bias: nat, rest: real)
    requires issued > 0 && (bias * issued) as real <= rest
    ensures Near(0.0, Times(bias as real)(shares as real), Times(rest)(shares as real / issued as real))
  {
    ProductAsReal(bias, issued);
    QuotientTimes(shares as real, issued as real);
    TimesIs(bias as real, shares as real);
    TimesIs(rest, shares as real / issued as real);
    PartOfRest(shares as real / issued as real, shares as real, issued as real, bias as real, rest);
  }
}
