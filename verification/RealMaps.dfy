/** Sums over finite maps to real numbers. */
module RealMaps {

  ghost function Total(m: map<nat, real>): real {
    if m == map[] then 0.0
    else
      var k :| k in m;
      m[k] + Total(m - {k})
  }

  /** The sum can be taken in any order. */
  lemma {:induction false} TotalRemove(m: map<nat, real>, k: nat)
    requires k in m
    ensures Total(m) == m[k] + Total(m - {k})
    decreases |m|
  {
    var first :| first in m && Total(m) == m[first] + Total(m - {first});
    if first != k {
      TotalRemove(m - {first}, k);
      TotalRemove(m - {k}, first);
      assert m - {first} - {k} == m - {k} - {first};
    }
  }

  lemma {:induction false} TotalInsert(m: map<nat, real>, k: nat, x: real)
    requires k !in m
    ensures Total(m[k := x]) == x + Total(m)
  {
    TotalRemove(m[k := x], k);
    assert m[k := x] - {k} == m;
  }

  /** `f` of a sum is the sum, for these two numbers. */
  predicate Splits(f: real -> real, x: real, y: real) {
    f(x + y) == f(x) + f(y)
  }

  ghost predicate Additive(f: real -> real) {
    f(0.0) == 0.0 && forall x, y :: Splits(f, x, y)
  }

  /** The sum commutes with additive functions. */
  lemma {:induction false} TotalAdditive(m: map<nat, real>, n: map<nat, real>, f: real -> real)
    requires Additive(f)
    requires m.Keys == n.Keys && forall k :: k in m ==> m[k] == f(n[k])
    ensures Total(m) == f(Total(n))
    decreases |m|
  {
    if m == map[] {
      assert n == map[];
    } else {
      var k :| k in m;
      TotalRemove(m, k);
      TotalRemove(n, k);
      TotalAdditive(m - {k}, n - {k}, f);
      assert Splits(f, n[k], Total(n - {k}));
    }
  }

  lemma {:induction false} AddBelow(
      r: map<nat, real>, m: map<nat, real>, n: map<nat, real>, f: real -> real, k: nat)
    requires Additive(f) && k in r && k in m && k in n && r[k] <= m[k] + f(n[k])
    requires Total(r - {k}) <= Total(m - {k}) + f(Total(n - {k}))
    ensures Total(r) <= Total(m) + f(Total(n))
  {
    TotalRemove(r, k);
    TotalRemove(m, k);
    TotalRemove(n, k);
    assert Splits(f, n[k], Total(n - {k}));
  }

  /** Bounding every entry bounds the sum. */
  lemma {:induction false} TotalBelow(
      r: map<nat, real>, m: map<nat, real>, n: map<nat, real>, f: real -> real)
    requires Additive(f) && r.Keys == m.Keys == n.Keys
    requires forall k :: k in r ==> r[k] <= m[k] + f(n[k])
    ensures Total(r) <= Total(m) + f(Total(n))
    decreases |r|
  {
    if r == map[] {
      assert m == map[] && n == map[];
    } else {
      var k :| k in r;
      TotalBelow(r - {k}, m - {k}, n - {k}, f);
      AddBelow(r, m, n, f, k);
    }
  }

  function Times(factor: real): real -> real {
    x => factor * x
  }

  lemma {:induction false} Distribute(factor: real, x: real, y: real)
    ensures Times(factor)(x + y) == Times(factor)(x) + Times(factor)(y)
  {
  }

  lemma {:induction false} TimesIsAdditive(factor: real)
    ensures Additive(Times(factor))
  {
    forall x, y
      ensures Splits(Times(factor), x, y)
    {
      Distribute(factor, x, y);
    }
  }

  lemma {:induction false} TotalPositive(m: map<nat, real>)
    requires forall k :: k in m ==> m[k] > 0.0
    ensures Total(m) >= 0.0 && (Total(m) == 0.0 <==> m == map[])
    decreases |m|
  {
    if k :| k in m {
      TotalRemove(m, k);
      TotalPositive(m - {k});
    }
  }
}
