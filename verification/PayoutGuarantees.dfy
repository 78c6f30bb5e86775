/** Who gets how much: ranks, conservation and fairness of the proportional payout. */
module PayoutGuarantees {
  import opened FixedPoint
  import opened SharesSpec

  // ---------------------------------------------------------------------------
  // Ranks
  // ---------------------------------------------------------------------------

  /** How many payees come before payee `i` when the rest is handed out. */
  ghost function Rank(rs: seq<(nat, u128)>, i: nat): nat
    requires i < |rs|
  {
    |set j | 0 <= j < |rs| && Ahead(rs[j], rs[i])|
  }

  /** The entries of `rs` carry their own index. */
  ghost predicate Indexed(rs: seq<(nat, u128)>) {
    forall i :: 0 <= i < |rs| ==> rs[i].0 == i
  }

  lemma {:induction false} OrderedIsDistinct(order: seq<(nat, u128)>, rs: seq<(nat, u128)>, p: nat, q: nat)
    requires Indexed(rs) && Ordered(order) && SameEntries(order, rs)
    requires p < |order| && q < |order| && order[p].0 == order[q].0
    ensures p == q
  {
    assert order[p] in order && order[q] in order;
  }

  lemma {:induction false} PrefixSize(order: seq<(nat, u128)>, rs: seq<(nat, u128)>, p: nat)
    requires Indexed(rs) && Ordered(order) && SameEntries(order, rs) && p <= |order|
    ensures |set q | 0 <= q < p :: order[q].0| == p
  {
    if p > 0 {
      PrefixSize(order, rs, p - 1);
      var before, last := set q | 0 <= q < p - 1 :: order[q].0, order[p - 1].0;
      if last in before {
        var q :| 0 <= q < p - 1 && order[q].0 == last;
        OrderedIsDistinct(order, rs, q, p - 1);
      }
      assert (set q | 0 <= q < p :: order[q].0) == before + {last};
    }
  }

  /** A payee stands in the sorted order where the rank says. */
  lemma {:induction false} PositionIsRank(order: seq<(nat, u128)>, rs: seq<(nat, u128)>, p: nat)
    requires Indexed(rs) && Ordered(order) && SameEntries(order, rs) && p < |order|
    ensures order[p].0 < |rs| && order[p] == rs[order[p].0]
    ensures Rank(rs, order[p].0) == p
  {
    assert order[p] in order;
    var i := order[p].0;
    var ahead := set j | 0 <= j < |rs| && Ahead(rs[j], rs[i]);
    var before := set q | 0 <= q < p :: order[q].0;
    forall j | j in before
      ensures j in ahead
    {
      var q :| 0 <= q < p && order[q].0 == j;
      assert order[q] in order;
    }
    forall j | j in ahead
      ensures j in before
    {
      assert rs[j] in rs;
      var q :| 0 <= q < |order| && order[q] == rs[j];
      assert order[q].0 != i ==> q != p;
    }
    assert ahead == before;
    PrefixSize(order, rs, p);
  }

  /** The payees topped up are those among the first `k`. */
  lemma {:induction false} ToppedAt(bases: seq<u128>, order: seq<(nat, u128)>, rs: seq<(nat, u128)>, k: nat, i: nat)
    requires Indexed(rs) && Ordered(order) && SameEntries(order, rs) && |rs| == |bases|
    requires k <= |order| && i < |bases| && forall x :: x in order ==> x.0 < |bases|
    ensures Topped(bases, order, k)[i] == if Rank(rs, i) < k then OneMore(bases[i]) else bases[i]
  {
    if k > 0 {
      ToppedAt(bases, order, rs, k - 1, i);
      PositionIsRank(order, rs, k - 1);
      if Rank(rs, i) == k - 1 {
        PositionOf(order, rs, i);
      }
    }
  }

  lemma {:induction false} PositionOf(order: seq<(nat, u128)>, rs: seq<(nat, u128)>, i: nat)
    requires Indexed(rs) && Ordered(order) && SameEntries(order, rs) && i < |rs|
    ensures Rank(rs, i) < |order| && order[Rank(rs, i)].0 == i
  {
    assert rs[i] in rs;
    var p :| 0 <= p < |order| && order[p] == rs[i];
    PositionIsRank(order, rs, p);
  }

  /**
   Each payment is the floored part, or one unit more for the payees whose rank is below what
   flooring left undistributed.
   */
  lemma {:induction false} PaymentByRank(payout: u128, shares: seq<u128>, i: nat)
    requires TotalShares(shares) != 0 && i < |shares|
    ensures var total := TotalShares(shares);
            var bases, rs := Bases(payout, shares, total), Remainders(payout, shares, total);
            Payments(payout, shares)[i] ==
            bases[i] + if Rank(rs, i) < Undistributed(payout, bases) then 1 else 0
  {
    var total := TotalShares(shares);
    var bases, rs := Bases(payout, shares, total), Remainders(payout, shares, total);
    var order, rest := Sort(rs), Undistributed(payout, bases);
    assert forall x :: x in rs ==> x.0 < |bases|;
    PositionOf(order, rs, i);
    ToppedAt(bases, order, rs, if rest <= |shares| then rest else |shares|, i);
    assert bases[i] <= MAX / DIV;
  }

  // ---------------------------------------------------------------------------
  // Conservation
  // ---------------------------------------------------------------------------

  lemma {:induction false} SumUpdate(s: seq<nat>, i: nat, v: nat)
    requires i < |s|
    ensures Sum(s[i := v]) + s[i] == Sum(s) + v
  {
    var last := |s| - 1;
    if i == last {
      assert s[i := v][..last] == s[..last];
    } else {
      assert s[i := v][..last] == s[..last][i := v];
      SumUpdate(s[..last], i, v);
    }
  }

  lemma {:induction false} ToppedSum(bases: seq<u128>, order: seq<(nat, u128)>, rs: seq<(nat, u128)>, k: nat)
    requires Indexed(rs) && Ordered(order) && SameEntries(order, rs) && |rs| == |bases|
    requires k <= |order| && forall x :: x in order ==> x.0 < |bases|
    requires forall i :: 0 <= i < |bases| ==> bases[i] <= MAX / DIV
    ensures Sum(Topped(bases, order, k)) == Sum(bases) + k
  {
    if k > 0 {
      var before, i := Topped(bases, order, k - 1), order[k - 1].0;
      ToppedSum(bases, order, rs, k - 1);
      PositionIsRank(order, rs, k - 1);
      ToppedAt(bases, order, rs, k - 1, i);
      SumUpdate(before, i, before[i] + 1);
    }
  }

  /**
   For all inputs, saturated or not: the payments add up to the payout exactly when it is no
   less than the floored parts and exceeds them by at most one unit a payee. Below, they add up
   to the floored parts; above, to one unit a payee more.
   */
  lemma {:induction false} PaymentsAddUp(payout: u128, shares: seq<u128>)
    requires TotalShares(shares) != 0
    ensures var floored := Sum(Bases(payout, shares, TotalShares(shares)));
            var paid := Sum(Payments(payout, shares));
            && (payout < floored ==> paid == floored)
            && (floored <= payout <= floored + |shares| ==> paid == payout)
            && (floored + |shares| < payout ==> paid == floored + |shares|)
  {
    var total := TotalShares(shares);
    var bases, rs := Bases(payout, shares, total), Remainders(payout, shares, total);
    var rest := Undistributed(payout, bases);
    assert forall x :: x in rs ==> x.0 < |bases|;
    ToppedSum(bases, Sort(rs), rs, if rest <= |shares| then rest else |shares|);
  }

  lemma {:induction false} FloorScale(a: nat, b: nat, d: nat)
    requires b > 0 && d > 0
    ensures b * d > 0 && a * d / (b * d) == a / b
  {
    MulMono(1, b, d);
    Floor(a, b);
    var q := a / b;
    MulMono(q * b, a, d);
    MulSwap(q, b, d);
    FloorAtLeast(a * d, b * d, q);
    MulLess(a, (q + 1) * b, d);
    MulSwap(q + 1, b, d);
    FloorAtMost(a * d, b * d, q);
  }

  /** In range a ratio is the share of the total, floored once. */
  lemma {:induction false} RatioIsFloor(share: u128, total: u128)
    requires 0 < total && InRange(total) && share <= total
    ensures Ratio(share, total) == share * DIV / total <= DIV
  {
    FloorScale(share * DIV, total, DIV);
    FloorAtMost(share * DIV, total, DIV);
  }

  function Ratios(shares: seq<u128>, total: u128): (r: seq<u128>)
    ensures |r| == |shares|
  {
    seq(|shares|, i requires 0 <= i < |shares| => Ratio(shares[i], total))
  }

  lemma {:induction false} AddRatio(total: nat, sum: nat, ratio: nat, scaled: nat, part: nat, n: nat)
    requires total > 0 && total * sum <= scaled <= total * sum + n * (total - 1)
    requires ratio * total <= part < ratio * total + total
    ensures total * (sum + ratio) <= scaled + part <= total * (sum + ratio) + (n + 1) * (total - 1)
  {
    assert total * (sum + ratio) == total * sum + ratio * total;
    assert (n + 1) * (total - 1) == n * (total - 1) + (total - 1);
  }

  lemma {:induction false} RatiosAddUp(shares: seq<u128>, total: u128)
    requires 0 < total && InRange(total) && forall i :: 0 <= i < |shares| ==> shares[i] <= total
    ensures var sum := Sum(Ratios(shares, total));
            total * sum <= Sum(shares) * DIV <= total * sum + |shares| * (total - 1)
  {
    if shares != [] {
      var n := |shares| - 1;
      var front, last := shares[..n], shares[n];
      RatiosAddUp(front, total);
      assert Ratios(shares, total)[..n] == Ratios(front, total);
      RatioIsFloor(last, total);
      Floor(last * DIV, total);
      AddRatio(total, Sum(Ratios(front, total)), Ratio(last, total), Sum(front) * DIV, last * DIV, n);
    }
  }

  /** The floored parts never exceed the payout times the ratios, and in range fall short by less than a unit each. */
  lemma {:induction false} BasesAddUp(payout: u128, shares: seq<u128>, total: u128)
    requires 0 < total && InRange(total) && forall i :: 0 <= i < |shares| ==> shares[i] <= total
    ensures var floored, ratios := Sum(Bases(payout, shares, total)), Sum(Ratios(shares, total));
            && floored * DIV <= payout * ratios
            && (InRange(payout) ==> payout * ratios <= floored * DIV + |shares| * (DIV - 1))
  {
    if shares != [] {
      var n := |shares| - 1;
      var front, last := shares[..n], shares[n];
      BasesAddUp(payout, front, total);
      assert Ratios(shares, total)[..n] == Ratios(front, total);
      assert Bases(payout, shares, total)[..n] == Bases(payout, front, total);
      OneBase(payout, last, total);
      assert payout * (Sum(Ratios(front, total)) + Ratio(last, total)) ==
             payout * Sum(Ratios(front, total)) + payout * Ratio(last, total);
    }
  }

  /** The entitlement is at most the payout times the ratio, and in range exactly that. */
  lemma {:induction false} EntitlementBound(payout: u128, ratio: u128)
    requires ratio <= DIV
    ensures SaturatingFromInteger(payout) * ratio / DIV <= payout * ratio
    ensures InRange(payout) ==> SaturatingFromInteger(payout) * ratio / DIV == payout * ratio <= MAX
  {
    MulMono(SaturatingFromInteger(payout), payout * DIV, ratio);
    MulSwap(payout, DIV, ratio);
    FloorMono(SaturatingFromInteger(payout) * ratio, payout * ratio * DIV, DIV);
    FloorCancel(payout * ratio, DIV);
    MulMono(ratio, DIV, payout);
  }

  lemma {:induction false} OneBase(payout: u128, share: u128, total: u128)
    requires 0 < total && InRange(total) && share <= total
    ensures Base(payout, share, total) * DIV <= payout * Ratio(share, total)
    ensures InRange(payout) ==> payout * Ratio(share, total) < Base(payout, share, total) * DIV + DIV
  {
    RatioIsFloor(share, total);
    EntitlementBound(payout, Ratio(share, total));
  }

  lemma {:induction false} ShareAtMostTotal(shares: seq<u128>, i: nat)
    requires i < |shares|
    ensures shares[i] <= Sum(shares)
  {
    if i < |shares| - 1 {
      ShareAtMostTotal(shares[..|shares| - 1], i);
    }
  }

  lemma {:induction false} NearOne(total: nat, ratios: nat, n: nat)
    requires total > 0 && n > 0 && total * ratios <= total * DIV <= total * ratios + n * (total - 1)
    ensures ratios <= DIV < ratios + n
  {
    CancelLess(ratios, DIV + 1, total);
    MulLess(total - 1, total, n);
    assert (ratios + n) * total == total * ratios + total * n;
    CancelLess(DIV, ratios + n, total);
  }

  /** The ratios add up to one, less than one unit of precision a payee short. */
  lemma {:induction false} RatiosNearOne(shares: seq<u128>)
    requires Sum(shares) > 0 && InRange(Sum(shares))
    ensures TotalShares(shares) == Sum(shares)
    ensures forall i :: 0 <= i < |shares| ==> shares[i] <= Sum(shares)
    ensures Sum(Ratios(shares, Sum(shares))) <= DIV < Sum(Ratios(shares, Sum(shares))) + |shares|
  {
    var total := Sum(shares);
    forall i | 0 <= i < |shares|
      ensures shares[i] <= total
    {
      ShareAtMostTotal(shares, i);
    }
    RatiosAddUp(shares, total);
    NearOne(total, Sum(Ratios(shares, total)), |shares|);
  }

  /** With the shares in range the payments never exceed the payout. */
  lemma {:induction false} NeverOverpays(payout: u128, shares: seq<u128>)
    requires Sum(shares) > 0 && InRange(Sum(shares))
    ensures TotalShares(shares) != 0
    ensures Sum(Payments(payout, shares)) <= payout
  {
    var total := Sum(shares);
    RatiosNearOne(shares);
    BasesAddUp(payout, shares, total);
    MulMono(Sum(Ratios(shares, total)), DIV, payout);
    CancelLess(Sum(Bases(payout, shares, total)), payout + 1, DIV);
    PaymentsAddUp(payout, shares);
  }

  /** What flooring the ratios and the parts can take from the payout. */
  lemma {:induction false} FlooringLoss(payout: nat, floored: nat, ratios: nat, n: nat)
    requires payout * ratios <= floored * DIV + n * (DIV - 1) && ratios <= DIV < ratios + n
    ensures payout * DIV <= floored * DIV + n * (DIV - 1) + payout * (n - 1)
  {
    MulMono(DIV - ratios, n - 1, payout);
    assert (DIV - ratios) * payout == DIV * payout - payout * ratios;
  }

  /** A loss of less than a unit a payee and `loss` more leaves at most `loss / DIV` after topping up. */
  lemma {:induction false} LossAfterTopUp(payout: nat, floored: nat, n: nat, loss: nat)
    requires payout * DIV <= floored * DIV + n * (DIV - 1) + loss
    ensures payout > floored + n ==> payout - floored - n <= loss / DIV
    ensures loss < DIV + n ==> payout <= floored + n
  {
    if payout > floored + n {
      FloorAtLeast(loss, DIV, payout - floored - n);
    }
  }

  lemma {:induction false} FlooredLoss(payout: u128, shares: seq<u128>)
    requires Sum(shares) > 0 && InRange(Sum(shares)) && InRange(payout)
    ensures |shares| > 0
    ensures payout * DIV <=
            Sum(Bases(payout, shares, Sum(shares))) * DIV + |shares| * (DIV - 1) + payout * (|shares| - 1)
  {
    var total := Sum(shares);
    RatiosNearOne(shares);
    BasesAddUp(payout, shares, total);
    FlooringLoss(payout, Sum(Bases(payout, shares, total)), Sum(Ratios(shares, total)), |shares|);
  }

  /**
   With shares and payout in range the payments fall short by at most `payout * (n - 1) / DIV`,
   and are exactly the payout when `payout * (n - 1)` is below `DIV + n`.
   */
  lemma {:induction false} ShortfallBounded(payout: u128, shares: seq<u128>)
    requires Sum(shares) > 0 && InRange(Sum(shares)) && InRange(payout)
    ensures TotalShares(shares) != 0 && |shares| > 0
    ensures payout - Sum(Payments(payout, shares)) <= payout * (|shares| - 1) / DIV
    ensures payout * (|shares| - 1) < DIV + |shares| ==> Sum(Payments(payout, shares)) == payout
  {
    FlooredLoss(payout, shares);
    NeverOverpays(payout, shares);
    PaymentsAddUp(payout, shares);
    MulMono(0, payout, |shares| - 1);
    var loss := payout * (|shares| - 1);
    LossAfterTopUp(payout, Sum(Bases(payout, shares, Sum(shares))), |shares|, loss);
    Floor(loss, DIV);
  }

  // ---------------------------------------------------------------------------
  // Against the exact share
  // ---------------------------------------------------------------------------

  lemma {:induction false} AtMostExact(payout: nat, share: nat, sum: nat, ratio: nat, base: nat)
    requires base * DIV <= payout * ratio && ratio * sum <= share * DIV
    ensures base * sum <= payout * share
  {
    MulMono(base * DIV, payout * ratio, sum);
    MulMono(ratio * sum, share * DIV, payout);
    MulSwap(base, DIV, sum);
    assert payout * ratio * sum == ratio * sum * payout;
    assert share * DIV * payout == payout * share * DIV;
    CancelLess(base * sum, payout * share + 1, DIV);
  }

  lemma {:induction false} AtLeastExact(payout: nat, share: nat, sum: nat, ratio: nat, base: nat)
    requires payout * ratio <= base * DIV + DIV && share * DIV <= ratio * sum + sum
    ensures payout * share * DIV <= base * sum * DIV + sum * (DIV + payout)
  {
    MulMono(share * DIV, ratio * sum + sum, payout);
    MulMono(payout * ratio, base * DIV + DIV, sum);
    assert share * DIV * payout == payout * share * DIV;
    assert (ratio * sum + sum) * payout == payout * ratio * sum + sum * payout;
    assert (base * DIV + DIV) * sum == base * sum * DIV + sum * DIV;
    assert sum * (DIV + payout) == sum * DIV + sum * payout;
  }

  lemma {:induction false} BaseNearExact(payout: u128, share: u128, sum: u128)
    requires 0 < sum && InRange(sum) && share <= sum
    ensures Base(payout, share, sum) * sum <= payout * share
    ensures InRange(payout) ==>
              payout * share * DIV <= Base(payout, share, sum) * sum * DIV + sum * (DIV + payout)
  {
    RatioIsFloor(share, sum);
    Floor(share * DIV, sum);
    OneBase(payout, share, sum);
    AtMostExact(payout, share, sum, Ratio(share, sum), Base(payout, share, sum));
    if InRange(payout) {
      AtLeastExact(payout, share, sum, Ratio(share, sum), Base(payout, share, sum));
    }
  }

  lemma {:induction false} BaseOrOneMore(payout: u128, shares: seq<u128>, i: nat)
    requires TotalShares(shares) != 0 && i < |shares|
    ensures var base := Base(payout, shares[i], TotalShares(shares)); base <= Payments(payout, shares)[i] <= base + 1
  {
    PaymentByRank(payout, shares, i);
  }

  /**
   Up to one unit above the exact share of the payout, and one unit and one unit of precision per
   unit of payout below it.
   */
  predicate NearExact(paid: nat, payout: nat, share: nat, sum: nat) {
    && paid * sum <= payout * share + sum
    && (InRange(payout) ==> payout * share * DIV <= paid * sum * DIV + sum * (DIV + payout))
  }

  /** One unit more, or none, on both sides of the bounds. */
  lemma {:induction false} OneUnitMore(base: nat, paid: nat, payout: nat, share: nat, sum: nat)
    requires base <= paid <= base + 1 && base * sum <= payout * share
    requires InRange(payout) ==> payout * share * DIV <= base * sum * DIV + sum * (DIV + payout)
    ensures NearExact(paid, payout, share, sum)
  {
    MulMono(base, paid, sum);
    MulMono(paid, base + 1, sum);
    assert (base + 1) * sum == base * sum + sum;
  }

  /** Each payment is near the exact share. */
  lemma {:induction false} PaymentNearExact(payout: u128, shares: seq<u128>, i: nat)
    requires Sum(shares) > 0 && InRange(Sum(shares)) && i < |shares|
    ensures TotalShares(shares) != 0
    ensures NearExact(Payments(payout, shares)[i], payout, shares[i], Sum(shares))
  {
    var sum := Sum(shares);
    ShareAtMostTotal(shares, i);
    BaseOrOneMore(payout, shares, i);
    BaseNearExact(payout, shares[i], sum);
    OneUnitMore(Base(payout, shares[i], sum), Payments(payout, shares)[i], payout, shares[i], sum);
  }

  // Two inputs on which the payments are not the payout, in both directions.

  /** Three equal shares of 100 whole tokens of 18 decimals: all in range, 97 units are kept back. */
  lemma {:induction false} ThreeWaySplitFallsShort()
    ensures var payout: u128 := 100_000_000_000_000_000_000;
            && InRange(payout) && TotalShares([1, 1, 1]) == 3
            && Sum(Payments(payout, [1, 1, 1])) == payout - 97
  {
    var payout: u128 := 100_000_000_000_000_000_000;
    var shares: seq<u128> := [1, 1, 1];
    SumOfThree(1, 1, 1);
    var part := Base(payout, 1, 3);
    assert Ratio(1, 3) == 333_333_333_333_333_333;
    assert part == 33_333_333_333_333_333_300;
    assert Bases(payout, shares, 3) == [part, part, part];
    SumOfThree(part, part, part);
    PaymentsAddUp(payout, shares);
  }

  lemma {:induction false} SumOfTwo(a: nat, b: nat)
    ensures Sum([a, b]) == a + b
  {
    assert [a, b][..1] == [a] && [a][..0] == [];
    assert Sum([a]) == a;
  }

  lemma {:induction false} SumOfThree(a: nat, b: nat, c: nat)
    ensures Sum([a, b, c]) == a + b + c
  {
    SumOfTwo(a, b);
    assert [a, b, c][..2] == [a, b];
  }

  /** Shares too large for fixed point both count as the whole, and each payee gets the full payout. */
  lemma {:induction false} SaturatedSharesOverpay(payout: u128, share: u128, other: u128)
    requires InRange(payout) && share * DIV > MAX && other * DIV > MAX
    ensures TotalShares([share, other]) != 0
    ensures Sum(Payments(payout, [share, other])) >= 2 * payout
  {
    var shares := [share, other];
    SumOfTwo(share, other);
    var total := TotalShares(shares);
    assert SaturatingFromInteger(total) == MAX;
    FloorCancel(DIV, MAX);
    assert DIV * MAX == MAX * DIV;
    assert Ratio(share, total) == DIV && Ratio(other, total) == DIV;
    FloorCancel(payout * DIV, DIV);
    FloorCancel(payout, DIV);
    assert Bases(payout, shares, total) == [payout, payout];
    SumOfTwo(payout, payout);
    PaymentsAddUp(payout, shares);
  }

  // ---------------------------------------------------------------------------
  // Fairness
  // ---------------------------------------------------------------------------

  /** Ranks respect the order of the remainders. */
  lemma {:induction false} RankFollowsOrder(rs: seq<(nat, u128)>, i: nat, j: nat)
    requires i < |rs| && j < |rs| && Ahead(rs[i], rs[j])
    ensures Rank(rs, i) < Rank(rs, j)
  {
    var beforeI := set k | 0 <= k < |rs| && Ahead(rs[k], rs[i]);
    var beforeJ := set k | 0 <= k < |rs| && Ahead(rs[k], rs[j]);
    assert beforeI + {i} <= beforeJ;
    assert i !in beforeI;
    SubsetSize(beforeI + {i}, beforeJ);
  }

  lemma {:induction false} SubsetSize(a: set<int>, b: set<int>)
    requires a <= b
    ensures |a| <= |b|
  {
    assert b == a + (b - a);
  }

  /** A strictly larger entitlement never gets less. */
  lemma {:induction false} LargerEntitlementGetsNoLess(payout: u128, shares: seq<u128>, i: nat, j: nat)
    requires TotalShares(shares) != 0 && i < |shares| && j < |shares|
    ensures var total := TotalShares(shares);
            Entitlement(payout, shares[i], total) > Entitlement(payout, shares[j], total) ==>
              Payments(payout, shares)[i] >= Payments(payout, shares)[j]
  {
    var total := TotalShares(shares);
    if Entitlement(payout, shares[i], total) > Entitlement(payout, shares[j], total) {
      PaymentByRank(payout, shares, i);
      PaymentByRank(payout, shares, j);
      FloorMono(Entitlement(payout, shares[j], total), Entitlement(payout, shares[i], total), DIV);
      if Base(payout, shares[i], total) == Base(payout, shares[j], total) {
        RankFollowsOrder(Remainders(payout, shares, total), i, j);
      }
    }
  }

  // ---------------------------------------------------------------------------
  // The largest remainders first
  // ---------------------------------------------------------------------------

  /** The whole part is cut off, and with every share at most the total the ratio always fits. */
  lemma {:induction false} RatioDefined(share: u128, total: u128, ratio: nat)
    requires total != 0 && share <= total
    requires ratio * SaturatingFromInteger(total) <= SaturatingFromInteger(share) * DIV
             < (ratio + 1) * SaturatingFromInteger(total)
    ensures Ratio(share, total) == ratio <= DIV
  {
    var scaled, whole := SaturatingFromInteger(share) * DIV, SaturatingFromInteger(total);
    FloorAtLeast(scaled, whole, ratio);
    FloorAtMost(scaled, whole, ratio);
    FloorAtMost(scaled, whole, DIV);
  }

  /**
   The entitlement of a payee, floored at the ratio of the clamped shares and again at the clamped
   payout, and its whole part.
   */
  lemma {:induction false} EntitledTo(payout: u128, shares: seq<u128>, i: nat, ratio: nat)
    requires Sum(shares) != 0 && i < |shares|
    requires ratio * Saturate(Saturate(Sum(shares)) * DIV) <= Saturate(shares[i] * DIV) * DIV
             < (ratio + 1) * Saturate(Saturate(Sum(shares)) * DIV)
    ensures TotalShares(shares) == Saturate(Sum(shares)) != 0
    ensures var entitled := Entitlement(payout, shares[i], TotalShares(shares));
            var base := Base(payout, shares[i], TotalShares(shares));
            && entitled * DIV <= Saturate(payout * DIV) * ratio < (entitled + 1) * DIV
            && base * DIV <= entitled < (base + 1) * DIV
  {
    ShareAtMostTotal(shares, i);
    RatioDefined(shares[i], TotalShares(shares), ratio);
    var y := SaturatingFromInteger(payout);
    MulMono(ratio, DIV, y);
    FloorAtMost(y * ratio, DIV, y);
    Floor(y * ratio, DIV);
    Floor(Entitlement(payout, shares[i], TotalShares(shares)), DIV);
  }

  /** What the whole part leaves of an entitlement. */
  lemma {:induction false} RemainderIs(payout: u128, share: u128, total: u128)
    ensures var base := Base(payout, share, total);
            Remainder(payout, share, total) == Entitlement(payout, share, total) - base * DIV
  {
    Floor(Entitlement(payout, share, total), DIV);
  }

  /**
   Where cutting to whole units took more from one payee than from another, or as much from an
   earlier one, the other is not given a unit more unless the one is.
   */
  lemma {:induction false} LargestRemainderFirst(payout: u128, shares: seq<u128>, i: nat, j: nat)
    requires TotalShares(shares) != 0 && i < |shares| && j < |shares|
    ensures var total := TotalShares(shares);
            var one, other := Base(payout, shares[i], total), Base(payout, shares[j], total);
            var cut := Entitlement(payout, shares[i], total) - one * DIV;
            var cutOther := Entitlement(payout, shares[j], total) - other * DIV;
            cut > cutOther || (cut == cutOther && i < j) ==>
              (Payments(payout, shares)[j] > other ==> Payments(payout, shares)[i] > one)
  {
    var total := TotalShares(shares);
    var rs := Remainders(payout, shares, total);
    RemainderIs(payout, shares[i], total);
    RemainderIs(payout, shares[j], total);
    PaymentByRank(payout, shares, i);
    PaymentByRank(payout, shares, j);
    if Ahead(rs[i], rs[j]) {
      RankFollowsOrder(rs, i, j);
    }
  }

  lemma {:induction false} TenUnitsCut()
    ensures Sum([5, 3, 3]) == 11 && Bases(10, [5, 3, 3], 11) == [4, 2, 2] && Sum([4, 2, 2]) == 8
    ensures Entitlement(10, 5, 11) == 4_545_454_545_454_545_450
    ensures Entitlement(10, 3, 11) == 2_727_272_727_272_727_270
  {
    SumOfThree(5, 3, 3);
    SumOfThree(4, 2, 2);
    assert Ratio(5, 11) == 454_545_454_545_454_545 && Ratio(3, 11) == 272_727_272_727_272_727;
  }

  /** Two of three payees topped up leave the third as it was. */
  lemma {:induction false} TwoToppedUp(paid: seq<u128>)
    requires |paid| == 3 && Sum(paid) == 10
    requires 4 <= paid[0] <= 5 && 2 <= paid[1] <= 3 && 2 <= paid[2] <= 3
    requires paid[0] > 4 ==> paid[1] > 2 && paid[2] > 2
    ensures paid == [4, 3, 3]
  {
    assert paid == [paid[0], paid[1], paid[2]];
    SumOfThree(paid[0], paid[1], paid[2]);
  }

  /** Ten units for shares of 5, 3 and 3: the two smaller payees lose more to the cut and are topped up. */
  lemma {:induction false} SmallerSharesToppedUp()
    ensures TotalShares([5, 3, 3]) == 11 && Payments(10, [5, 3, 3]) == [4, 3, 3]
  {
    var shares: seq<u128> := [5, 3, 3];
    TenUnitsCut();
    PaymentsAddUp(10, shares);
    BaseOrOneMore(10, shares, 0);
    BaseOrOneMore(10, shares, 1);
    BaseOrOneMore(10, shares, 2);
    LargestRemainderFirst(10, shares, 1, 0);
    LargestRemainderFirst(10, shares, 2, 0);
    TwoToppedUp(Payments(10, shares));
  }

  /** A share at least as large is entitled to at least as much, and never trails by more than one unit. */
  lemma {:induction false} LargerShareTrailsByAtMostOne(payout: u128, shares: seq<u128>, i: nat, j: nat)
    requires TotalShares(shares) != 0 && i < |shares| && j < |shares| && shares[i] >= shares[j]
    ensures Payments(payout, shares)[i] as int + 1 >= Payments(payout, shares)[j] as int
  {
    var total := TotalShares(shares);
    ShareAtMostTotal(shares, i);
    ShareAtMostTotal(shares, j);
    RatioMono(shares[j], shares[i], total);
    EntitlementMono(payout, Ratio(shares[j], total), Ratio(shares[i], total));
    PaymentByRank(payout, shares, i);
    PaymentByRank(payout, shares, j);
  }

  lemma {:induction false} RatioMono(less: u128, more: u128, total: u128)
    requires less <= more <= total && total != 0
    ensures Ratio(less, total) <= Ratio(more, total)
  {
    var whole := SaturatingFromInteger(total);
    FloorMono(SaturatingFromInteger(less) * DIV, SaturatingFromInteger(more) * DIV, whole);
    FloorAtMost(SaturatingFromInteger(more) * DIV, whole, DIV);
  }

  lemma {:induction false} EntitlementMono(payout: u128, less: u128, more: u128)
    requires less <= more
    ensures Saturate(SaturatingFromInteger(payout) * less / DIV) / DIV <=
            Saturate(SaturatingFromInteger(payout) * more / DIV) / DIV
  {
    MulMono(less, more, SaturatingFromInteger(payout));
  }
}
