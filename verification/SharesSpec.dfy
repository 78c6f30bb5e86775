/**
 The proportional payout as a function: floored parts, and one unit more for the largest
 remainders until the payout is used up.
 */
module SharesSpec {
  import opened Wrappers
  import opened FixedPoint

  function Sum(s: seq<nat>): nat {
    if s == [] then 0 else Sum(s[..|s| - 1]) + s[|s| - 1]
  }

  function FromFixed(x: u128): u128 {
    x / DIV
  }

  /** The part of `share` in `total`, at most one; a total of zero never gets here. */
  function Ratio(share: u128, total: u128): u128 {
    match CheckedDiv(SaturatingFromInteger(share), SaturatingFromInteger(total))
    case Some(ratio) => ratio
    case None => 0
  }

  /** The fixed-point amount a share is entitled to. */
  function Entitlement(payout: u128, share: u128, total: u128): u128 {
    Saturate(SaturatingFromInteger(payout) * Ratio(share, total) / DIV)
  }

  function Base(payout: u128, share: u128, total: u128): u128 {
    FromFixed(Entitlement(payout, share, total))
  }

  /** What flooring the entitlement cuts off. */
  function Remainder(payout: u128, share: u128, total: u128): u128 {
    var entitled := Entitlement(payout, share, total);
    var whole := SaturatingFromInteger(FromFixed(entitled));
    if whole <= entitled then entitled - whole else 0
  }

  function Bases(payout: u128, shares: seq<u128>, total: u128): (r: seq<u128>)
    ensures |r| == |shares|
  {
    seq(|shares|, i requires 0 <= i < |shares| => Base(payout, shares[i], total))
  }

  function Remainders(payout: u128, shares: seq<u128>, total: u128): (r: seq<(nat, u128)>)
    ensures |r| == |shares|
  {
    seq(|shares|, i requires 0 <= i < |shares| => (i, Remainder(payout, shares[i], total)))
  }

  // ---------------------------------------------------------------------------
  // The stable sort by remainder, largest first
  // ---------------------------------------------------------------------------

  /** Larger remainders come first, equal ones in the order of the payees. */
  predicate Ahead(a: (nat, u128), b: (nat, u128)) {
    a.1 > b.1 || (a.1 == b.1 && a.0 < b.0)
  }

  predicate Ordered(s: seq<(nat, u128)>) {
    forall p, q :: 0 <= p < q < |s| ==> Ahead(s[p], s[q])
  }

  /** The same entries; an ordered sequence holds none twice. */
  ghost predicate SameEntries(s: seq<(nat, u128)>, r: seq<(nat, u128)>) {
    |s| == |r| && forall x :: x in s <==> x in r
  }

  /** Behind everything that is at least as large, so that equal remainders keep their order. */
  function Insert(s: seq<(nat, u128)>, x: (nat, u128)): (r: seq<(nat, u128)>)
    requires Ordered(s) && forall y :: y in s ==> y.0 < x.0
    ensures Ordered(r) && SameEntries(r, s + [x])
  {
    if s == [] || s[|s| - 1].1 >= x.1 then s + [x]
    else
      var front, last := s[..|s| - 1], s[|s| - 1];
      assert s == front + [last];
      var r := Insert(front, x);
      assert forall p :: 0 <= p < |r| ==> r[p] in r;
      assert forall y :: y in r ==> y in front + [x];
      assert forall p :: 0 <= p < |front| ==> Ahead(s[p], s[|s| - 1]);
      assert forall y :: y in front + [x] ==> Ahead(y, last);
      r + [last]
  }

  function Sort(r: seq<(nat, u128)>): (s: seq<(nat, u128)>)
    requires forall p, q :: 0 <= p < q < |r| ==> r[p].0 < r[q].0
    ensures Ordered(s) && SameEntries(s, r)
  {
    if r == [] then []
    else
      var front, last := r[..|r| - 1], r[|r| - 1];
      assert r == front + [last];
      Insert(Sort(front), last)
  }

  // ---------------------------------------------------------------------------
  // Handing out the rest
  // ---------------------------------------------------------------------------

  function OneMore(x: nat): u128 {
    Saturate(x + 1)
  }

  /** One unit more for each of the first `k` entries. */
  function Topped(bases: seq<u128>, order: seq<(nat, u128)>, k: nat): (r: seq<u128>)
    requires k <= |order| && forall x :: x in order ==> x.0 < |bases|
    ensures |r| == |bases|
  {
    if k == 0 then bases
    else
      var before := Topped(bases, order, k - 1);
      var i := order[k - 1].0;
      before[i := OneMore(before[i])]
  }

  function TotalShares(shares: seq<u128>): u128 {
    Saturate(Sum(shares))
  }

  function Undistributed(payout: u128, bases: seq<u128>): u128 {
    if Sum(bases) <= payout then payout - Sum(bases) else 0
  }

  function Payments(payout: u128, shares: seq<u128>): (r: seq<u128>)
    requires TotalShares(shares) != 0
    ensures |r| == |shares|
  {
    var total := TotalShares(shares);
    var bases := Bases(payout, shares, total);
    var rest := Undistributed(payout, bases);
    Topped(bases, Sort(Remainders(payout, shares, total)), if rest <= |shares| then rest else |shares|)
  }
}
