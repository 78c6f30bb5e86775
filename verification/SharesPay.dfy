/** The proportional payout as the loops that compute it. */
module SharesPay {
  import opened FixedPoint
  import opened SharesSpec

  function SharesOf<Id>(payoutFor: seq<(Id, u128)>): (r: seq<u128>)
    ensures |r| == |payoutFor|
  {
    seq(|payoutFor|, i requires 0 <= i < |payoutFor| => payoutFor[i].1)
  }

  /** Shares are added up with saturation. */
  method AddUp<Id>(payoutFor: seq<(Id, u128)>) returns (total: u128)
    ensures total == TotalShares(SharesOf(payoutFor))
  {
    ghost var shares := SharesOf(payoutFor);
    total := 0;
    for i := 0 to |payoutFor|
      invariant total == Saturate(Sum(shares[..i]))
    {
      assert shares[..i + 1][..i] == shares[..i];
      total := SaturatingAdd(total, payoutFor[i].1);
    }
    assert shares[..|payoutFor|] == shares;
  }

  /** One pass over the payees: the floored parts, what flooring cut off, and the sum paid so far. */
  method FloorParts<Id>(payout: u128, payoutFor: seq<(Id, u128)>, total: u128)
      returns (payouts: seq<u128>, remainders: seq<(nat, u128)>, distributed: u128)
    ensures payouts == Bases(payout, SharesOf(payoutFor), total)
    ensures remainders == Remainders(payout, SharesOf(payoutFor), total)
    ensures distributed == Saturate(Sum(payouts))
  {
    ghost var shares := SharesOf(payoutFor);
    payouts, remainders, distributed := [], [], 0;
    for idx := 0 to |payoutFor|
      invariant payouts == Bases(payout, shares, total)[..idx]
      invariant remainders == Remainders(payout, shares, total)[..idx]
      invariant distributed == Saturate(Sum(payouts))
    {
      var entitled := Entitlement(payout, payoutFor[idx].1, total);
      var paid := FromFixed(entitled);
      var whole := SaturatingFromInteger(paid);
      var remainder := if whole <= entitled then entitled - whole else 0;
      assert (payouts + [paid])[..idx] == payouts;
      payouts := payouts + [paid];
      distributed := SaturatingAdd(distributed, paid);
      remainders := remainders + [(idx, remainder)];
    }
  }

  /** Hands out what is left, one unit at a time, down the sorted remainders. */
  method TopUp(bases: seq<u128>, order: seq<(nat, u128)>, undistributed: u128) returns (payouts: seq<u128>)
    requires forall x :: x in order ==> x.0 < |bases|
    ensures payouts == Topped(bases, order, if undistributed <= |order| then undistributed else |order|)
  {
    payouts := bases;
    var left: u128 := undistributed;
    var i := 0;
    while left > 0 && i < |order|
      invariant i <= |order| && left + i == undistributed
      invariant payouts == Topped(bases, order, i)
    {
      var idx := order[i].0;
      payouts := payouts[idx := OneMore(payouts[idx])];
      left := left - 1;
      i := i + 1;
    }
    assert i == if undistributed <= |order| then undistributed else |order|;
  }

  method Collect<Id>(payoutFor: seq<(Id, u128)>, payouts: seq<u128>) returns (payees: seq<(Id, u128)>)
    requires |payouts| == |payoutFor|
    ensures |payees| == |payouts|
    ensures forall k :: 0 <= k < |payees| ==> payees[k] == (payoutFor[k].0, payouts[k])
  {
    payees := [];
    for j := 0 to |payouts|
      invariant |payees| == j
      invariant forall k :: 0 <= k < j ==> payees[k] == (payoutFor[k].0, payouts[k])
    {
      payees := payees + [(payoutFor[j].0, payouts[j])];
    }
  }

  method Distribute<Id>(payout: u128, payoutFor: seq<(Id, u128)>, total: u128) returns (payouts: seq<u128>)
    requires total == TotalShares(SharesOf(payoutFor)) != 0
    ensures payouts == Payments(payout, SharesOf(payoutFor))
  {
    var bases, remainders, distributed := FloorParts(payout, payoutFor, total);
    var undistributed := if distributed <= payout then payout - distributed else 0;
    assert undistributed == Undistributed(payout, bases);
    var order := Sort(remainders);
    assert forall x :: x in remainders ==> x.0 < |bases|;
    payouts := TopUp(bases, order, undistributed);
  }

  method Pay<Id>(payout: u128, payoutFor: seq<(Id, u128)>) returns (payees: seq<(Id, u128)>)
    ensures TotalShares(SharesOf(payoutFor)) == 0 ==> payees == []
    ensures TotalShares(SharesOf(payoutFor)) != 0 ==>
              && |payees| == |payoutFor|
              && forall i :: 0 <= i < |payees| ==>
                   payees[i] == (payoutFor[i].0, Payments(payout, SharesOf(payoutFor))[i])
  {
    var total := AddUp(payoutFor);
    payees := [];
    if total == 0 || |payoutFor| == 0 {
      return;
    }
    var payouts := Distribute(payout, payoutFor, total);
    payees := Collect(payoutFor, payouts);
  }

  function SaturatingAdd(a: nat, b: nat): u128 {
    Saturate(a + b)
  }
}
