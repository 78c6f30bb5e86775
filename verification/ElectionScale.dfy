/** Scaling every contribution by the same positive factor changes no ranking. */
module ElectionScale {
  import opened Wrappers
  import opened LoadBalancing
  import opened Elections
  import opened ElectionGuarantees

  function ScaleVotes(votes: Votes, k: nat): (r: Votes)
    ensures |r| == |votes|
  {
    seq(|votes|, j requires 0 <= j < |votes| => (votes[j].0, votes[j].1 * k))
  }

  function ScaleSlate(slate: Slate, k: nat): (r: Slate)
    ensures |r| == |slate|
  {
    seq(|slate|, i requires 0 <= i < |slate| => (slate[i].0, ScaleVotes(slate[i].1, k)))
  }

  /** Every backer bears `k` times as much. */
  ghost predicate ScaledLoad(load: map<Account, nat>, load': map<Account, nat>, k: nat) {
    forall backer :: LoadOf(load', backer) == LoadOf(load, backer) * k
  }

  ghost predicate ScaledState(s: State, s': State, k: nat) {
    s'.rest == ScaleSlate(s.rest, k) && ScaledLoad(s.load, s'.load, k) && s'.ranking == s.ranking
  }

  lemma {:induction false} ScaleMax(a: nat, b: nat, c: nat, k: nat)
    ensures Max(a * k, b * k + c * k) == Max(a, b + c) * k
  {
    assert b * k + c * k == (b + c) * k;
    if a < b + c {
      assert a * k <= (b + c) * k;
    } else {
      assert (b + c) * k <= a * k;
    }
  }

  lemma {:induction false} KeyScales(load: map<Account, nat>, load': map<Account, nat>, votes: Votes, k: nat)
    requires ScaledLoad(load, load', k)
    ensures Key(load', ScaleVotes(votes, k)) == Key(load, votes) * k
  {
    if votes != [] {
      var front, last := votes[..|votes| - 1], votes[|votes| - 1];
      KeyScales(load, load', front, k);
      assert ScaleVotes(votes, k)[..|votes| - 1] == ScaleVotes(front, k);
      assert LoadOf(load', last.0) == LoadOf(load, last.0) * k;
      ScaleMax(Key(load, front), LoadOf(load, last.0), last.1, k);
    }
  }

  lemma {:induction false} ContributionScales(votes: Votes, backer: Account, k: nat)
    ensures Contribution(ScaleVotes(votes, k), backer) == Contribution(votes, backer) * k
  {
    if votes != [] {
      var front, last := votes[..|votes| - 1], votes[|votes| - 1];
      ContributionScales(front, backer, k);
      assert ScaleVotes(votes, k)[..|votes| - 1] == ScaleVotes(front, k);
      assert (Contribution(front, backer) + last.1) * k == Contribution(front, backer) * k + last.1 * k;
    }
  }

  lemma {:induction false} ChargeScales(load: map<Account, nat>, load': map<Account, nat>, votes: Votes, k: nat)
    requires ScaledLoad(load, load', k)
    ensures ScaledLoad(Charge(load, votes), Charge(load', ScaleVotes(votes, k)), k)
  {
    forall backer
      ensures LoadOf(Charge(load', ScaleVotes(votes, k)), backer) == LoadOf(Charge(load, votes), backer) * k
    {
      ChargeAdds(load, votes, backer);
      ChargeAdds(load', ScaleVotes(votes, k), backer);
      ContributionScales(votes, backer, k);
      var a, b := LoadOf(load, backer), Contribution(votes, backer);
      assert (a + b) * k == a * k + b * k;
    }
  }

  lemma {:induction false} ScaleLess(a: nat, b: nat, k: nat)
    requires k > 0
    ensures a * k < b * k <==> a < b
  {
    if a < b {
      assert (b - a) * k > 0;
    } else {
      assert (a - b) * k >= 0;
    }
  }

  lemma {:induction false} KeyOfScaled(load: map<Account, nat>, load': map<Account, nat>, rest: Slate, k: nat, i: nat)
    requires i < |rest| && ScaledLoad(load, load', k)
    ensures Key(load', ScaleSlate(rest, k)[i].1) == Key(load, rest[i].1) * k
  {
    KeyScales(load, load', rest[i].1, k);
  }

  /** The first minimum stays where it is. */
  lemma {:induction false} BestScales(load: map<Account, nat>, load': map<Account, nat>, rest: Slate, k: nat)
    requires k > 0 && rest != [] && ScaledLoad(load, load', k)
    ensures Best(load', ScaleSlate(rest, k)) == Best(load, rest)
  {
    var best, best' := Best(load, rest), Best(load', ScaleSlate(rest, k));
    KeyOfScaled(load, load', rest, k, best);
    KeyOfScaled(load, load', rest, k, best');
    ScaleLess(Key(load, rest[best].1), Key(load, rest[best'].1), k);
    ScaleLess(Key(load, rest[best'].1), Key(load, rest[best].1), k);
    BestIsFirstMinimal(load, rest);
    BestIsFirstMinimal(load', ScaleSlate(rest, k));
  }

  lemma {:induction false} SameFirstNamed(rest: Slate, k: nat, p: nat)
    requires p < |rest|
    ensures ScaleSlate(rest, k)[p].0 == rest[p].0
    ensures FirstNamed(ScaleSlate(rest, k), rest[p].0) == FirstNamed(rest, rest[p].0)
  {
    var scaled := ScaleSlate(rest, k);
    assert scaled[p].0 == rest[p].0;
    var i, j := FirstNamed(scaled, rest[p].0), FirstNamed(rest, rest[p].0);
    assert rest[i].0 == scaled[i].0 && rest[j].0 == scaled[j].0;
  }

  lemma {:induction false} ScaleRemoves(rest: Slate, k: nat, i: nat)
    requires i < |rest|
    ensures Remove(ScaleSlate(rest, k), i) == ScaleSlate(Remove(rest, i), k)
  {
  }

  lemma {:induction false} RoundScales(s: State, s': State, k: nat)
    requires k > 0 && s.rest != [] && ScaledState(s, s', k)
    ensures ScaledState(Round(s), Round(s'), k)
  {
    var best := Best(s.load, s.rest);
    BestScales(s.load, s'.load, s.rest, k);
    SameFirstNamed(s.rest, k, best);
    var chosen := FirstNamed(s.rest, s.rest[best].0);
    ScaleRemoves(s.rest, k, chosen);
    ChargeScales(s.load, s'.load, s.rest[chosen].1, k);
  }

  lemma {:induction false} RoundsScale(slate: Slate, k: nat, t: nat)
    requires k > 0 && t <= |slate|
    ensures ScaledState(After(slate, t), After(ScaleSlate(slate, k), t), k)
  {
    if t > 0 {
      RoundsScale(slate, k, t - 1);
      RoundScales(After(slate, t - 1), After(ScaleSlate(slate, k), t - 1), k);
    }
  }

  lemma {:induction false} WeighedIsScaled(ctx: PhragmenModelConfig, slate: Slate)
    ensures ctx.WeighAll(slate) ==
            if ctx.weighted && ctx.scale.Some? then ScaleSlate(slate, ctx.scale.value) else slate
  {
    var weighed := ctx.WeighAll(slate);
    var expected := if ctx.weighted && ctx.scale.Some? then ScaleSlate(slate, ctx.scale.value) else slate;
    forall i | 0 <= i < |slate|
      ensures weighed[i] == expected[i]
    {
      assert weighed[i].1 == expected[i].1;
    }
  }

  /**
   Scale invariance. Weighted by any positive scale, or by none, or unweighted, Phragmen ranks
   as the max-min model does, whatever the names and backers.
   */
  lemma {:induction false} ScaleDoesNotMatter(ctx: PhragmenModelConfig, slate: Slate)
    requires ctx.weighted && ctx.scale.Some? ==> ctx.scale.value > 0
    ensures Ranking(ctx.WeighAll(slate)) == Ranking(slate)
  {
    WeighedIsScaled(ctx, slate);
    if ctx.weighted && ctx.scale.Some? {
      RoundsScale(slate, ctx.scale.value, |slate|);
    }
  }

  predicate NoContributions(slate: Slate) {
    forall i, j :: 0 <= i < |slate| && 0 <= j < |slate[i].1| ==> slate[i].1[j].1 == 0
  }

  ghost predicate NoLoad(load: map<Account, nat>) {
    forall backer :: LoadOf(load, backer) == 0
  }

  lemma {:induction false} NothingImposed(load: map<Account, nat>, votes: Votes)
    requires NoLoad(load) && forall j :: 0 <= j < |votes| ==> votes[j].1 == 0
    ensures Key(load, votes) == 0 && NoLoad(Charge(load, votes))
  {
    if votes != [] {
      var front, last := votes[..|votes| - 1], votes[|votes| - 1];
      NothingImposed(load, front);
      assert LoadOf(Charge(load, front), last.0) == LoadOf(load, last.0) == 0;
      var before, after := Charge(load, front), Charge(load, votes);
      assert after == before[last.0 := 0];
      forall backer
        ensures LoadOf(after, backer) == 0
      {
        assert LoadOf(before, backer) == 0;
      }
    }
  }

  lemma {:induction false} ZeroRound(s: State)
    requires s.rest != [] && NoContributions(s.rest) && NoLoad(s.load)
    ensures Round(s).rest == s.rest[1..] && NoLoad(Round(s).load) && Round(s).ranking == s.ranking + [s.rest[0].0]
  {
    var best := Best(s.load, s.rest);
    BestIsFirstMinimal(s.load, s.rest);
    NothingImposed(s.load, s.rest[0].1);
    NothingImposed(s.load, s.rest[best].1);
    assert best == 0;
    assert FirstNamed(s.rest, s.rest[0].0) == 0;
  }

  /** The first `t` candidates have been ranked in the order of the slate. */
  ghost predicate InOrder(slate: Slate, s: State, t: nat)
    requires t <= |slate|
  {
    s.rest == slate[t..] && NoLoad(s.load) && s.ranking == Names(slate)[..t]
  }

  lemma {:induction false} NextInOrder(slate: Slate, t: nat)
    requires t < |slate|
    ensures slate[t..][1..] == slate[t + 1..] && slate[t..][0] == slate[t]
    ensures Names(slate)[..t + 1] == Names(slate)[..t] + [slate[t].0]
    ensures forall i :: 0 <= i < |slate[t..]| ==> slate[t..][i] == slate[t + i]
  {
  }

  lemma {:induction false} ZeroRoundInOrder(slate: Slate, s: State, t: nat)
    requires NoContributions(slate) && t < |slate| && InOrder(slate, s, t)
    ensures InOrder(slate, Round(s), t + 1)
  {
    NextInOrder(slate, t);
    assert NoContributions(s.rest);
    ZeroRound(s);
  }

  /** Where nothing is contributed all candidates are equally good, and the ranking is the slate. */
  lemma {:induction false} ZeroRounds(slate: Slate, t: nat)
    requires NoContributions(slate) && t <= |slate|
    ensures InOrder(slate, After(slate, t), t)
  {
    if t > 0 {
      ZeroRounds(slate, t - 1);
      ZeroRoundInOrder(slate, After(slate, t - 1), t - 1);
    }
  }

  /** A scale of zero keeps the order of the slate. */
  lemma {:induction false} ScaleZeroKeepsOrder(slate: Slate)
    ensures Ranking(PhragmenModelConfig(true, Some(0)).WeighAll(slate)) == Names(slate)
  {
    var ctx := PhragmenModelConfig(true, Some(0));
    var weighed := ctx.WeighAll(slate);
    ZeroRounds(weighed, |slate|);
    assert Names(weighed)[..|slate|] == Names(slate);
  }
}
