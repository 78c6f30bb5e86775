/** The two load-balancing election models as the loops that compute them. */
module Elections {
  import opened Wrappers
  import opened LoadBalancing

  /** Contributions are scaled only when weighted, and only when a scale is given. */
  datatype PhragmenModelConfig = PhragmenModelConfig(weighted: bool, scale: Option<nat>) {
    function Contribution(backed: nat): nat {
      if weighted && scale.Some? then backed * scale.value else backed
    }

    function Weigh(votes: Votes): (r: Votes)
      ensures |r| == |votes|
    {
      seq(|votes|, j requires 0 <= j < |votes| => (votes[j].0, Contribution(votes[j].1)))
    }

    /** The slate with every contribution as the model counts it. */
    function WeighAll(slate: Slate): (r: Slate)
      ensures |r| == |slate|
    {
      seq(|slate|, i requires 0 <= i < |slate| => (slate[i].0, Weigh(slate[i].1)))
    }
  }

  // ---------------------------------------------------------------------------
  // Loads
  // ---------------------------------------------------------------------------

  /** Every backer named anywhere starts with no load. */
  method NoLoads(slate: Slate) returns (load: map<Account, nat>)
    ensures load == ZeroLoad(slate) && Covers(load, slate)
  {
    load := map[];
    for i := 0 to |slate|
      invariant load == ZeroLoad(slate[..i])
    {
      var votes := slate[i].1;
      for j := 0 to |votes|
        invariant load.Keys == Backers(slate[..i]) + set n | 0 <= n < j :: votes[n].0
        invariant forall backer :: backer in load ==> load[backer] == 0
      {
        if votes[j].0 !in load {
          load := load[votes[j].0 := 0];
        }
      }
      assert Backers(slate[..i + 1]) == Backers(slate[..i]) + set n | 0 <= n < |votes| :: votes[n].0;
    }
    assert slate[..|slate|] == slate;
  }

  lemma {:induction false} ChargedKeys(load: map<Account, nat>, votes: Votes)
    ensures load.Keys <= Charge(load, votes).Keys
  {
    if votes != [] {
      ChargedKeys(load, votes[..|votes| - 1]);
    }
  }

  // ---------------------------------------------------------------------------
  // Phragmen
  // ---------------------------------------------------------------------------

  method ImposedLoad(ctx: PhragmenModelConfig, load: map<Account, nat>, votes: Votes) returns (maxLoad: nat)
    requires CoversVotes(load, votes)
    ensures maxLoad == Key(load, ctx.Weigh(votes))
  {
    ghost var weighed := ctx.Weigh(votes);
    maxLoad := 0;
    for j := 0 to |votes|
      invariant maxLoad == Key(load, weighed[..j])
    {
      assert weighed[..j + 1][..j] == weighed[..j];
      var newLoad := load[votes[j].0] + ctx.Contribution(votes[j].1);
      if newLoad > maxLoad {
        maxLoad := newLoad;
      }
    }
    assert weighed[..|votes|] == weighed;
  }

  method ChargeBackers(ctx: PhragmenModelConfig, load: map<Account, nat>, votes: Votes)
      returns (charged: map<Account, nat>)
    ensures charged == Charge(load, ctx.Weigh(votes))
  {
    ghost var weighed := ctx.Weigh(votes);
    charged := load;
    for j := 0 to |votes|
      invariant charged == Charge(load, weighed[..j])
    {
      assert weighed[..j + 1][..j] == weighed[..j];
      var backer := votes[j].0;
      charged := charged[backer := LoadOf(charged, backer) + ctx.Contribution(votes[j].1)];
    }
    assert weighed[..|votes|] == weighed;
  }

  /** Scans for the first candidate of minimal imposed load. */
  method PickBest(ctx: PhragmenModelConfig, load: map<Account, nat>, remaining: Slate) returns (best: nat)
    requires remaining != [] && Covers(load, remaining)
    ensures best == Best(load, ctx.WeighAll(remaining))
  {
    ghost var weighed := ctx.WeighAll(remaining);
    best := 0;
    var bestLoad: Option<nat> := None;
    for i := 0 to |remaining|
      invariant i > 0 ==> best == Best(load, weighed[..i])
      invariant bestLoad == if i == 0 then None else Some(Key(load, weighed[best].1))
    {
      assert weighed[..i + 1][..i] == weighed[..i];
      var maxLoad := ImposedLoad(ctx, load, remaining[i].1);
      if bestLoad.None? || maxLoad < bestLoad.value {
        best, bestLoad := i, Some(maxLoad);
      }
    }
    assert weighed[..|remaining|] == weighed;
  }

  /** Weighing changes no name. */
  lemma {:induction false} SameFirst(ctx: PhragmenModelConfig, rest: Slate, name: Account)
    requires exists j :: 0 <= j < |rest| && rest[j].0 == name
    ensures exists j :: 0 <= j < |rest| && ctx.WeighAll(rest)[j].0 == name
    ensures FirstNamed(ctx.WeighAll(rest), name) == FirstNamed(rest, name)
  {
    assert ctx.WeighAll(rest)[FirstNamed(rest, name)].0 == name;
    var i, j := FirstNamed(ctx.WeighAll(rest), name), FirstNamed(rest, name);
    assert rest[i].0 == name;
  }

  lemma {:induction false} SameBackers(ctx: PhragmenModelConfig, slate: Slate)
    ensures ZeroLoad(ctx.WeighAll(slate)) == ZeroLoad(slate)
  {
    var weighed := ctx.WeighAll(slate);
    forall backer
      ensures backer in Backers(weighed) <==> backer in Backers(slate)
    {
      if backer in Backers(weighed) {
        var i, j :| 0 <= i < |weighed| && 0 <= j < |weighed[i].1| && weighed[i].1[j].0 == backer;
        assert slate[i].1[j].0 == backer;
      }
      if backer in Backers(slate) {
        var i, j :| 0 <= i < |slate| && 0 <= j < |slate[i].1| && slate[i].1[j].0 == backer;
        assert weighed[i].1[j].0 == backer;
      }
    }
  }

  lemma {:induction false} WeighRemoved(ctx: PhragmenModelConfig, rest: Slate, i: nat)
    requires i < |rest|
    ensures ctx.WeighAll(Remove(rest, i)) == Remove(ctx.WeighAll(rest), i)
  {
  }

  /** One turn of the loop: the next name, who is left, and the loads with its backers charged. */
  method RankNext(ctx: PhragmenModelConfig, load: map<Account, nat>, remaining: Slate)
      returns (name: Account, left: Slate, charged: map<Account, nat>)
    requires remaining != [] && Covers(load, remaining)
    ensures Covers(charged, left) && |left| == |remaining| - 1
    ensures forall s: State :: s.rest == ctx.WeighAll(remaining) && s.load == load ==>
              var s' := Round(s);
              s'.rest == ctx.WeighAll(left) && s'.load == charged && s'.ranking == s.ranking + [name]
  {
    var best := PickBest(ctx, load, remaining);
    name := remaining[best].0;
    var chosen := FirstNamed(remaining, name);
    var votes := remaining[chosen].1;
    SameFirst(ctx, remaining, name);
    ChargedKeys(load, ctx.Weigh(votes));
    WeighRemoved(ctx, remaining, chosen);
    charged := ChargeBackers(ctx, load, votes);
    left := Remove(remaining, chosen);
  }

  method PhragmenModel(ctx: PhragmenModelConfig, input: Slate) returns (ranking: seq<Account>)
    ensures ranking == Ranking(ctx.WeighAll(input))
  {
    var remaining := input;
    var load := NoLoads(input);
    SameBackers(ctx, input);
    ranking := [];
    ghost var s := After(ctx.WeighAll(input), 0);
    while remaining != []
      invariant |ranking| + |remaining| == |input|
      invariant s == After(ctx.WeighAll(input), |ranking|)
      invariant s.rest == ctx.WeighAll(remaining) && s.load == load && s.ranking == ranking
      invariant Covers(load, remaining)
      decreases |remaining|
    {
      var name, left, charged := RankNext(ctx, load, remaining);
      s := Round(s);
      remaining, load, ranking := left, charged, ranking + [name];
    }
  }

  // ---------------------------------------------------------------------------
  // Max-min load
  // ---------------------------------------------------------------------------

  method PlainLoad(load: map<Account, nat>, votes: Votes) returns (maxLoad: nat)
    requires CoversVotes(load, votes)
    ensures maxLoad == Key(load, votes)
  {
    maxLoad := 0;
    for j := 0 to |votes|
      invariant maxLoad == Key(load, votes[..j])
    {
      assert votes[..j + 1][..j] == votes[..j];
      var newLoad := load[votes[j].0] + votes[j].1;
      if newLoad > maxLoad {
        maxLoad := newLoad;
      }
    }
    assert votes[..|votes|] == votes;
  }

  method PickLeastLoaded(load: map<Account, nat>, remaining: Slate) returns (best: nat)
    requires remaining != [] && Covers(load, remaining)
    ensures best == Best(load, remaining)
  {
    best := 0;
    var minMaxLoad: Option<nat> := None;
    for i := 0 to |remaining|
      invariant i > 0 ==> best == Best(load, remaining[..i])
      invariant minMaxLoad == if i == 0 then None else Some(Key(load, remaining[best].1))
    {
      assert remaining[..i + 1][..i] == remaining[..i];
      var maxLoad := PlainLoad(load, remaining[i].1);
      if minMaxLoad.None? || maxLoad < minMaxLoad.value {
        best, minMaxLoad := i, Some(maxLoad);
      }
    }
    assert remaining[..|remaining|] == remaining;
  }

  method AddPlainLoads(load: map<Account, nat>, votes: Votes) returns (charged: map<Account, nat>)
    ensures charged == Charge(load, votes)
  {
    charged := load;
    for j := 0 to |votes|
      invariant charged == Charge(load, votes[..j])
    {
      assert votes[..j + 1][..j] == votes[..j];
      charged := charged[votes[j].0 := LoadOf(charged, votes[j].0) + votes[j].1];
    }
    assert votes[..|votes|] == votes;
  }

  /** One turn of the loop. */
  method RankLeastLoaded(load: map<Account, nat>, remaining: Slate)
      returns (name: Account, left: Slate, charged: map<Account, nat>)
    requires remaining != [] && Covers(load, remaining)
    ensures Covers(charged, left) && |left| == |remaining| - 1
    ensures forall s: State :: s.rest == remaining && s.load == load ==>
              var s' := Round(s);
              s'.rest == left && s'.load == charged && s'.ranking == s.ranking + [name]
  {
    var best := PickLeastLoaded(load, remaining);
    name := remaining[best].0;
    var chosen := FirstNamed(remaining, name);
    var votes := remaining[chosen].1;
    ChargedKeys(load, votes);
    charged := AddPlainLoads(load, votes);
    left := Remove(remaining, chosen);
  }

  method MaxMinLoadModel(input: Slate) returns (ranking: seq<Account>)
    ensures ranking == Ranking(input)
  {
    var remaining := input;
    var load := NoLoads(input);
    ranking := [];
    ghost var s := After(input, 0);
    while remaining != []
      invariant |ranking| + |remaining| == |input|
      invariant s == After(input, |ranking|)
      invariant s.rest == remaining && s.load == load && s.ranking == ranking
      invariant Covers(load, remaining)
      decreases |remaining|
    {
      var name, left, charged := RankLeastLoaded(load, remaining);
      s := Round(s);
      remaining, load, ranking := left, charged, ranking + [name];
    }
  }
}
