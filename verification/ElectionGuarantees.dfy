/** What the load-balancing ranking promises: a permutation, chosen greedily, fair in loads, blind to scale. */
module ElectionGuarantees {
  import opened Wrappers
  import opened LoadBalancing

  function Names(slate: Slate): (r: seq<Account>)
    ensures |r| == |slate|
  {
    seq(|slate|, i requires 0 <= i < |slate| => slate[i].0)
  }

  predicate UniqueNames(slate: Slate) {
    forall i, j :: 0 <= i < j < |slate| ==> slate[i].0 != slate[j].0
  }

  // ---------------------------------------------------------------------------
  // Permutation
  // ---------------------------------------------------------------------------

  lemma {:induction false} RemoveSplits(s: seq<Account>, i: nat)
    requires i < |s|
    ensures multiset(s) == multiset(Remove(s, i)) + multiset{s[i]}
  {
    assert s == s[..i] + [s[i]] + s[i + 1..];
  }

  lemma {:induction false} NamesOfRemove(rest: Slate, i: nat)
    requires i < |rest|
    ensures Names(Remove(rest, i)) == Remove(Names(rest), i)
  {
  }

  lemma {:induction false} RoundPermutes(s: State)
    requires s.rest != []
    ensures multiset(Round(s).ranking) + multiset(Names(Round(s).rest)) ==
            multiset(s.ranking) + multiset(Names(s.rest))
  {
    var name := s.rest[Best(s.load, s.rest)].0;
    var i := FirstNamed(s.rest, name);
    NamesOfRemove(s.rest, i);
    RemoveSplits(Names(s.rest), i);
  }

  lemma {:induction false} RoundsPermute(slate: Slate, t: nat)
    requires t <= |slate|
    ensures var s := After(slate, t);
            multiset(s.ranking) + multiset(Names(s.rest)) == multiset(Names(slate))
  {
    if t > 0 {
      RoundsPermute(slate, t - 1);
      RoundPermutes(After(slate, t - 1));
    }
  }

  /** Everybody is ranked once, under any names. */
  lemma {:induction false} RankingIsPermutation(slate: Slate)
    ensures multiset(Ranking(slate)) == multiset(Names(slate))
  {
    RoundsPermute(slate, |slate|);
    assert Names(After(slate, |slate|).rest) == [];
  }

  // ---------------------------------------------------------------------------
  // Keys never decrease
  // ---------------------------------------------------------------------------

  lemma {:induction false} BestIsFirstMinimal(load: map<Account, nat>, rest: Slate)
    requires rest != []
    ensures var best := Best(load, rest);
            forall i :: 0 <= i < |rest| ==>
              && Key(load, rest[best].1) <= Key(load, rest[i].1)
              && (i < best ==> Key(load, rest[best].1) < Key(load, rest[i].1))
  {
    if |rest| > 1 {
      var front := rest[..|rest| - 1];
      BestIsFirstMinimal(load, front);
      assert forall i :: 0 <= i < |front| ==> front[i] == rest[i];
    }
  }

  /** What a candidate's votes add to one backer. */
  function Contribution(votes: Votes, backer: Account): nat {
    if votes == [] then 0
    else
      var last := votes[|votes| - 1];
      Contribution(votes[..|votes| - 1], backer) + if last.0 == backer then last.1 else 0
  }

  lemma {:induction false} ChargeAdds(load: map<Account, nat>, votes: Votes, backer: Account)
    ensures LoadOf(Charge(load, votes), backer) == LoadOf(load, backer) + Contribution(votes, backer)
  {
    if votes != [] {
      ChargeAdds(load, votes[..|votes| - 1], backer);
    }
  }

  lemma {:induction false} KeyMono(load: map<Account, nat>, higher: map<Account, nat>, votes: Votes)
    requires forall backer :: LoadOf(load, backer) <= LoadOf(higher, backer)
    ensures Key(load, votes) <= Key(higher, votes)
  {
    if votes != [] {
      KeyMono(load, higher, votes[..|votes| - 1]);
    }
  }

  lemma {:induction false} RemoveKeepsMembers(rest: Slate, i: nat)
    requires i < |rest|
    ensures forall e :: e in Remove(rest, i) ==> e in rest
  {
  }

  lemma {:induction false} LoadsGrow(load: map<Account, nat>, votes: Votes)
    ensures forall backer :: LoadOf(load, backer) <= LoadOf(Charge(load, votes), backer)
  {
    forall backer
      ensures LoadOf(load, backer) <= LoadOf(Charge(load, votes), backer)
    {
      ChargeAdds(load, votes, backer);
    }
  }

  /** Everybody in `rest` imposes at least `key`. */
  predicate AtLeast(load: map<Account, nat>, rest: Slate, key: nat) {
    forall e :: e in rest ==> key <= Key(load, e.1)
  }

  /** Charging some backers and dropping a candidate keeps a lower bound of the keys. */
  lemma {:induction false} AtLeastKept(load: map<Account, nat>, rest: Slate, key: nat, chosen: nat)
    requires chosen < |rest| && AtLeast(load, rest, key)
    ensures AtLeast(Charge(load, rest[chosen].1), Remove(rest, chosen), key)
  {
    var charged := Charge(load, rest[chosen].1);
    LoadsGrow(load, rest[chosen].1);
    RemoveKeepsMembers(rest, chosen);
    forall e | e in Remove(rest, chosen)
      ensures key <= Key(charged, e.1)
    {
      KeyMono(load, charged, e.1);
    }
  }

  /** A round adds a key that nobody undercuts, before or after it. */
  lemma {:induction false} RoundRaisesKeys(s: State)
    requires s.rest != []
    ensures var s', key := Round(s), Key(s.load, s.rest[Best(s.load, s.rest)].1);
            s'.keys == s.keys + [key] && AtLeast(s.load, s.rest, key) && AtLeast(s'.load, s'.rest, key)
  {
    var best := Best(s.load, s.rest);
    BestIsFirstMinimal(s.load, s.rest);
    AtLeastKept(s.load, s.rest, Key(s.load, s.rest[best].1), FirstNamed(s.rest, s.rest[best].0));
  }

  /** The keys so far rise, and whoever is left imposes at least the last of them. */
  predicate Rising(s: State) {
    && (forall i, j :: 0 <= i <= j < |s.keys| ==> s.keys[i] <= s.keys[j])
    && (s.keys != [] ==> AtLeast(s.load, s.rest, s.keys[|s.keys| - 1]))
  }

  lemma {:induction false} AppendRising(keys: seq<nat>, key: nat)
    requires forall i, j :: 0 <= i <= j < |keys| ==> keys[i] <= keys[j]
    requires keys != [] ==> keys[|keys| - 1] <= key
    ensures forall i, j :: 0 <= i <= j < |keys + [key]| ==> (keys + [key])[i] <= (keys + [key])[j]
  {
  }

  lemma {:induction false} RoundKeepsRising(s: State)
    requires s.rest != [] && Rising(s)
    ensures Rising(Round(s))
  {
    var best := Best(s.load, s.rest);
    RoundRaisesKeys(s);
    assert s.rest[best] in s.rest;
    AppendRising(s.keys, Key(s.load, s.rest[best].1));
  }

  lemma {:induction false} RoundsKeepRising(slate: Slate, t: nat)
    requires t <= |slate|
    ensures Rising(After(slate, t)) && |After(slate, t).keys| == t
  {
    if t > 0 {
      RoundsKeepRising(slate, t - 1);
      RoundKeepsRising(After(slate, t - 1));
    }
  }

  /** The loads imposed by successive choices never decrease. */
  lemma {:induction false} KeysNeverDecrease(slate: Slate, i: nat, j: nat)
    requires i <= j < |slate|
    ensures |After(slate, |slate|).keys| == |slate|
    ensures After(slate, |slate|).keys[i] <= After(slate, |slate|).keys[j]
  {
    RoundsKeepRising(slate, |slate|);
  }

  // ---------------------------------------------------------------------------
  // The greedy choice, stated from the ranking alone
  // ---------------------------------------------------------------------------

  /** The candidates of the slate not among the picked, in the order of the slate. */
  function Unranked(slate: Slate, picked: seq<Account>): Slate {
    if slate == [] then []
    else
      var last := slate[|slate| - 1];
      Unranked(slate[..|slate| - 1], picked) + if last.0 in picked then [] else [last]
  }

  function VotesOf(slate: Slate, name: Account): Votes {
    if slate == [] then []
    else if slate[|slate| - 1].0 == name then slate[|slate| - 1].1
    else VotesOf(slate[..|slate| - 1], name)
  }

  /** What a backer bears once the picked candidates are elected. */
  function Borne(slate: Slate, picked: seq<Account>, backer: Account): nat {
    if picked == [] then 0
    else
      Borne(slate, picked[..|picked| - 1], backer)
      + Contribution(VotesOf(slate, picked[|picked| - 1]), backer)
  }

  /** The maximal load electing a candidate next would impose on one of its backers. */
  function Imposed(slate: Slate, picked: seq<Account>, votes: Votes): nat {
    if votes == [] then 0
    else
      var (backer, backed) := votes[|votes| - 1];
      Max(Imposed(slate, picked, votes[..|votes| - 1]), Borne(slate, picked, backer) + backed)
  }

  /** Position `t` holds the first of the unranked candidates that impose the least. */
  ghost predicate GreedyAt(slate: Slate, ranking: seq<Account>, t: nat)
    requires t < |ranking|
  {
    var picked := ranking[..t];
    var rest := Unranked(slate, picked);
    exists p :: 0 <= p < |rest| && rest[p].0 == ranking[t] && FirstLeast(slate, picked, rest, p)
  }

  predicate FirstLeast(slate: Slate, picked: seq<Account>, rest: Slate, p: nat)
    requires p < |rest|
  {
    forall q :: 0 <= q < |rest| ==>
      && Imposed(slate, picked, rest[p].1) <= Imposed(slate, picked, rest[q].1)
      && (q < p ==> Imposed(slate, picked, rest[p].1) < Imposed(slate, picked, rest[q].1))
  }

  /** The state holds exactly the unranked candidates and the loads the ranked ones put on their backers. */
  ghost predicate Tracks(slate: Slate, s: State) {
    && s.rest == Unranked(slate, s.ranking)
    && forall backer :: LoadOf(s.load, backer) == Borne(slate, s.ranking, backer)
  }

  lemma {:induction false} KeyIsImposed(slate: Slate, s: State, votes: Votes)
    requires forall backer :: LoadOf(s.load, backer) == Borne(slate, s.ranking, backer)
    ensures Key(s.load, votes) == Imposed(slate, s.ranking, votes)
  {
    if votes != [] {
      KeyIsImposed(slate, s, votes[..|votes| - 1]);
      var backer := votes[|votes| - 1].0;
      assert LoadOf(s.load, backer) == Borne(slate, s.ranking, backer);
    }
  }

  lemma {:induction false} UnrankedEntry(slate: Slate, picked: seq<Account>, p: nat)
    requires UniqueNames(slate) && p < |Unranked(slate, picked)|
    ensures var e := Unranked(slate, picked)[p];
            e in slate && e.0 !in picked && VotesOf(slate, e.0) == e.1
  {
    var front := slate[..|slate| - 1];
    var before := Unranked(front, picked);
    if p < |before| {
      assert UniqueNames(front);
      UnrankedEntry(front, picked, p);
      var i :| 0 <= i < |front| && front[i] == before[p];
      assert slate[i].0 == before[p].0;
    }
  }

  lemma {:induction false} UnrankedDistinct(slate: Slate, picked: seq<Account>)
    requires UniqueNames(slate)
    ensures UniqueNames(Unranked(slate, picked))
  {
    if slate != [] {
      var front := slate[..|slate| - 1];
      assert UniqueNames(front);
      UnrankedDistinct(front, picked);
      var before := Unranked(front, picked);
      forall p | 0 <= p < |before|
        ensures before[p].0 != slate[|slate| - 1].0
      {
        UnrankedEntry(front, picked, p);
        var i :| 0 <= i < |front| && front[i] == before[p];
        assert slate[i].0 == before[p].0;
      }
    }
  }

  lemma {:induction false} UnrankedIgnores(slate: Slate, picked: seq<Account>, name: Account)
    requires forall i :: 0 <= i < |slate| ==> slate[i].0 != name
    ensures Unranked(slate, picked + [name]) == Unranked(slate, picked)
  {
    if slate != [] {
      UnrankedIgnores(slate[..|slate| - 1], picked, name);
    }
  }

  /** Ranking one more candidate removes it and keeps the order of the others. */
  lemma {:induction false} UnrankedRemoves(slate: Slate, picked: seq<Account>, p: nat)
    requires UniqueNames(slate) && p < |Unranked(slate, picked)|
    ensures Unranked(slate, picked + [Unranked(slate, picked)[p].0]) == Remove(Unranked(slate, picked), p)
  {
    var front, last := slate[..|slate| - 1], slate[|slate| - 1];
    var before := Unranked(front, picked);
    if p < |before| {
      UnrankedRemoves(front, picked, p);
      UnrankedEntry(front, picked, p);
      if last.0 !in picked {
        assert Remove(before + [last], p) == Remove(before, p) + [last];
      }
    } else {
      UnrankedIgnores(front, picked, last.0);
      assert Remove(before + [last], p) == before;
    }
  }

  lemma {:induction false} FirstNamedIsIt(rest: Slate, p: nat)
    requires UniqueNames(rest) && p < |rest|
    ensures FirstNamed(rest, rest[p].0) == p
  {
    var i := FirstNamed(rest, rest[p].0);
  }

  /** With distinct names a round removes and charges the candidate it ranks. */
  lemma {:induction false} RoundTracks(slate: Slate, s: State)
    requires UniqueNames(slate) && Tracks(slate, s) && s.rest != []
    ensures Tracks(slate, Round(s))
  {
    var p, s' := Best(s.load, s.rest), Round(s);
    var name, votes := s.rest[p].0, s.rest[p].1;
    UnrankedDistinct(slate, s.ranking);
    FirstNamedIsIt(s.rest, p);
    UnrankedRemoves(slate, s.ranking, p);
    UnrankedEntry(slate, s.ranking, p);
    forall backer
      ensures LoadOf(s'.load, backer) == Borne(slate, s'.ranking, backer)
    {
      ChargeAdds(s.load, votes, backer);
      assert s'.ranking[..|s.ranking|] == s.ranking;
    }
  }

  lemma {:induction false} UnrankedAll(slate: Slate)
    ensures Unranked(slate, []) == slate
  {
    if slate != [] {
      UnrankedAll(slate[..|slate| - 1]);
    }
  }

  /** After each round the loads are the summed contributions of the candidates ranked so far. */
  lemma {:induction false} RoundsTrack(slate: Slate, t: nat)
    requires UniqueNames(slate) && t <= |slate|
    ensures Tracks(slate, After(slate, t))
  {
    if t == 0 {
      UnrankedAll(slate);
    } else {
      RoundsTrack(slate, t - 1);
      RoundTracks(slate, After(slate, t - 1));
    }
  }

  lemma {:induction false} RoundAppends(s: State)
    requires s.rest != []
    ensures Round(s).ranking[..|s.ranking|] == s.ranking
  {
  }

  lemma {:induction false} OneMoreRound(slate: Slate, n: nat)
    requires 0 < n <= |slate|
    ensures After(slate, n).ranking[..n - 1] == After(slate, n - 1).ranking
  {
    RoundAppends(After(slate, n - 1));
  }

  lemma {:induction false} PrefixOfPrefix(target: seq<Account>, before: seq<Account>, after: seq<Account>)
    requires |target| <= |before| <= |after|
    requires before[..|target|] == target && after[..|before|] == before
    ensures after[..|target|] == target
  {
    assert after[..|target|] == after[..|before|][..|target|];
  }

  /** In a chain where each sequence extends the one before by one, every one starts with all earlier ones. */
  lemma {:induction false} ChainPrefix(chain: seq<seq<Account>>, t: nat, n: nat)
    requires t <= n < |chain| && forall i :: 0 <= i < |chain| ==> |chain[i]| == i
    requires forall i :: 0 < i < |chain| ==> chain[i][..i - 1] == chain[i - 1]
    ensures chain[n][..t] == chain[t]
  {
    if t < n {
      ChainPrefix(chain, t, n - 1);
      PrefixOfPrefix(chain[t], chain[n - 1], chain[n]);
    }
  }

  /** The rankings after each of the first `n` rounds. */
  lemma {:induction false} Rankings(slate: Slate, n: nat) returns (chain: seq<seq<Account>>)
    requires n <= |slate|
    ensures |chain| == n + 1
    ensures forall i :: 0 <= i < |chain| ==> chain[i] == After(slate, i).ranking && |chain[i]| == i
    ensures forall i :: 0 < i < |chain| ==> chain[i][..i - 1] == chain[i - 1]
  {
    if n == 0 {
      chain := [After(slate, 0).ranking];
    } else {
      chain := Rankings(slate, n - 1);
      OneMoreRound(slate, n);
      chain := chain + [After(slate, n).ranking];
    }
  }

  lemma {:induction false} RankingPrefix(slate: Slate, t: nat, n: nat)
    requires t <= n <= |slate|
    ensures After(slate, n).ranking[..t] == After(slate, t).ranking
  {
    var chain := Rankings(slate, n);
    ChainPrefix(chain, t, n);
  }

  lemma {:induction false} BestIsGreedy(slate: Slate, s: State)
    requires Tracks(slate, s) && s.rest != []
    ensures FirstLeast(slate, s.ranking, s.rest, Best(s.load, s.rest))
  {
    BestIsFirstMinimal(s.load, s.rest);
    forall q | 0 <= q < |s.rest|
      ensures Key(s.load, s.rest[q].1) == Imposed(slate, s.ranking, s.rest[q].1)
    {
      KeyIsImposed(slate, s, s.rest[q].1);
    }
  }

  lemma {:induction false} RankingIsGreedyAt(slate: Slate, t: nat)
    requires UniqueNames(slate) && t < |slate|
    ensures GreedyAt(slate, Ranking(slate), t)
  {
    var s := After(slate, t);
    RoundsTrack(slate, t);
    BestIsGreedy(slate, s);
    RankingPrefix(slate, t, |slate|);
    RankingPrefix(slate, t + 1, |slate|);
    assert Ranking(slate)[t] == After(slate, t + 1).ranking[t];
    var p := Best(s.load, s.rest);
    assert s.rest[p].0 == Ranking(slate)[t];
  }

  lemma {:induction false} LeastIsUnique(slate: Slate, picked: seq<Account>, rest: Slate, p: nat, q: nat)
    requires p < |rest| && q < |rest| && FirstLeast(slate, picked, rest, p) && FirstLeast(slate, picked, rest, q)
    ensures p == q
  {
    assert Imposed(slate, picked, rest[p].1) == Imposed(slate, picked, rest[q].1);
  }

  lemma {:induction false} SameGreedyChoice(slate: Slate, one: seq<Account>, two: seq<Account>, t: nat)
    requires t < |one| && t < |two| && one[..t] == two[..t]
    requires GreedyAt(slate, one, t) && GreedyAt(slate, two, t)
    ensures one[..t + 1] == two[..t + 1]
  {
    var picked := one[..t];
    var rest := Unranked(slate, picked);
    var p :| 0 <= p < |rest| && rest[p].0 == one[t] && FirstLeast(slate, picked, rest, p);
    var q :| 0 <= q < |rest| && rest[q].0 == two[t] && FirstLeast(slate, picked, rest, q);
    LeastIsUnique(slate, picked, rest, p, q);
    assert one[..t + 1] == picked + [one[t]] && two[..t + 1] == picked + [two[t]];
  }

  lemma {:induction false} GreedyIsUnique(slate: Slate, one: seq<Account>, two: seq<Account>, t: nat)
    requires t <= |one| && t <= |two|
    requires forall i :: 0 <= i < t ==> GreedyAt(slate, one, i) && GreedyAt(slate, two, i)
    ensures one[..t] == two[..t]
  {
    if t > 0 {
      GreedyIsUnique(slate, one, two, t - 1);
      SameGreedyChoice(slate, one, two, t - 1);
    }
  }

  /**
   The greedy election. With distinct candidates the model's ranking is the one, and the only
   one, that at every position holds the first of the remaining candidates whose election
   imposes the least maximal load, loads being the summed contributions of those ranked before.
   */
  lemma {:induction false} GreedyIff(slate: Slate, ranking: seq<Account>)
    requires UniqueNames(slate) && |ranking| == |slate|
    ensures ranking == Ranking(slate) <==> forall t :: 0 <= t < |slate| ==> GreedyAt(slate, ranking, t)
  {
    forall t | 0 <= t < |slate|
      ensures GreedyAt(slate, Ranking(slate), t)
    {
      RankingIsGreedyAt(slate, t);
    }
    if forall t :: 0 <= t < |slate| ==> GreedyAt(slate, ranking, t) {
      GreedyIsUnique(slate, ranking, Ranking(slate), |slate|);
      assert ranking[..|slate|] == ranking && Ranking(slate)[..|slate|] == Ranking(slate);
    }
  }

  // ---------------------------------------------------------------------------
  // The last key is the largest load
  // ---------------------------------------------------------------------------

  /** `key` is the largest load, or zero where nobody bears anything. */
  ghost predicate LargestLoad(load: map<Account, nat>, key: nat) {
    && (forall backer :: LoadOf(load, backer) <= key)
    && (key == 0 || exists backer :: LoadOf(load, backer) == key)
  }

  lemma {:induction false} NotABacker(votes: Votes, backer: Account)
    requires forall i :: 0 <= i < |votes| ==> votes[i].0 != backer
    ensures Contribution(votes, backer) == 0
  {
    if votes != [] {
      NotABacker(votes[..|votes| - 1], backer);
    }
  }

  /** No backer named by the votes is charged beyond the key they are scored by. */
  predicate WithinKey(load: map<Account, nat>, votes: Votes) {
    forall i :: 0 <= i < |votes| ==>
      LoadOf(load, votes[i].0) + Contribution(votes, votes[i].0) <= Key(load, votes)
  }

  /** Some entry gives the key, and a backer is charged at least any one entry. */
  lemma {:induction false} KeyEntry(load: map<Account, nat>, votes: Votes)
    requires Key(load, votes) > 0
    ensures exists i :: 0 <= i < |votes| && LoadOf(load, votes[i].0) + votes[i].1 == Key(load, votes)
  {
    var front, last := votes[..|votes| - 1], votes[|votes| - 1];
    if Key(load, votes) == LoadOf(load, last.0) + last.1 {
      assert votes[|votes| - 1] == last;
    } else {
      KeyEntry(load, front);
      var i :| 0 <= i < |front| && LoadOf(load, front[i].0) + front[i].1 == Key(load, front);
      assert votes[i] == front[i];
    }
  }

  lemma {:induction false} ChargedAnEntry(votes: Votes, i: nat)
    requires i < |votes|
    ensures Contribution(votes, votes[i].0) >= votes[i].1
  {
    if i < |votes| - 1 {
      ChargedAnEntry(votes[..|votes| - 1], i);
    }
  }

  /** Where nobody bore more than the key, charging makes it the largest load exactly when all stay within it. */
  lemma {:induction false} ChargeSetsLargestIff(load: map<Account, nat>, votes: Votes)
    requires forall backer :: LoadOf(load, backer) <= Key(load, votes)
    ensures LargestLoad(Charge(load, votes), Key(load, votes)) <==> WithinKey(load, votes)
  {
    var charged, key := Charge(load, votes), Key(load, votes);
    forall backer
      ensures LoadOf(charged, backer) == LoadOf(load, backer) + Contribution(votes, backer)
    {
      ChargeAdds(load, votes, backer);
    }
    if WithinKey(load, votes) {
      forall backer
        ensures LoadOf(charged, backer) <= key
      {
        if forall i :: 0 <= i < |votes| ==> votes[i].0 != backer {
          NotABacker(votes, backer);
        }
      }
      if key > 0 {
        KeyEntry(load, votes);
        var i :| 0 <= i < |votes| && LoadOf(load, votes[i].0) + votes[i].1 == key;
        ChargedAnEntry(votes, i);
        assert LoadOf(charged, votes[i].0) == key;
      }
    }
  }

  /** The candidate at position `t` charges no backer, over all its entries, beyond the load it was chosen by. */
  ghost predicate ChargesWithin(slate: Slate, ranking: seq<Account>, t: nat)
    requires t < |ranking|
  {
    var picked, votes := ranking[..t], VotesOf(slate, ranking[t]);
    forall i :: 0 <= i < |votes| ==>
      Borne(slate, picked, votes[i].0) + Contribution(votes, votes[i].0) <= Imposed(slate, picked, votes)
  }

  /** With distinct names a round charges the votes it was chosen by. */
  lemma {:induction false} RoundCharges(slate: Slate, s: State)
    requires UniqueNames(slate) && Tracks(slate, s) && s.rest != []
    ensures var votes := s.rest[Best(s.load, s.rest)].1;
            && Round(s).load == Charge(s.load, votes)
            && Round(s).keys == s.keys + [Key(s.load, votes)]
            && votes == VotesOf(slate, s.rest[Best(s.load, s.rest)].0)
  {
    UnrankedDistinct(slate, s.ranking);
    FirstNamedIsIt(s.rest, Best(s.load, s.rest));
    UnrankedEntry(slate, s.ranking, Best(s.load, s.rest));
  }

  lemma {:induction false} WithinKeyIff(slate: Slate, s: State, votes: Votes)
    requires forall backer :: LoadOf(s.load, backer) == Borne(slate, s.ranking, backer)
    ensures WithinKey(s.load, votes) <==>
            forall i :: 0 <= i < |votes| ==>
              Borne(slate, s.ranking, votes[i].0) + Contribution(votes, votes[i].0) <= Imposed(slate, s.ranking, votes)
  {
    KeyIsImposed(slate, s, votes);
  }

  /** Position `t` of the ranking is what round `t` appended. */
  lemma {:induction false} RankedAt(slate: Slate, t: nat)
    requires t < |slate|
    ensures var s := After(slate, t);
            Ranking(slate)[..t] == s.ranking && Ranking(slate)[t] == s.rest[Best(s.load, s.rest)].0
  {
    RankingPrefix(slate, t, |slate|);
    RankingPrefix(slate, t + 1, |slate|);
    assert Ranking(slate)[t] == Ranking(slate)[..t + 1][t];
  }

  lemma {:induction false} ChargesWithinAt(slate: Slate, s: State, ranking: seq<Account>, t: nat)
    requires UniqueNames(slate) && Tracks(slate, s) && s.rest != [] && t < |ranking|
    requires ranking[..t] == s.ranking && ranking[t] == s.rest[Best(s.load, s.rest)].0
    ensures ChargesWithin(slate, ranking, t) <==> WithinKey(s.load, s.rest[Best(s.load, s.rest)].1)
  {
    RoundCharges(slate, s);
    WithinKeyIff(slate, s, s.rest[Best(s.load, s.rest)].1);
  }

  lemma {:induction false} ChargesWithinIff(slate: Slate, t: nat)
    requires UniqueNames(slate) && t < |slate|
    ensures var s := After(slate, t);
            ChargesWithin(slate, Ranking(slate), t) <==> WithinKey(s.load, s.rest[Best(s.load, s.rest)].1)
  {
    RankedAt(slate, t);
    RoundsTrack(slate, t);
    ChargesWithinAt(slate, After(slate, t), Ranking(slate), t);
  }

  /** Nobody bears more than the key of the choice, if the last key was the largest load. */
  lemma {:induction false} NobodyBeyondKey(slate: Slate, t: nat)
    requires t < |slate| && (t > 0 ==> LargestAfter(slate, t))
    ensures var s := After(slate, t);
            forall backer :: LoadOf(s.load, backer) <= Key(s.load, s.rest[Best(s.load, s.rest)].1)
  {
    var s := After(slate, t);
    RoundsKeepRising(slate, t);
    assert s.rest[Best(s.load, s.rest)] in s.rest;
  }

  /** The last key is the largest load anybody bears after round `t`. */
  ghost predicate LargestAfter(slate: Slate, t: nat)
    requires 0 < t <= |slate|
  {
    LargestLoad(After(slate, t).load, After(slate, t).keys[t - 1])
  }

  lemma {:induction false} AfterCharges(slate: Slate, t: nat)
    requires UniqueNames(slate) && t < |slate|
    ensures var s := After(slate, t);
            var votes := s.rest[Best(s.load, s.rest)].1;
            LargestAfter(slate, t + 1) <==> LargestLoad(Charge(s.load, votes), Key(s.load, votes))
  {
    RoundsTrack(slate, t);
    RoundCharges(slate, After(slate, t));
  }

  lemma {:induction false} LargestAfterIff(slate: Slate, t: nat)
    requires UniqueNames(slate) && t < |slate| && (t > 0 ==> LargestAfter(slate, t))
    ensures LargestAfter(slate, t + 1) <==> ChargesWithin(slate, Ranking(slate), t)
  {
    var s := After(slate, t);
    AfterCharges(slate, t);
    NobodyBeyondKey(slate, t);
    ChargeSetsLargestIff(s.load, s.rest[Best(s.load, s.rest)].1);
    ChargesWithinIff(slate, t);
  }

  lemma {:induction false} LargestWhileWithin(slate: Slate, t: nat)
    requires UniqueNames(slate) && 0 < t <= |slate|
    requires forall i :: 0 <= i < t ==> ChargesWithin(slate, Ranking(slate), i)
    ensures LargestAfter(slate, t)
  {
    if t > 1 {
      LargestWhileWithin(slate, t - 1);
    }
    LargestAfterIff(slate, t - 1);
  }

  /**
   With distinct candidates the last key is the largest load after every round exactly when no
   elected candidate, over all its entries for a backer, charges beyond the load it was chosen by.
   */
  lemma {:induction false} LastKeyIsLargestIff(slate: Slate)
    requires UniqueNames(slate)
    ensures (forall t :: 0 < t <= |slate| ==> LargestAfter(slate, t)) <==>
            (forall t :: 0 <= t < |slate| ==> ChargesWithin(slate, Ranking(slate), t))
  {
    if forall t :: 0 < t <= |slate| ==> LargestAfter(slate, t) {
      forall t | 0 <= t < |slate|
        ensures ChargesWithin(slate, Ranking(slate), t)
      {
        assert LargestAfter(slate, t + 1);
        LargestAfterIff(slate, t);
      }
    }
    if forall t :: 0 <= t < |slate| ==> ChargesWithin(slate, Ranking(slate), t) {
      forall t | 0 < t <= |slate|
        ensures LargestAfter(slate, t)
      {
        LargestWhileWithin(slate, t);
      }
    }
  }

  /** At most one entry for a backer contributes anything. */
  predicate OneEntryEach(votes: Votes) {
    forall i, j :: 0 <= i < j < |votes| && votes[i].0 == votes[j].0 ==> votes[i].1 == 0 || votes[j].1 == 0
  }

  lemma {:induction false} EntryWithinKey(load: map<Account, nat>, votes: Votes, i: nat)
    requires i < |votes|
    ensures LoadOf(load, votes[i].0) + votes[i].1 <= Key(load, votes)
  {
    if i < |votes| - 1 {
      EntryWithinKey(load, votes[..|votes| - 1], i);
    }
  }

  /** A backer with one contributing entry is charged that entry, or nothing. */
  lemma {:induction false} ChargedOneEntry(votes: Votes, backer: Account)
    requires OneEntryEach(votes)
    ensures Contribution(votes, backer) == 0 ||
            exists i :: 0 <= i < |votes| && votes[i].0 == backer && votes[i].1 == Contribution(votes, backer)
  {
    if votes != [] {
      var front, last := votes[..|votes| - 1], votes[|votes| - 1];
      ChargedOneEntry(front, backer);
      if Contribution(front, backer) != 0 {
        var i :| 0 <= i < |front| && front[i].0 == backer && front[i].1 == Contribution(front, backer);
        assert votes[i] == front[i];
      } else if last.0 == backer {
        assert votes[|votes| - 1] == last;
      }
    }
  }

  lemma {:induction false} OneEntryWithinKey(load: map<Account, nat>, votes: Votes)
    requires OneEntryEach(votes)
    ensures WithinKey(load, votes)
  {
    forall i | 0 <= i < |votes|
      ensures LoadOf(load, votes[i].0) + Contribution(votes, votes[i].0) <= Key(load, votes)
    {
      var backer := votes[i].0;
      ChargedOneEntry(votes, backer);
      if Contribution(votes, backer) == 0 {
        EntryWithinKey(load, votes, i);
      } else {
        var j :| 0 <= j < |votes| && votes[j].0 == backer && votes[j].1 == Contribution(votes, backer);
        EntryWithinKey(load, votes, j);
      }
    }
  }

  lemma {:induction false} ChargedTwoEntries(votes: Votes, i: nat, j: nat)
    requires i < |votes| && j < |votes| && i != j && votes[i].0 == votes[j].0
    ensures Contribution(votes, votes[i].0) >= votes[i].1 + votes[j].1
  {
    var last := |votes| - 1;
    if i < last && j < last {
      ChargedTwoEntries(votes[..last], i, j);
    } else {
      ChargedAnEntry(votes[..last], if i == last then j else i);
    }
  }

  /** Where the backer of two contributing entries already bears the most, it is charged beyond the key. */
  lemma {:induction false} TwoEntriesBeyondKey(votes: Votes, i: nat, j: nat)
    requires i < j < |votes| && votes[i].0 == votes[j].0 && votes[i].1 != 0 && votes[j].1 != 0
    ensures !WithinKey(map[votes[i].0 := Key(map[], votes)], votes)
  {
    var backer, most := votes[i].0, Key(map[], votes);
    var load: map<Account, nat> := map[backer := most];
    EntryWithinKey(load, votes, i);
    KeyEntry(load, votes);
    var k :| 0 <= k < |votes| && LoadOf(load, votes[k].0) + votes[k].1 == Key(load, votes);
    ChargedTwoEntries(votes, i, j);
    if votes[k].0 == backer {
      ChargedTwoEntries(votes, k, if k == i then j else i);
    } else {
      EntryWithinKey(map[], votes, k);
    }
    assert LoadOf(load, votes[i].0) + Contribution(votes, votes[i].0) > Key(load, votes);
  }

  /** Votes that never charge beyond their key, whatever has been borne before, are those with one entry each. */
  lemma {:induction false} OneEntryIff(votes: Votes)
    ensures OneEntryEach(votes) <==> forall load: map<Account, nat> :: WithinKey(load, votes)
  {
    if OneEntryEach(votes) {
      forall load: map<Account, nat>
        ensures WithinKey(load, votes)
      {
        OneEntryWithinKey(load, votes);
      }
    } else {
      var i, j :| 0 <= i < j < |votes| && votes[i].0 == votes[j].0 && votes[i].1 != 0 && votes[j].1 != 0;
      TwoEntriesBeyondKey(votes, i, j);
    }
  }

  /** No candidate is named twice, and no backer contributes twice to one candidate. */
  predicate WellFormed(slate: Slate) {
    UniqueNames(slate) && forall i :: 0 <= i < |slate| ==> OneEntryEach(slate[i].1)
  }

  lemma {:induction false} WellFormedWithin(slate: Slate, t: nat)
    requires WellFormed(slate) && t < |slate|
    ensures ChargesWithin(slate, Ranking(slate), t)
  {
    var s := After(slate, t);
    RoundsTrack(slate, t);
    UnrankedEntry(slate, s.ranking, Best(s.load, s.rest));
    OneEntryWithinKey(s.load, s.rest[Best(s.load, s.rest)].1);
    ChargesWithinIff(slate, t);
  }

  /** After each round of a well-formed election the last key is the largest load anybody bears. */
  lemma {:induction false} LastKeyIsLargestLoad(slate: Slate, t: nat)
    requires WellFormed(slate) && 0 < t <= |slate|
    ensures var s := After(slate, t);
            |s.keys| == t && LargestLoad(s.load, s.keys[t - 1])
  {
    forall i | 0 <= i < t
      ensures ChargesWithin(slate, Ranking(slate), i)
    {
      WellFormedWithin(slate, i);
    }
    LargestWhileWithin(slate, t);
  }

  lemma {:induction false} OneVote(load: map<Account, nat>, backer: Account, backed: nat)
    ensures Key(load, [(backer, backed)]) == LoadOf(load, backer) + backed
    ensures Charge(load, [(backer, backed)]) == load[backer := LoadOf(load, backer) + backed]
  {
    var votes: Votes := [(backer, backed)];
    assert votes[..0] == [];
  }

  /** A candidate naming one backer twice is scored by the larger entry but charged both. */
  lemma {:induction false} DuplicateBackerOutgrowsKey()
    ensures var s := After([(7, [(1, 5), (1, 5)])], 1);
            s.keys == [5] && LoadOf(s.load, 1) == 10
  {
    var votes: Votes := [(1, 5), (1, 5)];
    var slate: Slate := [(7, votes)];
    assert votes[..1] == [(1, 5)];
    OneVote(ZeroLoad(slate), 1, 5);
    assert Best(ZeroLoad(slate), slate) == 0;
    assert FirstNamed(slate, slate[0].0) == 0;
  }

  /** Two candidates under one name: the cheaper is chosen, the first is removed and charged. */
  lemma {:induction false} DuplicateNameChargesTheFirst()
    ensures var s := After([(7, [(1, 5)]), (7, [(1, 2)])], 1);
            s.ranking == [7] && s.keys == [2] && LoadOf(s.load, 1) == 5
  {
    var slate: Slate := [(7, [(1, 5)]), (7, [(1, 2)])];
    var load := ZeroLoad(slate);
    OneVote(load, 1, 5);
    OneVote(load, 1, 2);
    assert slate[..1] == [(7, [(1, 5)])];
    assert Best(load, slate[..1]) == 0;
    assert Best(load, slate) == 1;
  }
}
