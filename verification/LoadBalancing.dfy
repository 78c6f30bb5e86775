/**
 The sequential load-balancing election as rounds over a state: in each round the candidate
 that imposes the smallest maximal load on its backers is ranked next, and its backers are
 charged.
 */
module LoadBalancing {
  import opened Wrappers

  /** Candidates and backers are only compared with each other. */
  type Account = nat

  type Votes = seq<(Account, nat)>

  type Slate = seq<(Account, Votes)>

  /** Who is left, what each backer bears, and the ranking so far with the load each choice imposed. */
  datatype State = State(rest: Slate, load: map<Account, nat>, ranking: seq<Account>, keys: seq<nat>)

  function LoadOf(load: map<Account, nat>, backer: Account): nat {
    if backer in load then load[backer] else 0
  }

  /** The maximal load a candidate would impose on a backer. */
  function Key(load: map<Account, nat>, votes: Votes): nat {
    if votes == [] then 0
    else
      var (backer, backed) := votes[|votes| - 1];
      Max(Key(load, votes[..|votes| - 1]), LoadOf(load, backer) + backed)
  }

  function Charge(load: map<Account, nat>, votes: Votes): map<Account, nat> {
    if votes == [] then load
    else
      var (backer, backed) := votes[|votes| - 1];
      var before := Charge(load, votes[..|votes| - 1]);
      before[backer := LoadOf(before, backer) + backed]
  }

  /** The first candidate of minimal key. */
  function Best(load: map<Account, nat>, rest: Slate): (i: nat)
    requires rest != []
    ensures i < |rest|
  {
    var last := |rest| - 1;
    if last == 0 then 0
    else
      var i := Best(load, rest[..last]);
      if Key(load, rest[last].1) < Key(load, rest[i].1) then last else i
  }

  /** The first entry under a name: entries are removed by name. */
  function FirstNamed(rest: Slate, name: Account): (i: nat)
    requires exists j :: 0 <= j < |rest| && rest[j].0 == name
    ensures i < |rest| && rest[i].0 == name
    ensures forall j :: 0 <= j < i ==> rest[j].0 != name
  {
    if rest[0].0 == name then 0 else 1 + FirstNamed(rest[1..], name)
  }

  function Remove<T>(s: seq<T>, i: nat): (r: seq<T>)
    requires i < |s|
    ensures |r| == |s| - 1
  {
    s[..i] + s[i + 1..]
  }

  function Round(s: State): (s': State)
    requires s.rest != []
    ensures |s'.rest| == |s.rest| - 1 && |s'.ranking| == |s.ranking| + 1 && |s'.keys| == |s.keys| + 1
  {
    var best := Best(s.load, s.rest);
    var name := s.rest[best].0;
    var chosen := FirstNamed(s.rest, name);
    State(Remove(s.rest, chosen),
          Charge(s.load, s.rest[chosen].1),
          s.ranking + [name],
          s.keys + [Key(s.load, s.rest[best].1)])
  }

  /** All backers named in the slate. */
  function Backers(slate: Slate): set<Account> {
    set i, j | 0 <= i < |slate| && 0 <= j < |slate[i].1| :: slate[i].1[j].0
  }

  function ZeroLoad(slate: Slate): map<Account, nat> {
    map backer | backer in Backers(slate) :: 0
  }

  /** No lookup of a backer in the slate can miss. */
  predicate Covers(load: map<Account, nat>, slate: Slate) {
    forall i :: 0 <= i < |slate| ==> CoversVotes(load, slate[i].1)
  }

  predicate CoversVotes(load: map<Account, nat>, votes: Votes) {
    forall j :: 0 <= j < |votes| ==> votes[j].0 in load
  }

  /** The state after `t` rounds. */
  function After(slate: Slate, t: nat): (s: State)
    requires t <= |slate|
    ensures |s.rest| == |slate| - t && |s.ranking| == |s.keys| == t
  {
    if t == 0 then State(slate, ZeroLoad(slate), [], [])
    else Round(After(slate, t - 1))
  }

  function Ranking(slate: Slate): (r: seq<Account>)
    ensures |r| == |slate|
  {
    After(slate, |slate|).ranking
  }
}
