/** What reached states and reports are, and that the share pool never breaks the model checker's invariant. */
module ExplorerGuarantees {
  import opened Wrappers
  import opened Exploration
  import FixedPoint
  import SharePool
  import PoolRuns
  import PoolSafety

  // ---------------------------------------------------------------------------
  // Reached states
  // ---------------------------------------------------------------------------

  /** The users a trace leaves with a receipt. */
  function Holders(trace: seq<Op>): set<nat> {
    if trace == [] then {}
    else
      var before := Holders(trace[..|trace| - 1]);
      match trace[|trace| - 1]
      case Deposit(user, _) => before + {user}
      case Withdraw(user) => before - {user}
      case _ => before
  }

  /** The lazy model moves exactly what it is asked to. */
  ghost predicate Echoes<L(!new), R(!new)>(lazy: LazyModel<L, R>) {
    && (forall l, amount :: lazy.deposit(l, amount).Ok? ==> lazy.deposit(l, amount).value.1 == amount)
    && (forall l, amount :: lazy.mint(l, amount).Ok? ==> lazy.mint(l, amount).value.1 == amount)
    && (forall l, amount :: lazy.reap(l, amount).Ok? ==> lazy.reap(l, amount).value.1 == amount)
  }

  lemma {:induction false} LastStep<L, M, R>(cfg: Config<L, M, R>, requests: seq<Op>)
    requires requests != [] && Replay(cfg, requests).Some?
    ensures var before := Replay(cfg, requests[..|requests| - 1]);
            && before.Some?
            && Step(cfg, before.value, requests[|requests| - 1]) == Next(Replay(cfg, requests).value)
  {
  }

  /** A trace is as long as its run, and names the holders of the receipts. */
  lemma {:induction false} ReplayRecords<L, M, R>(cfg: Config<L, M, R>, requests: seq<Op>)
    requires Replay(cfg, requests).Some?
    ensures var s := Replay(cfg, requests).value;
            |s.trace| == |requests| && s.receipts.Keys == Holders(s.trace)
  {
    if requests != [] {
      LastStep(cfg, requests);
      var before := requests[..|requests| - 1];
      ReplayRecords(cfg, before);
      StepRecords(cfg, Replay(cfg, before).value, requests[|requests| - 1]);
    }
  }

  lemma {:induction false} StepRecords<L, M, R>(cfg: Config<L, M, R>, s: State<L, M, R>, op: Op)
    requires Step(cfg, s, op).Next? && s.receipts.Keys == Holders(s.trace)
    ensures var s' := Step(cfg, s, op).state;
            |s'.trace| == |s.trace| + 1 && s'.receipts.Keys == Holders(s'.trace)
  {
    var s' := Step(cfg, s, op).state;
    assert s'.trace[..|s.trace|] == s.trace;
  }

  /** Where the lazy model echoes its amounts the trace is the run: every reached state replays its trace. */
  lemma {:induction false} ReplaysItsTrace<L(!new), M, R(!new)>(cfg: Config<L, M, R>, requests: seq<Op>)
    requires Replay(cfg, requests).Some? && Echoes(cfg.lazy)
    ensures var s := Replay(cfg, requests).value;
            s.trace == requests && Replay(cfg, s.trace) == Some(s)
  {
    if requests != [] {
      LastStep(cfg, requests);
      var before := requests[..|requests| - 1];
      ReplaysItsTrace(cfg, before);
      EchoStep(cfg, Replay(cfg, before).value, requests[|requests| - 1]);
      assert requests == before + [requests[|requests| - 1]];
    }
  }

  lemma {:induction false} EchoStep<L(!new), M, R(!new)>(cfg: Config<L, M, R>, s: State<L, M, R>, op: Op)
    requires Echoes(cfg.lazy) && Step(cfg, s, op).Next?
    ensures Step(cfg, s, op).state.trace == s.trace + [op]
  {
  }

  // ---------------------------------------------------------------------------
  // Tolerance
  // ---------------------------------------------------------------------------

  function Distance(a: nat, b: nat): nat {
    if a < b then b - a else a - b
  }

  /** Two payments agree up to rounding, or relative to the larger one, or absolutely. */
  predicate WithinTolerance(a: nat, b: nat, bps: nat, allowed: nat) {
    Distance(a, b) <= 1 || Distance(a, b) * 10_000 <= Max(a, b) * bps || Distance(a, b) <= allowed
  }

  /** The products of the comparison are amounts the models can hold. */
  predicate ComparisonFits(a: nat, b: nat, bps: nat, largest: nat) {
    Distance(a, b) <= 1 || (Distance(a, b) * 10_000 <= largest && Max(a, b) * bps <= largest)
  }

  /**
   A withdrawal that both models grant stops the program exactly when the comparison overflows.
   Otherwise it enters the run exactly when the two payments are within tolerance, whichever is
   larger, and else is a drift, with the figures of the difference.
   */
  lemma {:induction false} DriftIffOutOfTolerance<L, M, R>(cfg: Config<L, M, R>, s: State<L, M, R>, user: nat)
    requires user in s.receipts && cfg.lazy.withdraw(s.lazy, s.receipts[user]).Ok?
    requires var paid := cfg.lazy.withdraw(s.lazy, s.receipts[user]).value.1;
             cfg.manual.withdraw(s.manual, user, paid).Some? && cfg.manual.withdraw(s.manual, user, paid).value.Ok?
    ensures var paid := cfg.lazy.withdraw(s.lazy, s.receipts[user]).value.1;
            var expected := cfg.manual.withdraw(s.manual, user, paid).value.value.1;
            var outcome := Step(cfg, s, Withdraw(user));
            && (outcome.Stopped? <==> !ComparisonFits(paid, expected, cfg.allowedBps, cfg.largest))
            && (outcome.Next? <==>
                  && ComparisonFits(paid, expected, cfg.allowedBps, cfg.largest)
                  && WithinTolerance(paid, expected, cfg.allowedBps, cfg.allowedDiff))
            && (!outcome.Next? && !outcome.Stopped? ==>
                  && outcome.Drifted?
                  && outcome.exit.diff == Distance(paid, expected) > cfg.allowedDiff
                  && outcome.exit.bps >= cfg.allowedBps
                  && outcome.exit.sequence == s.trace + [Withdraw(user)])
  {
    var paid := cfg.lazy.withdraw(s.lazy, s.receipts[user]).value.1;
    var expected := cfg.manual.withdraw(s.manual, user, paid).value.value.1;
    if Distance(paid, expected) > 1 {
      var larger := Max(paid, expected);
      assert Max(larger, 1) == larger;
      if Distance(paid, expected) * 10_000 > larger * cfg.allowedBps {
        FixedPoint.FloorAtLeast(Distance(paid, expected) * 10_000, larger, cfg.allowedBps);
      }
    }
  }

  // ---------------------------------------------------------------------------
  // Pruning
  // ---------------------------------------------------------------------------

  /** No two expanded states share a hash, first or second. */
  lemma {:induction false} ExpandedApart<L, M, R>(cfg: Config<L, M, R>, log: seq<Visit<L, M, R>>, i: nat, j: nat)
    requires Pruned(cfg, log) && i < j < |log| && log[i].menu.Some? && log[j].menu.Some?
    ensures cfg.hash(log[i].state) != cfg.hash(log[j].state)
    ensures cfg.hasher.Some? ==>
              && cfg.hasher.value(log[i].state) != cfg.hasher.value(log[j].state)
              && cfg.hash(log[i].state) != cfg.hasher.value(log[j].state)
              && cfg.hasher.value(log[i].state) != cfg.hash(log[j].state)
  {
    assert log[..j][i] == log[i];
    assert !Repeats(cfg, log[..j], log[j].state);
  }

  /** Without a second hasher every visited state has the hash of an expanded one, visited no later. */
  lemma {:induction false} PrunedHasTwin<L, M, R>(cfg: Config<L, M, R>, log: seq<Visit<L, M, R>>, i: nat)
    requires Pruned(cfg, log) && cfg.hasher.None? && i < |log|
    ensures exists j :: 0 <= j <= i && log[j].menu.Some? && cfg.hash(log[j].state) == cfg.hash(log[i].state)
  {
    if log[i].menu.None? {
      assert Repeats(cfg, log[..i], log[i].state);
      var k :| 0 <= k < |log[..i]| && cfg.hash(log[..i][k].state) == cfg.hash(log[i].state);
      PrunedHasTwin(cfg, log, k);
    }
  }

  // ---------------------------------------------------------------------------
  // Reports
  // ---------------------------------------------------------------------------

  /** Passes and drifts are numbered from one without gaps and report events. */
  ghost predicate PassesFiled(r: Report, events: seq<Event>) {
    && r.nextPass == |r.pass| + 1 && r.nextExit == |r.exit| + 1
    && (forall i :: 0 <= i < |r.pass| ==> r.pass[i].0 == i + 1 && Passed(r.pass[i].1) in events)
    && (forall i :: 0 <= i < |r.exit| ==> r.exit[i].0 == i + 1 && Drift(r.exit[i].1) in events)
  }

  /** So are failures and traps; the traps are those that failed for the expected reason. */
  ghost predicate FailuresFiled(r: Report, events: seq<Event>, expected: Option<string>) {
    && r.nextFail == |r.fail| + 1 && r.nextTrap == |r.trap| + 1
    && (forall i :: 0 <= i < |r.fail| ==>
          r.fail[i].0 == i + 1 && Broke(r.fail[i].1) in events && Some(r.fail[i].1.reason) != expected)
    && (forall i :: 0 <= i < |r.trap| ==>
          && r.trap[i].0 == i + 1 && Some(r.trap[i].1) == expected
          && Broke(Failure(r.trap[i].1, r.trap[i].2)) in events)
  }

  lemma {:induction false} RecordFilesPasses(r: Report, events: seq<Event>, e: Event, expected: Option<string>)
    requires PassesFiled(r, events)
    ensures PassesFiled(Record(r, e, expected), events + [e])
  {
    assert forall x :: x in events ==> x in events + [e];
    assert e in events + [e];
  }

  lemma {:induction false} RecordFilesFailures(r: Report, events: seq<Event>, e: Event, expected: Option<string>)
    requires FailuresFiled(r, events, expected)
    ensures FailuresFiled(Record(r, e, expected), events + [e], expected)
  {
    assert forall x :: x in events ==> x in events + [e];
    assert e in events + [e];
  }

  /** The event is in the book of its kind. */
  ghost predicate Filed(r: Report, e: Event, expected: Option<string>) {
    match e
    case Passed(sequence) => exists i :: 0 <= i < |r.pass| && r.pass[i].1 == sequence
    case Broke(failure) =>
      if expected == Some(failure.reason) then
        exists i :: 0 <= i < |r.trap| && r.trap[i].1 == failure.reason && r.trap[i].2 == failure.sequence
      else
        exists i :: 0 <= i < |r.fail| && r.fail[i].1 == failure
    case Drift(exit) => exists i :: 0 <= i < |r.exit| && r.exit[i].1 == exit
  }

  lemma {:induction false} NewIsFiled(r: Report, e: Event, expected: Option<string>)
    ensures Filed(Record(r, e, expected), e, expected)
  {
    var r' := Record(r, e, expected);
    match e
    case Passed(sequence) => assert r'.pass[|r.pass|].1 == sequence;
    case Broke(failure) =>
      if expected == Some(failure.reason) {
        assert r'.trap[|r.trap|].1 == failure.reason;
      } else {
        assert r'.fail[|r.fail|].1 == failure;
      }
    case Drift(exit) => assert r'.exit[|r.exit|].1 == exit;
  }

  lemma {:induction false} StaysFiled(r: Report, e: Event, filed: Event, expected: Option<string>)
    requires Filed(r, filed, expected)
    ensures Filed(Record(r, e, expected), filed, expected)
  {
    var r' := Record(r, e, expected);
    assert r.pass <= r'.pass && r.fail <= r'.fail && r.exit <= r'.exit && r.trap <= r'.trap;
    assert forall i :: 0 <= i < |r.pass| ==> r'.pass[i] == r.pass[i];
    assert forall i :: 0 <= i < |r.fail| ==> r'.fail[i] == r.fail[i];
    assert forall i :: 0 <= i < |r.exit| ==> r'.exit[i] == r.exit[i];
    assert forall i :: 0 <= i < |r.trap| ==> r'.trap[i] == r.trap[i];
  }

  /** Every event is in the book of its kind, and the books hold nothing else. */
  lemma {:induction false} ReportIsComplete(events: seq<Event>, expected: Option<string>)
    ensures var r := RecordAll(NO_RESULTS, events, expected);
            && |r.pass| + |r.fail| + |r.exit| + |r.trap| == |events|
            && (forall e :: e in events ==> Filed(r, e, expected))
            && PassesFiled(r, events)
            && FailuresFiled(r, events, expected)
  {
    if events != [] {
      var before, e := events[..|events| - 1], events[|events| - 1];
      ReportIsComplete(before, expected);
      NewIsFiled(RecordAll(NO_RESULTS, before, expected), e, expected);
      forall filed | filed in before
        ensures Filed(RecordAll(NO_RESULTS, events, expected), filed, expected)
      {
        StaysFiled(RecordAll(NO_RESULTS, before, expected), e, filed, expected);
      }
      RecordFilesPasses(RecordAll(NO_RESULTS, before, expected), before, e, expected);
      RecordFilesFailures(RecordAll(NO_RESULTS, before, expected), before, e, expected);
      assert events == before + [e];
    }
  }

  // ---------------------------------------------------------------------------
  // The share pool under the explorer
  // ---------------------------------------------------------------------------

  function Describe(e: SharePool.Error): string {
    match e
    case ZeroDepositNotAllowed => "ZeroDepositNotAllowed"
    case BalanceNotInitiatedViaDeposit => "BalanceNotInitiatedViaDeposit"
    case BalanceDrainedCannotDeposit => "BalanceDrainedCannotDeposit"
    case InadequatePrecision => "InadequatePrecision"
    case LessThanOneShareDerived => "LessThanOneShareDerived"
    case AssetOverflow => "AssetOverflow"
    case AssetUnderflow => "AssetUnderflow"
    case SharesOverflow => "SharesOverflow"
    case RequiresExistingDeposits => "RequiresExistingDeposits"
    case ZeroAdjustmentNotAllowed => "ZeroAdjustmentNotAllowed"
    case InvalidReceipt => "InvalidReceipt"
  }

  /** The pool with its receipts as the explorer runs it; amounts beyond 128 bits do not exist. */
  function LazyDeposit(p: SharePool.Pool, amount: nat): Result<(SharePool.Pool, nat, SharePool.Receipt), string> {
    if amount > FixedPoint.MAX then Err("amount out of range")
    else
      var (p', r) := SharePool.Deposit(p, amount);
      match r
      case Ok((actual, receipt)) => Ok((p', actual, receipt))
      case Err(e) => Err(Describe(e))
  }

  function LazyWithdraw(p: SharePool.Pool, receipt: SharePool.Receipt): Result<(SharePool.Pool, nat), string> {
    Moved(SharePool.Withdraw(p, receipt))
  }

  function Moved(
      pr: (SharePool.Pool, Result<FixedPoint.u128, SharePool.Error>)): Result<(SharePool.Pool, nat), string>
  {
    match pr.1
    case Ok(actual) => Ok((pr.0, actual))
    case Err(e) => Err(Describe(e))
  }

  function LazyMint(p: SharePool.Pool, amount: nat): Result<(SharePool.Pool, nat), string> {
    if amount > FixedPoint.MAX then Err("amount out of range") else Moved(SharePool.Mint(p, amount))
  }

  function LazyReap(p: SharePool.Pool, amount: nat): Result<(SharePool.Pool, nat), string> {
    if amount > FixedPoint.MAX then Err("amount out of range") else Moved(SharePool.Reap(p, amount))
  }

  function LazyDrain(p: SharePool.Pool): Result<(SharePool.Pool, nat), string> {
    Moved(SharePool.Drain(p))
  }

  /** The configuration runs the share pool, next to any manual model. */
  ghost predicate RunsSharePool<M>(cfg: Config<SharePool.Pool, M, SharePool.Receipt>) {
    && cfg.lazy.start == SharePool.Fresh
    && (forall p, amount :: cfg.lazy.deposit(p, amount) == LazyDeposit(p, amount))
    && (forall p, receipt :: cfg.lazy.withdraw(p, receipt) == LazyWithdraw(p, receipt))
    && (forall p, amount :: cfg.lazy.mint(p, amount) == LazyMint(p, amount))
    && (forall p, amount :: cfg.lazy.reap(p, amount) == LazyReap(p, amount))
    && (forall p :: cfg.lazy.drain(p) == LazyDrain(p))
  }

  /** The share pool reports exactly the amounts it is asked for. */
  lemma {:induction false} SharePoolEchoes<M>(cfg: Config<SharePool.Pool, M, SharePool.Receipt>)
    requires RunsSharePool(cfg)
    ensures Echoes(cfg.lazy)
  {
    forall p, amount
      ensures cfg.lazy.deposit(p, amount).Ok? ==> cfg.lazy.deposit(p, amount).value.1 == amount
      ensures cfg.lazy.mint(p, amount).Ok? ==> cfg.lazy.mint(p, amount).value.1 == amount
      ensures cfg.lazy.reap(p, amount).Ok? ==> cfg.lazy.reap(p, amount).value.1 == amount
    {
      assert cfg.lazy.deposit(p, amount) == LazyDeposit(p, amount);
    }
  }

  /** Every explored state of the share pool replays its trace. */
  lemma {:induction false} SharePoolReplaysItsTrace<M>(
      cfg: Config<SharePool.Pool, M, SharePool.Receipt>, s: State<SharePool.Pool, M, SharePool.Receipt>)
    requires RunsSharePool(cfg) && Reached(cfg, s)
    ensures Replay(cfg, s.trace) == Some(s)
  {
    var requests :| Replay(cfg, requests) == Some(s);
    SharePoolEchoes(cfg);
    ReplaysItsTrace(cfg, requests);
  }

  /** The pool is that of a pool run, and each user's receipt is outstanding there under its own identifier. */
  ghost predicate Mirrors<M>(
      s: State<SharePool.Pool, M, SharePool.Receipt>, w: PoolRuns.World, ids: map<nat, nat>)
  {
    && s.lazy == w.pool
    && ids.Keys == s.receipts.Keys
    && (forall user :: user in ids ==>
          ids[user] in w.receipts && w.receipts[ids[user]] == s.receipts[user])
    && (forall user, other :: user in ids && other in ids && user != other ==> ids[user] != ids[other])
  }

  /** The same operation on the pool run. */
  function PoolOp(op: Op, ids: map<nat, nat>): PoolRuns.Op {
    match op
    case Deposit(_, amount) => PoolRuns.DepositOp(if amount <= FixedPoint.MAX then amount else 0)
    case Withdraw(user) => PoolRuns.WithdrawOp(if user in ids then ids[user] else 0)
    case Mint(amount) => PoolRuns.MintOp(if amount <= FixedPoint.MAX then amount else 0)
    case Reap(amount) => PoolRuns.ReapOp(if amount <= FixedPoint.MAX then amount else 0)
    case Drain => PoolRuns.DrainOp
  }

  function NextIds(op: Op, ids: map<nat, nat>, next: nat): map<nat, nat> {
    match op
    case Deposit(user, _) => ids[user := next]
    case Withdraw(user) => ids - {user}
    case _ => ids
  }

  lemma {:induction false} MirrorDeposit<M>(
      cfg: Config<SharePool.Pool, M, SharePool.Receipt>, s: State<SharePool.Pool, M, SharePool.Receipt>, op: Op,
      w: PoolRuns.World, ids: map<nat, nat>)
    requires RunsSharePool(cfg) && Step(cfg, s, op).Next? && PoolRuns.Valid(w) && Mirrors(s, w, ids)
    requires op.Deposit?
    ensures Mirrors(Step(cfg, s, op).state, PoolRuns.Step(w, PoolOp(op, ids)), NextIds(op, ids, w.next))
  {
  }

  lemma {:induction false} MirrorWithdraw<M>(
      cfg: Config<SharePool.Pool, M, SharePool.Receipt>, s: State<SharePool.Pool, M, SharePool.Receipt>, op: Op,
      w: PoolRuns.World, ids: map<nat, nat>)
    requires RunsSharePool(cfg) && Step(cfg, s, op).Next? && PoolRuns.Valid(w) && Mirrors(s, w, ids)
    requires op.Withdraw?
    ensures Mirrors(Step(cfg, s, op).state, PoolRuns.Step(w, PoolOp(op, ids)), NextIds(op, ids, w.next))
  {
  }

  lemma {:induction false} MirrorRepricing<M>(
      cfg: Config<SharePool.Pool, M, SharePool.Receipt>, s: State<SharePool.Pool, M, SharePool.Receipt>, op: Op,
      w: PoolRuns.World, ids: map<nat, nat>)
    requires RunsSharePool(cfg) && Step(cfg, s, op).Next? && PoolRuns.Valid(w) && Mirrors(s, w, ids)
    requires op.Mint? || op.Reap? || op.Drain?
    ensures Mirrors(Step(cfg, s, op).state, PoolRuns.Step(w, PoolOp(op, ids)), NextIds(op, ids, w.next))
  {
  }

  lemma {:induction false} MirrorStep<M>(
      cfg: Config<SharePool.Pool, M, SharePool.Receipt>, s: State<SharePool.Pool, M, SharePool.Receipt>, op: Op,
      w: PoolRuns.World, ids: map<nat, nat>)
    requires RunsSharePool(cfg) && Step(cfg, s, op).Next? && PoolRuns.Valid(w) && Mirrors(s, w, ids)
    ensures Mirrors(Step(cfg, s, op).state, PoolRuns.Step(w, PoolOp(op, ids)), NextIds(op, ids, w.next))
  {
    match op
    case Deposit(_, _) => MirrorDeposit(cfg, s, op, w, ids);
    case Withdraw(_) => MirrorWithdraw(cfg, s, op, w, ids);
    case _ => MirrorRepricing(cfg, s, op, w, ids);
  }

  lemma {:induction false} ReachedIsPoolRun<M>(
      cfg: Config<SharePool.Pool, M, SharePool.Receipt>, requests: seq<Op>)
      returns (ops: seq<PoolRuns.Op>, ids: map<nat, nat>)
    requires RunsSharePool(cfg) && Replay(cfg, requests).Some?
    ensures Mirrors(Replay(cfg, requests).value, PoolRuns.Run(PoolRuns.START, ops), ids)
  {
    if requests == [] {
      ops, ids := [], map[];
    } else {
      LastStep(cfg, requests);
      var before, op := requests[..|requests| - 1], requests[|requests| - 1];
      ops, ids := ReachedIsPoolRun(cfg, before);
      var w := PoolRuns.Run(PoolRuns.START, ops);
      PoolSafety.ReachableIsValid(ops);
      MirrorStep(cfg, Replay(cfg, before).value, op, w, ids);
      var more := ops + [PoolOp(op, ids)];
      assert more[..|ops|] == ops;
      ops, ids := more, NextIds(op, ids, w.next);
    }
  }

  /** Whatever the manual model and the guards, a reached state with receipts has issued shares. */
  lemma {:induction false} InvariantNeverFires<M>(
      cfg: Config<SharePool.Pool, M, SharePool.Receipt>, s: State<SharePool.Pool, M, SharePool.Receipt>)
    requires RunsSharePool(cfg) && Reached(cfg, s) && s.receipts != map[]
    ensures s.lazy.Live? && s.lazy.issued != 0
  {
    var requests :| Replay(cfg, requests) == Some(s);
    var ops, ids := ReachedIsPoolRun(cfg, requests);
    PoolSafety.EveryRunBalances(ops);
    var user :| user in s.receipts;
    assert ids[user] in PoolRuns.Run(PoolRuns.START, ops).receipts;
  }
}
