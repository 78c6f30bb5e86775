/**
 What one turn of the explorer does, in the terms of the two models, the guards, the flows and the
 traps it is configured with: which operations are tried, and what trying one leaves.
 */
module ExplorerSteps {
  import opened Wrappers
  import opened Exploration
  import opened Explorer
  import opened ExplorerGuarantees
  import FixedLedger
  import FixedPoint
  import SharePool
  import ShareChecker

  // ---------------------------------------------------------------------------
  // What is tried
  // ---------------------------------------------------------------------------

  /**
   The guard of the model, once it can be computed, or a trap lets the operation through, and it is in
   the flow of the model and in that of the trap.
   */
  ghost predicate Allowed<L, M, R>(cfg: Config<L, M, R>, s: State<L, M, R>, op: Op) {
    && cfg.guard(s, op).Some?
    && (cfg.guard(s, op).value || (cfg.overrides.Some? && cfg.overrides.value.trap(s, op)))
    && cfg.flow(s, op)
    && (cfg.overrides.Some? ==> cfg.overrides.value.flow(s, op))
  }

  /** The program ends in a guard that cannot be computed, except for a drain that is out of the flow. */
  ghost predicate GuardEnds<L, M, R>(cfg: Config<L, M, R>, s: State<L, M, R>, op: Op) {
    && cfg.guard(s, op).None?
    && (op.Drain? ==> cfg.flow(s, op) && (cfg.overrides.Some? ==> cfg.overrides.value.flow(s, op)))
  }

  lemma {:induction false} AdmittedIff<L, M, R>(cfg: Config<L, M, R>, s: State<L, M, R>, op: Op)
    ensures Admitted(cfg, s, op) <==> Allowed(cfg, s, op)
    ensures Admission(cfg, s, op).None? <==> GuardEnds(cfg, s, op)
  {
  }

  /** Every request of a run was on the menu and allowed where it was asked. */
  lemma {:induction false} RequestsWereAllowed<L, M, R>(cfg: Config<L, M, R>, requests: seq<Op>, i: nat)
    requires Replay(cfg, requests).Some? && i < |requests|
    ensures Replay(cfg, requests[..i]).Some?
    ensures OnMenu(cfg, requests[i]) && Allowed(cfg, Replay(cfg, requests[..i]).value, requests[i])
  {
    var before := requests[..|requests| - 1];
    LastStep(cfg, requests);
    if i < |before| {
      RequestsWereAllowed(cfg, before, i);
      assert before[..i] == requests[..i];
    } else {
      AdmittedIff(cfg, Replay(cfg, before).value, requests[i]);
    }
  }

  /** What an operation leaves of an expanded state: a state that is known, or an event. */
  ghost predicate Leaves<L(!new), M(!new), R(!new)>(
      cfg: Config<L, M, R>, s: State<L, M, R>, op: Op, known: set<State<L, M, R>>, events: seq<Event>)
  {
    match Step(cfg, s, op)
    case Next(s') => s' in known
    case Failed(failure) => Broke(failure) in events
    case Drifted(exit) => Drift(exit) in events
    case Stopped => false
  }

  /**
   After an exploration every operation on the menu of an expanded state that is allowed has been
   tried, those that only a trap lets through included.
   */
  lemma {:induction false} AllowedIsTried<L(!new), M(!new), R(!new)>(
      cfg: Config<L, M, R>, log: seq<Visit<L, M, R>>, known: set<State<L, M, R>>, events: seq<Event>, i: nat, op: Op)
    requires Complete(cfg, log, known, events) && i < |log| && log[i].menu.Some? && op in log[i].menu.value
    ensures !GuardEnds(cfg, log[i].state, op)
    ensures Allowed(cfg, log[i].state, op) ==> Leaves(cfg, log[i].state, op, known, events)
  {
    AdmittedIff(cfg, log[i].state, op);
    assert Accounted(cfg, log[i].state, op, known, events);
  }

  /** Every reported failure is a violation of a reached state, or that of an allowed operation in one. */
  lemma {:induction false} FailureWasAllowed<L(!new), M(!new), R(!new)>(
      cfg: Config<L, M, R>, events: seq<Event>, failure: Failure)
    requires AllJustified(cfg, events) && Broke(failure) in events
    ensures exists s :: Reached(cfg, s) && (
              || (s.trace == failure.sequence && cfg.violation(s) == Some(failure.reason))
              || exists op :: OnMenu(cfg, op) && Allowed(cfg, s, op) && Step(cfg, s, op) == Failed(failure))
  {
    assert Justified(cfg, Broke(failure));
    if s, op :| Reached(cfg, s) && OnMenu(cfg, op) && Admitted(cfg, s, op) && Step(cfg, s, op) == Failed(failure) {
      AdmittedIff(cfg, s, op);
    }
  }

  /** So is every reported drift. */
  lemma {:induction false} DriftWasAllowed<L(!new), M(!new), R(!new)>(
      cfg: Config<L, M, R>, events: seq<Event>, exit: Exit)
    requires AllJustified(cfg, events) && Drift(exit) in events
    ensures exists s, op ::
              Reached(cfg, s) && OnMenu(cfg, op) && Allowed(cfg, s, op) && Step(cfg, s, op) == Drifted(exit)
  {
    assert Justified(cfg, Drift(exit));
    var s, op :| Reached(cfg, s) && OnMenu(cfg, op) && Admitted(cfg, s, op) && Step(cfg, s, op) == Drifted(exit);
    AdmittedIff(cfg, s, op);
  }

  /** A failure for the reason a trap expects is in the book of traps, any other in that of failures. */
  lemma {:induction false} FailureIsFiled<L(!new), M(!new), R(!new)>(
      cfg: Config<L, M, R>, events: seq<Event>, failure: Failure)
    requires Broke(failure) in events
    ensures var report := RecordAll(NO_RESULTS, events, Expected(cfg));
            if cfg.overrides.Some? && cfg.overrides.value.reason == failure.reason then
              exists k :: 0 <= k < |report.trap|
                          && report.trap[k].1 == failure.reason && report.trap[k].2 == failure.sequence
            else exists k :: 0 <= k < |report.fail| && report.fail[k].1 == failure
  {
    ReportIsComplete(events, Expected(cfg));
    assert Filed(RecordAll(NO_RESULTS, events, Expected(cfg)), Broke(failure), Expected(cfg));
  }

  /**
   A trap for empty deposits, in the shipped model checker: where a menu offers one that the trap and
   both flows take, the guard does not, and the exploration files it as a trap.
   */
  lemma {:induction false} EmptyDepositIsTrapped(
      cfg: ShareChecker.Checker, log: seq<Visit<SharePool.Pool, FixedLedger.Fixed, SharePool.Receipt>>,
      known: set<ShareChecker.Held>, events: seq<Event>, i: nat, user: nat)
    requires ShareChecker.Shipped(cfg) && Complete(cfg, log, known, events)
    requires i < |log| && log[i].menu.Some? && Deposit(user, 0) in log[i].menu.value
    requires cfg.overrides.Some? && cfg.overrides.value.reason == Describe(SharePool.ZeroDepositNotAllowed)
    requires cfg.overrides.value.trap(log[i].state, Deposit(user, 0))
    requires cfg.flow(log[i].state, Deposit(user, 0)) && cfg.overrides.value.flow(log[i].state, Deposit(user, 0))
    ensures cfg.guard(log[i].state, Deposit(user, 0)) == Some(false)
    ensures var report := RecordAll(NO_RESULTS, events, Expected(cfg));
            exists k :: 0 <= k < |report.trap|
                        && report.trap[k].1 == Describe(SharePool.ZeroDepositNotAllowed)
                        && report.trap[k].2 == log[i].state.trace + [Deposit(user, 0)]
  {
    var s, op := log[i].state, Deposit(user, 0);
    assert cfg.guard(s, op) == ShareChecker.Guard(s, op);
    assert cfg.lazy.deposit(s.lazy, 0) == LazyDeposit(s.lazy, 0);
    AllowedIsTried(cfg, log, known, events, i, op);
    FailureIsFiled(cfg, events, Failure(Describe(SharePool.ZeroDepositNotAllowed), s.trace + [op]));
  }

  /**
   After an exploration every known state has been reported, for the violation it is or as a pass at
   full depth, or visited.
   */
  lemma {:induction false} KnownIsHandled<L(!new), M(!new), R(!new)>(
      cfg: Config<L, M, R>, known: set<State<L, M, R>>, log: seq<Visit<L, M, R>>, events: seq<Event>,
      s: State<L, M, R>)
    requires Covered(cfg, known, [], log, events) && s in known
    ensures if cfg.violation(s).Some? then Broke(Failure(cfg.violation(s).value, s.trace)) in events
            else if |s.trace| == cfg.maxDepth then Passed(s.trace) in events
            else |s.trace| < cfg.maxDepth && exists i :: 0 <= i < |log| && log[i].state == s
  {
  }

  /** The hash that visit `j` left behind in the set: its first always, its second where it passed. */
  ghost predicate Left<L, M, R>(cfg: Config<L, M, R>, v: Visit<L, M, R>, h: nat) {
    h == cfg.hash(v.state) || (v.menu.Some? && cfg.hasher.Some? && h == cfg.hasher.value(v.state))
  }

  /** A visit is pruned exactly when one of its hashes was left by an earlier visit, or both are the same. */
  lemma {:induction false} PrunedIff<L, M, R>(cfg: Config<L, M, R>, log: seq<Visit<L, M, R>>, i: nat)
    requires Pruned(cfg, log) && i < |log|
    ensures log[i].menu.None? <==>
              || (exists j :: 0 <= j < i && Left(cfg, log[j], cfg.hash(log[i].state)))
              || (cfg.hasher.Some?
                  && (cfg.hasher.value(log[i].state) == cfg.hash(log[i].state)
                      || exists j :: 0 <= j < i && Left(cfg, log[j], cfg.hasher.value(log[i].state))))
  {
    MetIff(cfg, log, i, cfg.hash(log[i].state));
    if cfg.hasher.Some? {
      MetIff(cfg, log, i, cfg.hasher.value(log[i].state));
    }
  }

  lemma {:induction false} MetIff<L, M, R>(cfg: Config<L, M, R>, log: seq<Visit<L, M, R>>, i: nat, h: nat)
    requires i <= |log|
    ensures Met(cfg, log[..i], h) <==> exists j :: 0 <= j < i && Left(cfg, log[j], h)
  {
    if j :| 0 <= j < i && Left(cfg, log[j], h) {
      assert log[..i][j] == log[j];
    }
    if Met(cfg, log[..i], h) {
      var j :| 0 <= j < i && (cfg.hash(log[..i][j].state) == h
        || (cfg.hasher.Some? && log[..i][j].menu.Some? && cfg.hasher.value(log[..i][j].state) == h));
      assert Left(cfg, log[j], h);
    }
  }

  // ---------------------------------------------------------------------------
  // What trying an operation does
  // ---------------------------------------------------------------------------

  /** Both models take the step, and the trace says what the lazy one moved. */
  ghost predicate Takes<L, M, R>(cfg: Config<L, M, R>, s: State<L, M, R>, op: Op, s': State<L, M, R>) {
    match op
    case Deposit(user, amount) =>
      var lazy := cfg.lazy.deposit(s.lazy, amount);
      && lazy.Ok? && lazy.value.0 == s'.lazy
      && cfg.manual.deposit(s.manual, user, amount, lazy.value.1) == Some(Ok(s'.manual))
      && s'.receipts == s.receipts[user := lazy.value.2] && s'.trace == s.trace + [Deposit(user, lazy.value.1)]
    case Withdraw(user) =>
      user in s.receipts && (
        var lazy := cfg.lazy.withdraw(s.lazy, s.receipts[user]);
        lazy.Ok? && lazy.value.0 == s'.lazy && (
          var manual := cfg.manual.withdraw(s.manual, user, lazy.value.1);
          && manual.Some? && manual.value.Ok? && manual.value.value.0 == s'.manual
          && ComparisonFits(lazy.value.1, manual.value.value.1, cfg.allowedBps, cfg.largest)
          && WithinTolerance(lazy.value.1, manual.value.value.1, cfg.allowedBps, cfg.allowedDiff)
          && s'.receipts == s.receipts - {user} && s'.trace == s.trace + [op]))
    case Mint(amount) =>
      var lazy := cfg.lazy.mint(s.lazy, amount);
      && lazy.Ok? && lazy.value.0 == s'.lazy
      && cfg.manual.mint(s.manual, amount, lazy.value.1) == Some(Ok(s'.manual))
      && s'.receipts == s.receipts && s'.trace == s.trace + [Mint(lazy.value.1)]
    case Reap(amount) =>
      var lazy := cfg.lazy.reap(s.lazy, amount);
      && lazy.Ok? && lazy.value.0 == s'.lazy
      && cfg.manual.reap(s.manual, amount, lazy.value.1) == Some(Ok(s'.manual))
      && s'.receipts == s.receipts && s'.trace == s.trace + [Reap(lazy.value.1)]
    case Drain =>
      var lazy := cfg.lazy.drain(s.lazy);
      && lazy.Ok? && lazy.value.0 == s'.lazy && cfg.manual.drain(s.manual) == Some(Ok(s'.manual))
      && s'.receipts == s.receipts && s'.trace == s.trace + [op]
  }

  /** What the lazy model answers, without what it does. */
  ghost function LazyError<L, M, R>(cfg: Config<L, M, R>, s: State<L, M, R>, op: Op): Option<string> {
    match op
    case Deposit(_, amount) => ErrorOf(cfg.lazy.deposit(s.lazy, amount))
    case Withdraw(user) =>
      if user in s.receipts then ErrorOf(cfg.lazy.withdraw(s.lazy, s.receipts[user])) else Some(MISSING_RECEIPT)
    case Mint(amount) => ErrorOf(cfg.lazy.mint(s.lazy, amount))
    case Reap(amount) => ErrorOf(cfg.lazy.reap(s.lazy, amount))
    case Drain => ErrorOf(cfg.lazy.drain(s.lazy))
  }

  function ErrorOf<T>(r: Result<T, string>): Option<string> {
    match r
    case Ok(_) => None
    case Err(e) => Some(e)
  }

  /** What the manual model answers, told what the lazy one moved. */
  ghost function ManualError<L, M, R>(cfg: Config<L, M, R>, s: State<L, M, R>, op: Op): Option<string>
    requires LazyError(cfg, s, op).None?
  {
    match op
    case Deposit(user, amount) =>
      ErrorIn(cfg.manual.deposit(s.manual, user, amount, cfg.lazy.deposit(s.lazy, amount).value.1))
    case Withdraw(user) =>
      ErrorIn(cfg.manual.withdraw(s.manual, user, cfg.lazy.withdraw(s.lazy, s.receipts[user]).value.1))
    case Mint(amount) => ErrorIn(cfg.manual.mint(s.manual, amount, cfg.lazy.mint(s.lazy, amount).value.1))
    case Reap(amount) => ErrorIn(cfg.manual.reap(s.manual, amount, cfg.lazy.reap(s.lazy, amount).value.1))
    case Drain => ErrorIn(cfg.manual.drain(s.manual))
  }

  function ErrorIn<T>(r: Option<Result<T, string>>): Option<string> {
    if r.Some? then ErrorOf(r.value) else None
  }

  lemma {:induction false} WithdrawalTaken<L, M, R>(
      cfg: Config<L, M, R>, s: State<L, M, R>, user: nat, s': State<L, M, R>)
    ensures Step(cfg, s, Withdraw(user)) == Next(s') <==> Takes(cfg, s, Withdraw(user), s')
  {
    if user in s.receipts && cfg.lazy.withdraw(s.lazy, s.receipts[user]).Ok? {
      var paid := cfg.lazy.withdraw(s.lazy, s.receipts[user]).value.1;
      var manual := cfg.manual.withdraw(s.manual, user, paid);
      if manual.Some? && manual.value.Ok? {
        DriftIffOutOfTolerance(cfg, s, user);
      }
    }
  }

  /** A step leads to a state exactly when both models take it there and, for a withdrawal, agree. */
  lemma {:induction false} NextIff<L, M, R>(cfg: Config<L, M, R>, s: State<L, M, R>, op: Op, s': State<L, M, R>)
    ensures Step(cfg, s, op) == Next(s') <==> Takes(cfg, s, op, s')
  {
    match op
    case Deposit(user, amount) =>
    case Withdraw(user) => WithdrawalTaken(cfg, s, user, s');
    case Mint(amount) =>
    case Reap(amount) =>
    case Drain =>
  }

  /**
   A step fails exactly when the lazy model refuses it, or else the manual one; the failure gives
   the reason and the trace up to and including the operation as it was asked for.
   */
  lemma {:induction false} FailedIff<L, M, R>(cfg: Config<L, M, R>, s: State<L, M, R>, op: Op, failure: Failure)
    ensures Step(cfg, s, op) == Failed(failure) <==>
              && failure.sequence == s.trace + [op]
              && Some(failure.reason) ==
                 if LazyError(cfg, s, op).Some? then LazyError(cfg, s, op) else ManualError(cfg, s, op)
  {
  }

  /** The drift a step reports: both payments, their distance, and its part of the larger one, floored. */
  ghost predicate Reports<L, M, R>(cfg: Config<L, M, R>, s: State<L, M, R>, user: nat, exit: Exit) {
    user in s.receipts && (
      var lazy := cfg.lazy.withdraw(s.lazy, s.receipts[user]);
      lazy.Ok? && (
        var manual := cfg.manual.withdraw(s.manual, user, lazy.value.1);
        && manual.Some? && manual.value.Ok?
        && exit.lazy == lazy.value.1 && exit.manual == manual.value.value.1
        && exit.diff == Distance(exit.lazy, exit.manual)
        && exit.bps * Max(exit.lazy, exit.manual) <= exit.diff * 10_000 < (exit.bps + 1) * Max(exit.lazy, exit.manual)
        && exit.sequence == s.trace + [Withdraw(user)]
        && ComparisonFits(exit.lazy, exit.manual, cfg.allowedBps, cfg.largest)
        && !WithinTolerance(exit.lazy, exit.manual, cfg.allowedBps, cfg.allowedDiff)))
  }

  lemma {:induction false} PartsPerTenThousand(diff: nat, larger: nat, bps: nat)
    requires larger > 0
    ensures bps == diff * 10_000 / larger <==> bps * larger <= diff * 10_000 < (bps + 1) * larger
  {
    FixedPoint.Floor(diff * 10_000, larger);
    if bps * larger <= diff * 10_000 < (bps + 1) * larger {
      FixedPoint.FloorAtLeast(diff * 10_000, larger, bps);
      FixedPoint.FloorAtMost(diff * 10_000, larger, bps);
    }
  }

  lemma {:induction false} DriftFigures<L, M, R>(cfg: Config<L, M, R>, s: State<L, M, R>, user: nat, exit: Exit)
    requires user in s.receipts && cfg.lazy.withdraw(s.lazy, s.receipts[user]).Ok?
    requires var paid := cfg.lazy.withdraw(s.lazy, s.receipts[user]).value.1;
             cfg.manual.withdraw(s.manual, user, paid).Some? && cfg.manual.withdraw(s.manual, user, paid).value.Ok?
    ensures Step(cfg, s, Withdraw(user)) == Drifted(exit) <==> Reports(cfg, s, user, exit)
  {
    var paid := cfg.lazy.withdraw(s.lazy, s.receipts[user]).value.1;
    var expected := cfg.manual.withdraw(s.manual, user, paid).value.value.1;
    DriftIffOutOfTolerance(cfg, s, user);
    if Distance(paid, expected) > 1 {
      PartsPerTenThousand(Distance(paid, expected), Max(paid, expected), exit.bps);
    }
  }

  /** A step drifts exactly when it is a withdrawal both models grant, out of tolerance, with those figures. */
  lemma {:induction false} DriftedIff<L, M, R>(cfg: Config<L, M, R>, s: State<L, M, R>, op: Op, exit: Exit)
    ensures Step(cfg, s, op) == Drifted(exit) <==> op.Withdraw? && Reports(cfg, s, op.user, exit)
  {
    if op.Withdraw? && op.user in s.receipts && cfg.lazy.withdraw(s.lazy, s.receipts[op.user]).Ok? {
      var paid := cfg.lazy.withdraw(s.lazy, s.receipts[op.user]).value.1;
      var manual := cfg.manual.withdraw(s.manual, op.user, paid);
      if manual.Some? && manual.value.Ok? {
        DriftFigures(cfg, s, op.user, exit);
      }
    }
  }

  // ---------------------------------------------------------------------------
  // The menu, place by place
  // ---------------------------------------------------------------------------

  lemma {:induction false} SlotOf(u: nat, n: nat, slots: nat, d: nat)
    requires u < n && d < slots
    ensures 0 <= u * slots + d < n * slots
  {
    FixedPoint.MulMono(u + 1, n, slots);
  }

  lemma {:induction false} DepositAt<L, M, R>(cfg: Config<L, M, R>, n: nat, ops: seq<Op>, u: nat, d: nat)
    requires n <= |cfg.users| && Deposits(cfg, n, ops) && u < n && d < |cfg.deposits|
    ensures |ops| == n * |cfg.deposits| && 0 <= u * |cfg.deposits| + d < |ops|
    ensures var op := ops[u * |cfg.deposits| + d]; op.Deposit? && op.user == cfg.users[u] && op.amount in cfg.deposits
  {
    DepositsOnMenu(cfg, n, ops);
    SlotOf(u, n, |cfg.deposits|, d);
    var before := |ops| - |cfg.deposits|;
    OneMoreTimes(n - 1, |cfg.deposits|);
    if u < n - 1 {
      DepositAt(cfg, n - 1, ops[..before], u, d);
    }
  }

  /**
   A menu holds a deposit for each user and slot, user by user, then a withdrawal for each user, then a
   mint and then a reap for each slot, all with amounts on the lists, and last a drain.
   */
  lemma {:induction false} MenuAt<L, M, R>(cfg: Config<L, M, R>, ops: seq<Op>, u: nat, d: nat, a: nat)
    requires Menu(cfg, ops)
    ensures |ops| == |cfg.users| * |cfg.deposits| + |cfg.users| + 2 * |cfg.adjustments| + 1
    ensures ops[|ops| - 1] == Drain
    ensures u < |cfg.users| && d < |cfg.deposits| ==>
              && 0 <= u * |cfg.deposits| + d < |cfg.users| * |cfg.deposits|
              && var op := ops[u * |cfg.deposits| + d];
                 op.Deposit? && op.user == cfg.users[u] && op.amount in cfg.deposits
    ensures u < |cfg.users| ==> ops[|cfg.users| * |cfg.deposits| + u] == Withdraw(cfg.users[u])
    ensures a < |cfg.adjustments| ==>
              && var first := |cfg.users| * |cfg.deposits| + |cfg.users|;
                 && ops[first + a].Mint? && ops[first + a].amount in cfg.adjustments
                 && ops[first + |cfg.adjustments| + a].Reap?
                 && ops[first + |cfg.adjustments| + a].amount in cfg.adjustments
  {
    var deposits, mints, reaps :| Composed(cfg, ops, deposits, mints, reaps);
    DepositsOnMenu(cfg, |cfg.users|, deposits);
    if u < |cfg.users| && d < |cfg.deposits| {
      DepositAt(cfg, |cfg.users|, deposits, u, d);
    }
  }
}
