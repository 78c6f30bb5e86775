/**
 What the model checker explores: two models of one balance side by side, the step one
 operation takes in both, and the runs of admitted steps. Both models, the guards and the
 hashes are parameters.
 */
module Exploration {
  import opened Wrappers

  datatype Op =
    | Deposit(user: nat, amount: nat)
    | Withdraw(user: nat)
    | Mint(amount: nat)
    | Reap(amount: nat)
    | Drain

  /** `L` is the lazy balance, `M` the manual one, `R` the lazy receipts. */
  datatype State<L, M, R> = State(lazy: L, manual: M, receipts: map<nat, R>, trace: seq<Op>)

  /** A lazy operation also reports the amount it actually moved. */
  datatype LazyModel<!L, !R> = LazyModel(
    start: L,
    deposit: (L, nat) -> Result<(L, nat, R), string>,
    withdraw: (L, R) -> Result<(L, nat), string>,
    mint: (L, nat) -> Result<(L, nat), string>,
    reap: (L, nat) -> Result<(L, nat), string>,
    drain: L -> Result<(L, nat), string>)

  /**
   The manual model is told what the lazy one reported. `None` stands for arithmetic that
   overflows, which ends the program.
   */
  datatype ManualModel<!M> = ManualModel(
    start: M,
    deposit: (M, nat, nat, nat) -> Option<Result<M, string>>,
    withdraw: (M, nat, nat) -> Option<Result<(M, nat), string>>,
    mint: (M, nat, nat) -> Option<Result<M, string>>,
    reap: (M, nat, nat) -> Option<Result<M, string>>,
    drain: M -> Option<Result<M, string>>)

  /** A trap lets through what the guard refuses, narrows the flow, and names the error it expects. */
  datatype Traps<!L, !M, !R> = Traps(
    trap: (State<L, M, R>, Op) -> bool,
    flow: (State<L, M, R>, Op) -> bool,
    reason: string)

  datatype Config<!L, !M, !R> = Config(
    lazy: LazyModel<L, R>,
    manual: ManualModel<M>,
    guard: (State<L, M, R>, Op) -> Option<bool>,
    flow: (State<L, M, R>, Op) -> bool,
    violation: State<L, M, R> -> Option<string>,
    hash: State<L, M, R> -> nat,
    hasher: Option<State<L, M, R> -> nat>,
    overrides: Option<Traps<L, M, R>>,
    users: seq<nat>,
    deposits: seq<nat>,
    adjustments: seq<nat>,
    maxDepth: nat,
    allowedBps: nat,
    allowedDiff: nat,
    largest: nat)

  // ---------------------------------------------------------------------------
  // One step
  // ---------------------------------------------------------------------------

  datatype Exit = Exit(lazy: nat, manual: nat, diff: nat, bps: nat, sequence: seq<Op>)

  datatype Failure = Failure(reason: string, sequence: seq<Op>)

  /** `Stopped` is a step in which the manual model or the comparison overflows, which ends the program. */
  datatype Outcome<L, M, R> =
    | Next(state: State<L, M, R>)
    | Failed(failure: Failure)
    | Drifted(exit: Exit)
    | Stopped

  datatype Verdict = Agree | Differ(exit: Exit) | Overflow

  /**
   A difference of one is rounding; a larger one must be within either tolerance. The products
   are amounts too, and `largest` is the largest amount.
   */
  function CompareBalances(
      lazy: nat, manual: nat, sequence: seq<Op>, bps: nat, allowed: nat, largest: nat): Verdict
  {
    var diff := if lazy > manual then lazy - manual else manual - lazy;
    var base := Max(Max(lazy, manual), 1);
    if diff <= 1 then Agree
    else if diff * 10_000 > largest || base * bps > largest then Overflow
    else if diff * 10_000 > base * bps && diff > allowed then
      Differ(Exit(lazy, manual, diff, diff * 10_000 / base, sequence))
    else Agree
  }

  predicate Flows<L, M, R>(cfg: Config<L, M, R>, s: State<L, M, R>, op: Op) {
    cfg.flow(s, op) && (cfg.overrides.Some? ==> cfg.overrides.value.flow(s, op))
  }

  predicate Trapped<L, M, R>(cfg: Config<L, M, R>, s: State<L, M, R>, op: Op) {
    cfg.overrides.Some? && cfg.overrides.value.trap(s, op)
  }

  /**
   Whether an operation is tried: the guard or a trap lets it through, and it flows. The guard
   reads the manual model, whose arithmetic can end the program; a drain asks for the flow first.
   */
  function Admission<L, M, R>(cfg: Config<L, M, R>, s: State<L, M, R>, op: Op): Option<bool> {
    if op.Drain? && !Flows(cfg, s, op) then Some(false)
    else
      var guarded :- cfg.guard(s, op);
      Some((guarded || Trapped(cfg, s, op)) && Flows(cfg, s, op))
  }

  predicate Admitted<L, M, R>(cfg: Config<L, M, R>, s: State<L, M, R>, op: Op) {
    Admission(cfg, s, op) == Some(true)
  }

  const MISSING_RECEIPT := "ModelChecker::WithdrawReceiptMissing"

  /** The operation in both models, the lazy one first; the trace records the amount it moved. */
  function Step<L, M, R>(cfg: Config<L, M, R>, s: State<L, M, R>, op: Op): Outcome<L, M, R> {
    var attempt := s.trace + [op];
    match op
    case Deposit(user, amount) => (
      match cfg.lazy.deposit(s.lazy, amount)
      case Err(e) => Failed(Failure(e, attempt))
      case Ok((lazy, actual, receipt)) =>
        match cfg.manual.deposit(s.manual, user, amount, actual)
        case None => Stopped
        case Some(Err(e)) => Failed(Failure(e, attempt))
        case Some(Ok(manual)) =>
          Next(State(lazy, manual, s.receipts[user := receipt], s.trace + [Deposit(user, actual)])))
    case Withdraw(user) =>
      if user !in s.receipts then Failed(Failure(MISSING_RECEIPT, attempt))
      else (
        match cfg.lazy.withdraw(s.lazy, s.receipts[user])
        case Err(e) => Failed(Failure(e, attempt))
        case Ok((lazy, paid)) =>
          match cfg.manual.withdraw(s.manual, user, paid)
          case None => Stopped
          case Some(Err(e)) => Failed(Failure(e, attempt))
          case Some(Ok((manual, expected))) =>
            match CompareBalances(paid, expected, attempt, cfg.allowedBps, cfg.allowedDiff, cfg.largest)
            case Overflow => Stopped
            case Differ(exit) => Drifted(exit)
            case Agree => Next(State(lazy, manual, s.receipts - {user}, attempt)))
    case Mint(amount) => (
      match cfg.lazy.mint(s.lazy, amount)
      case Err(e) => Failed(Failure(e, attempt))
      case Ok((lazy, actual)) =>
        match cfg.manual.mint(s.manual, amount, actual)
        case None => Stopped
        case Some(Err(e)) => Failed(Failure(e, attempt))
        case Some(Ok(manual)) => Next(State(lazy, manual, s.receipts, s.trace + [Mint(actual)])))
    case Reap(amount) => (
      match cfg.lazy.reap(s.lazy, amount)
      case Err(e) => Failed(Failure(e, attempt))
      case Ok((lazy, actual)) =>
        match cfg.manual.reap(s.manual, amount, actual)
        case None => Stopped
        case Some(Err(e)) => Failed(Failure(e, attempt))
        case Some(Ok(manual)) => Next(State(lazy, manual, s.receipts, s.trace + [Reap(actual)])))
    case Drain =>
      match cfg.lazy.drain(s.lazy)
      case Err(e) => Failed(Failure(e, attempt))
      case Ok((lazy, _)) =>
        match cfg.manual.drain(s.manual)
        case None => Stopped
        case Some(Err(e)) => Failed(Failure(e, attempt))
        case Some(Ok(manual)) => Next(State(lazy, manual, s.receipts, attempt))
  }

  function Start<L, M, R>(cfg: Config<L, M, R>): State<L, M, R> {
    State(cfg.lazy.start, cfg.manual.start, map[], [])
  }

  // ---------------------------------------------------------------------------
  // Menus and runs
  // ---------------------------------------------------------------------------

  /** What one state can be asked to try: amounts come from the lists, users from the users. */
  predicate OnMenu<L, M, R>(cfg: Config<L, M, R>, op: Op) {
    match op
    case Deposit(user, amount) => user in cfg.users && amount in cfg.deposits
    case Withdraw(user) => user in cfg.users
    case Mint(amount) => amount in cfg.adjustments
    case Reap(amount) => amount in cfg.adjustments
    case Drain => true
  }

  /** How many operations one state tries. */
  function Branching<L, M, R>(cfg: Config<L, M, R>): nat {
    |cfg.users| * |cfg.deposits| + |cfg.users| + 2 * |cfg.adjustments| + 1
  }

  /** For each of the first `n` users one deposit a slot, each of some amount on the list. */
  ghost predicate Deposits<L, M, R>(cfg: Config<L, M, R>, n: nat, ops: seq<Op>)
    requires n <= |cfg.users|
  {
    if n == 0 then ops == []
    else
      var before := |ops| - |cfg.deposits|;
      && before >= 0
      && Deposits(cfg, n - 1, ops[..before])
      && forall i :: before <= i < |ops| ==>
           ops[i].Deposit? && ops[i].user == cfg.users[n - 1] && ops[i].amount in cfg.deposits
  }

  function Withdrawals(users: seq<nat>): (r: seq<Op>)
    ensures |r| == |users|
  {
    seq(|users|, i requires 0 <= i < |users| => Withdraw(users[i]))
  }

  ghost predicate Composed<L, M, R>(
      cfg: Config<L, M, R>, ops: seq<Op>, deposits: seq<Op>, mints: seq<Op>, reaps: seq<Op>)
  {
    && ops == deposits + Withdrawals(cfg.users) + mints + reaps + [Drain]
    && Deposits(cfg, |cfg.users|, deposits)
    && |mints| == |reaps| == |cfg.adjustments|
    && (forall i :: 0 <= i < |mints| ==> mints[i].Mint? && mints[i].amount in cfg.adjustments)
    && (forall i :: 0 <= i < |reaps| ==> reaps[i].Reap? && reaps[i].amount in cfg.adjustments)
  }

  /**
   The operations one state tries, in this order: for each user a deposit a slot, for each user
   a withdrawal, a mint and then a reap for each adjustment slot, and a drain. Each slot draws
   its own amount.
   */
  ghost predicate Menu<L, M, R>(cfg: Config<L, M, R>, ops: seq<Op>) {
    exists deposits, mints, reaps :: Composed(cfg, ops, deposits, mints, reaps)
  }

  /** The state after a run of requests, each on the menu, admitted, and successful in both models. */
  function Replay<L, M, R>(cfg: Config<L, M, R>, requests: seq<Op>): Option<State<L, M, R>> {
    if requests == [] then Some(Start(cfg))
    else
      var s :- Replay(cfg, requests[..|requests| - 1]);
      var op := requests[|requests| - 1];
      if OnMenu(cfg, op) && Admitted(cfg, s, op) then
        match Step(cfg, s, op)
        case Next(s') => Some(s')
        case _ => None
      else None
  }

  ghost predicate Reached<L, M, R>(cfg: Config<L, M, R>, s: State<L, M, R>) {
    exists requests :: Replay(cfg, requests) == Some(s)
  }

  // ---------------------------------------------------------------------------
  // Results
  // ---------------------------------------------------------------------------

  datatype Event =
    | Passed(sequence: seq<Op>)
    | Broke(failure: Failure)
    | Drift(exit: Exit)

  /** What each event says about the run it reports. */
  ghost predicate Justified<L(!new), M(!new), R(!new)>(cfg: Config<L, M, R>, e: Event) {
    match e
    case Passed(sequence) =>
      exists s :: Reached(cfg, s) && s.trace == sequence && |sequence| == cfg.maxDepth && cfg.violation(s).None?
    case Broke(failure) =>
      || (exists s :: Reached(cfg, s) && s.trace == failure.sequence && cfg.violation(s) == Some(failure.reason))
      || (exists s, op :: Reached(cfg, s) && OnMenu(cfg, op) && Admitted(cfg, s, op)
                          && Step(cfg, s, op) == Failed(failure))
    case Drift(exit) =>
      exists s, op :: Reached(cfg, s) && OnMenu(cfg, op) && Admitted(cfg, s, op) && Step(cfg, s, op) == Drifted(exit)
  }

  /** The four books of a report, each with its next number. */
  datatype Report = Report(
    pass: seq<(nat, seq<Op>)>,
    fail: seq<(nat, Failure)>,
    exit: seq<(nat, Exit)>,
    trap: seq<(nat, string, seq<Op>)>,
    nextPass: nat, nextFail: nat, nextExit: nat, nextTrap: nat)

  const NO_RESULTS: Report := Report([], [], [], [], 1, 1, 1, 1)

  /** A failure for the expected reason is a trap, any other a failure. */
  function Record(report: Report, e: Event, expected: Option<string>): Report {
    match e
    case Passed(sequence) =>
      report.(pass := report.pass + [(report.nextPass, sequence)], nextPass := report.nextPass + 1)
    case Broke(failure) =>
      if expected == Some(failure.reason) then
        report.(trap := report.trap + [(report.nextTrap, failure.reason, failure.sequence)],
                nextTrap := report.nextTrap + 1)
      else
        report.(fail := report.fail + [(report.nextFail, failure)], nextFail := report.nextFail + 1)
    case Drift(exit) =>
      report.(exit := report.exit + [(report.nextExit, exit)], nextExit := report.nextExit + 1)
  }

  function RecordAll(report: Report, events: seq<Event>, expected: Option<string>): Report {
    if events == [] then report
    else Record(RecordAll(report, events[..|events| - 1], expected), events[|events| - 1], expected)
  }

  // ---------------------------------------------------------------------------
  // What is left of a state
  // ---------------------------------------------------------------------------

  /** An operation of a menu was refused, or left its trace: a known state, or an event. */
  ghost predicate Accounted<L(!new), M(!new), R(!new)>(
      cfg: Config<L, M, R>, s: State<L, M, R>, op: Op, known: set<State<L, M, R>>, events: seq<Event>)
  {
    match Admission(cfg, s, op)
    case None => false
    case Some(false) => true
    case Some(true) =>
      match Step(cfg, s, op)
      case Next(s') => s' in known
      case Failed(failure) => Broke(failure) in events
      case Drifted(exit) => Drift(exit) in events
      case Stopped => false
  }

  ghost predicate AllAccounted<L(!new), M(!new), R(!new)>(
      cfg: Config<L, M, R>, s: State<L, M, R>, ops: seq<Op>, known: set<State<L, M, R>>, events: seq<Event>)
  {
    forall op :: op in ops ==> Accounted(cfg, s, op, known, events)
  }

  // ---------------------------------------------------------------------------
  // Pruning
  // ---------------------------------------------------------------------------

  /** A state that got as far as the hash test, and the menu it tried if it passed. */
  datatype Visit<L, M, R> = Visit(state: State<L, M, R>, menu: Option<seq<Op>>)

  /** A hash met before: the first hash of any visit, or the second hash of one that passed. */
  ghost predicate Met<L, M, R>(cfg: Config<L, M, R>, log: seq<Visit<L, M, R>>, h: nat) {
    exists i :: 0 <= i < |log| &&
      (cfg.hash(log[i].state) == h
       || (cfg.hasher.Some? && log[i].menu.Some? && cfg.hasher.value(log[i].state) == h))
  }

  /** Its first hash was met before, or its second hash was, or is its first hash again. */
  ghost predicate Repeats<L, M, R>(cfg: Config<L, M, R>, log: seq<Visit<L, M, R>>, s: State<L, M, R>) {
    || Met(cfg, log, cfg.hash(s))
    || (cfg.hasher.Some? && (cfg.hasher.value(s) == cfg.hash(s) || Met(cfg, log, cfg.hasher.value(s))))
  }

  /** A visit is pruned exactly when it repeats the visits before it. */
  ghost predicate Pruned<L, M, R>(cfg: Config<L, M, R>, log: seq<Visit<L, M, R>>) {
    forall i :: 0 <= i < |log| ==> (log[i].menu.None? <==> Repeats(cfg, log[..i], log[i].state))
  }

  /** A state is handled when it is reported, as a violation or a pass, or visited. */
  ghost predicate Handled<L(!new), M(!new), R(!new)>(
      cfg: Config<L, M, R>, s: State<L, M, R>, log: seq<Visit<L, M, R>>, events: seq<Event>)
  {
    match cfg.violation(s)
    case Some(reason) => Broke(Failure(reason, s.trace)) in events
    case None =>
      if |s.trace| == cfg.maxDepth then Passed(s.trace) in events
      else exists i :: 0 <= i < |log| && log[i].state == s
  }

  /** Every visit that passed tried a whole menu and left nothing out. */
  ghost predicate Complete<L(!new), M(!new), R(!new)>(
      cfg: Config<L, M, R>, log: seq<Visit<L, M, R>>, known: set<State<L, M, R>>, events: seq<Event>)
  {
    forall i :: 0 <= i < |log| && log[i].menu.Some? ==>
      Menu(cfg, log[i].menu.value) && AllAccounted(cfg, log[i].state, log[i].menu.value, known, events)
  }

  function Expected<L, M, R>(cfg: Config<L, M, R>): Option<string> {
    if cfg.overrides.Some? then Some(cfg.overrides.value.reason) else None
  }

  /** An admitted successful step stays reached, one operation longer. */
  lemma {:induction false} ReachedStep<L, M, R>(cfg: Config<L, M, R>, s: State<L, M, R>, op: Op, s': State<L, M, R>)
    requires Reached(cfg, s) && OnMenu(cfg, op) && Admitted(cfg, s, op) && Step(cfg, s, op) == Next(s')
    ensures Reached(cfg, s') && |s'.trace| == |s.trace| + 1
  {
    var requests :| Replay(cfg, requests) == Some(s);
    assert (requests + [op])[..|requests|] == requests;
    assert Replay(cfg, requests + [op]) == Some(s');
  }

  lemma {:induction false} RecordOneMore(report: Report, events: seq<Event>, e: Event, expected: Option<string>)
    ensures RecordAll(report, events + [e], expected) == Record(RecordAll(report, events, expected), e, expected)
  {
    assert (events + [e])[..|events|] == events;
  }
}
