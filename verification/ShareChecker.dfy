/** The model checker as it is shipped for the share pool: with the fixed-point ledger and its guards. */
module ShareChecker {
  import opened Wrappers
  import opened FixedPoint
  import opened Exploration
  import opened ExplorerGuarantees
  import Checks
  import EagerLedger
  import FixedLedger
  import LedgerRuns
  import PoolRuns
  import PoolSafety
  import Revaluation
  import SharePool

  type Held = State<SharePool.Pool, FixedLedger.Fixed, SharePool.Receipt>

  type Checker = Config<SharePool.Pool, FixedLedger.Fixed, SharePool.Receipt>

  // ---------------------------------------------------------------------------
  // The ledger as the manual model
  // ---------------------------------------------------------------------------

  function Name(e: EagerLedger.ManualError): string {
    match e
    case DuplicateDeposit => "DuplicateDeposit"
    case MintWithoutDeposits => "MintWithoutDeposits"
    case ReapWithoutDeposits => "ReapWithoutDeposits"
    case DrainWithoutDeposits => "DrainWithoutDeposits"
    case ZeroDeposit => "ZeroDeposit"
    case WithdrawAfterDrainedSnapshotNotFound => "WithdrawAfterDrainedSnapshotNotFound"
    case WithdrawWithoutDeposit => "WithdrawWithoutDeposit"
    case CollapsedState => "CollapsedState"
  }

  function Kept(lr: (FixedLedger.Fixed, Result<(), EagerLedger.ManualError>)): Result<FixedLedger.Fixed, string> {
    match lr.1
    case Ok(_) => Ok(lr.0)
    case Err(e) => Err(Name(e))
  }

  function Ended(
      lr: Option<(FixedLedger.Fixed, Result<(), EagerLedger.ManualError>)>): Option<Result<FixedLedger.Fixed, string>>
  {
    match lr
    case None => None
    case Some(pair) => Some(Kept(pair))
  }

  const OUT_OF_RANGE := "amount out of range"

  function LedgerDeposit(l: FixedLedger.Fixed, user: nat, amount: nat): Option<Result<FixedLedger.Fixed, string>> {
    if amount > MAX then Some(Err(OUT_OF_RANGE)) else Some(Kept(FixedLedger.FixedDeposit(l, user, amount)))
  }

  function LedgerWithdraw(l: FixedLedger.Fixed, user: nat): Option<Result<(FixedLedger.Fixed, nat), string>> {
    var (l', r) := FixedLedger.FixedWithdraw(l, user);
    match r
    case Ok(paid) => Some(Ok((l', paid)))
    case Err(e) => Some(Err(Name(e)))
  }

  ghost function LedgerMint(l: FixedLedger.Fixed, amount: nat): Option<Result<FixedLedger.Fixed, string>> {
    if amount > MAX then Some(Err(OUT_OF_RANGE)) else Ended(FixedLedger.FixedMint(l, amount))
  }

  ghost function LedgerReap(l: FixedLedger.Fixed, amount: nat): Option<Result<FixedLedger.Fixed, string>> {
    if amount > MAX then Some(Err(OUT_OF_RANGE)) else Ended(FixedLedger.FixedReap(l, amount))
  }

  ghost predicate RunsLedger(cfg: Checker) {
    && cfg.manual.start == FixedLedger.NO_USERS
    && (forall l, user, amount, told :: cfg.manual.deposit(l, user, amount, told) == LedgerDeposit(l, user, amount))
    && (forall l, user, told :: cfg.manual.withdraw(l, user, told) == LedgerWithdraw(l, user))
    && (forall l, amount, told :: cfg.manual.mint(l, amount, told) == LedgerMint(l, amount))
    && (forall l, amount, told :: cfg.manual.reap(l, amount, told) == LedgerReap(l, amount))
    && (forall l :: cfg.manual.drain(l) == Ended(FixedLedger.FixedDrain(l)))
  }

  // ---------------------------------------------------------------------------
  // The guards
  // ---------------------------------------------------------------------------

  /** Adds up the ledger to keep away from one that has collapsed to nothing. */
  ghost function MintGuard(s: Held, amount: nat): Option<bool> {
    if s.lazy.Fresh? then Some(false)
    else
      var total :- FixedLedger.TotalOf(s.manual.users);
      var collapsed := s.manual.users != map[] && total == 0 && s.manual.beforeDrain.None?;
      Some(amount != 0 && s.receipts != map[] && amount + s.lazy.effective <= MAX && !collapsed)
  }

  /** Adds up the ledger to keep a reap within it. */
  ghost function ReapGuard(s: Held, amount: nat): Option<bool> {
    if s.lazy.Fresh? then Some(false)
    else
      var total :- FixedLedger.TotalOf(s.manual.users);
      Some(amount != 0 && s.receipts != map[] && amount <= s.lazy.effective && amount <= total / DIV)
  }

  ghost function Guard(s: Held, op: Op): Option<bool> {
    match op
    case Deposit(user, amount) => Some(amount <= MAX && Checks.DepositGuard(s.lazy, user in s.receipts, amount))
    case Withdraw(user) => Some(user in s.receipts)
    case Mint(amount) => MintGuard(s, amount)
    case Reap(amount) => ReapGuard(s, amount)
    case Drain => Some(s.receipts != map[])
  }

  /** Whatever the menus, flows, traps, hashes and tolerances. */
  ghost predicate Shipped(cfg: Checker) {
    RunsSharePool(cfg) && RunsLedger(cfg) && forall s, op :: cfg.guard(s, op) == Guard(s, op)
  }

  // ---------------------------------------------------------------------------
  // Reached states
  // ---------------------------------------------------------------------------

  /** The same operation on the ledger run. */
  function LedgerOp(op: Op): LedgerRuns.Op {
    match op
    case Deposit(user, amount) => LedgerRuns.Deposit(user, if amount <= MAX then amount else 0)
    case Withdraw(user) => LedgerRuns.Withdraw(user)
    case Mint(amount) => LedgerRuns.Mint(if amount <= MAX then amount else 0)
    case Reap(amount) => LedgerRuns.Reap(if amount <= MAX then amount else 0)
    case Drain => LedgerRuns.Drain
  }

  function LedgerOps(requests: seq<Op>): (r: seq<LedgerRuns.Op>)
    ensures |r| == |requests|
  {
    seq(|requests|, i requires 0 <= i < |requests| => LedgerOp(requests[i]))
  }

  /** The pool and the ledger know the same users. */
  ghost predicate SameUsers(s: Held) {
    s.receipts.Keys == s.manual.users.Keys && LedgerRuns.Kept(s.manual)
  }

  lemma {:induction false} StepOnLedger(cfg: Checker, s: Held, op: Op)
    requires RunsSharePool(cfg) && RunsLedger(cfg) && Step(cfg, s, op).Next?
    ensures LedgerRuns.Step(s.manual, LedgerOp(op)) == Some(Step(cfg, s, op).state.manual)
  {
    match op
    case Deposit(user, amount) => assert cfg.lazy.deposit(s.lazy, amount) == LazyDeposit(s.lazy, amount);
    case Withdraw(user) =>
    case Mint(amount) => assert cfg.lazy.mint(s.lazy, amount) == LazyMint(s.lazy, amount);
    case Reap(amount) => assert cfg.lazy.reap(s.lazy, amount) == LazyReap(s.lazy, amount);
    case Drain =>
  }

  lemma {:induction false} StepKeepsUsers(cfg: Checker, s: Held, op: Op, s': Held)
    requires RunsSharePool(cfg) && RunsLedger(cfg) && Step(cfg, s, op) == Next(s') && SameUsers(s)
    ensures SameUsers(s')
  {
    StepOnLedger(cfg, s, op);
    LedgerRuns.StepKeeps(s.manual, LedgerOp(op));
    assert s'.receipts.Keys == s'.manual.users.Keys by {
      match op
      case Deposit(user, amount) => assert cfg.manual.deposit(s.manual, user, amount, amount).Some?;
      case Withdraw(user) =>
      case _ => LedgerRuns.StepKeepsUsers(s.manual, LedgerOp(op));
    }
  }

  lemma {:induction false} NextLedgerRun(cfg: Checker, before: seq<Op>, s: Held, op: Op, s': Held)
    requires RunsSharePool(cfg) && RunsLedger(cfg) && Step(cfg, s, op) == Next(s') && SameUsers(s)
    requires LedgerRuns.Run(LedgerOps(before)) == Some(s.manual)
    ensures LedgerRuns.Run(LedgerOps(before + [op])) == Some(s'.manual) && SameUsers(s')
  {
    StepOnLedger(cfg, s, op);
    StepKeepsUsers(cfg, s, op, s');
    OneMoreRequest(before, op);
  }

  lemma {:induction false} OneMoreRequest(before: seq<Op>, op: Op)
    ensures var l := LedgerRuns.Run(LedgerOps(before));
            LedgerRuns.Run(LedgerOps(before + [op])) == if l.Some? then LedgerRuns.Step(l.value, LedgerOp(op)) else None
  {
    LedgerRuns.OneMore(LedgerOps(before), LedgerOp(op));
    assert LedgerOps(before + [op]) == LedgerOps(before) + [LedgerOp(op)];
  }

  lemma {:induction false} StartsLedgerRun(cfg: Checker)
    requires RunsLedger(cfg)
    ensures LedgerRuns.Run(LedgerOps([])) == Some(Start(cfg).manual) && SameUsers(Start(cfg))
  {
    assert LedgerOps([]) == [];
  }

  /** An explored state is a run of the ledger's own state machine, over the same users as the receipts. */
  lemma {:induction false} ReachedIsLedgerRun(cfg: Checker, requests: seq<Op>)
    requires RunsSharePool(cfg) && RunsLedger(cfg) && Replay(cfg, requests).Some?
    ensures LedgerRuns.Run(LedgerOps(requests)) == Some(Replay(cfg, requests).value.manual)
    ensures SameUsers(Replay(cfg, requests).value)
  {
    if requests == [] {
      StartsLedgerRun(cfg);
    } else {
      var before, op := requests[..|requests| - 1], requests[|requests| - 1];
      assert requests == before + [op];
      LastStep(cfg, requests);
      ReachedIsLedgerRun(cfg, before);
      NextLedgerRun(cfg, before, Replay(cfg, before).value, op, Replay(cfg, requests).value);
    }
  }

  // ---------------------------------------------------------------------------
  // When the program ends
  // ---------------------------------------------------------------------------

  /** The payment of the ledger, for users it holds. */
  function LedgerPays(s: Held, user: nat): nat {
    if user in s.manual.users then s.manual.users[user] / DIV else 0
  }

  /**
   The arithmetic a step runs into: the ledger's where the pool grants a mint, a reap or a drain,
   and the comparison's where it grants a withdrawal.
   */
  ghost predicate Ends(cfg: Checker, s: Held, op: Op) {
    match op
    case Deposit(_, _) => false
    case Withdraw(user) =>
      && user in s.receipts && LazyWithdraw(s.lazy, s.receipts[user]).Ok?
      && !ComparisonFits(LazyWithdraw(s.lazy, s.receipts[user]).value.1, LedgerPays(s, user),
                         cfg.allowedBps, cfg.largest)
    case Mint(amount) => LazyMint(s.lazy, amount).Ok? && LedgerRuns.Overflows(s.manual, LedgerOp(op))
    case Reap(amount) => LazyReap(s.lazy, amount).Ok? && LedgerRuns.Overflows(s.manual, LedgerOp(op))
    case Drain => LazyDrain(s.lazy).Ok? && LedgerRuns.Overflows(s.manual, LedgerOp(op))
  }

  lemma {:induction false} AdjustmentEndsIff(cfg: Checker, s: Held, op: Op)
    requires RunsSharePool(cfg) && RunsLedger(cfg) && SameUsers(s)
    requires op.Mint? || op.Reap? || op.Drain?
    ensures Step(cfg, s, op).Stopped? <==> Ends(cfg, s, op)
  {
    LedgerRuns.StepOverflowsIff(s.manual, LedgerOp(op));
    match op
    case Mint(amount) => assert cfg.lazy.mint(s.lazy, amount) == LazyMint(s.lazy, amount);
    case Reap(amount) => assert cfg.lazy.reap(s.lazy, amount) == LazyReap(s.lazy, amount);
    case Drain => assert cfg.lazy.drain(s.lazy) == LazyDrain(s.lazy);
  }

  lemma {:induction false} WithdrawalEndsIff(cfg: Checker, s: Held, user: nat)
    requires RunsSharePool(cfg) && RunsLedger(cfg) && SameUsers(s)
    ensures Step(cfg, s, Withdraw(user)).Stopped? <==> Ends(cfg, s, Withdraw(user))
  {
    if user in s.receipts && LazyWithdraw(s.lazy, s.receipts[user]).Ok? {
      var paid := LazyWithdraw(s.lazy, s.receipts[user]).value.1;
      assert cfg.lazy.withdraw(s.lazy, s.receipts[user]) == LazyWithdraw(s.lazy, s.receipts[user]);
      assert cfg.manual.withdraw(s.manual, user, paid) == LedgerWithdraw(s.manual, user);
      DriftIffOutOfTolerance(cfg, s, user);
    }
  }

  /** In an explored state a step ends the program exactly where one of those does not fit. */
  lemma {:induction false} StepEndsIff(cfg: Checker, s: Held, op: Op)
    requires RunsSharePool(cfg) && RunsLedger(cfg) && Reached(cfg, s)
    ensures Step(cfg, s, op).Stopped? <==> Ends(cfg, s, op)
  {
    var requests :| Replay(cfg, requests) == Some(s);
    ReachedIsLedgerRun(cfg, requests);
    match op
    case Deposit(user, amount) =>
    case Withdraw(user) => WithdrawalEndsIff(cfg, s, user);
    case _ => AdjustmentEndsIff(cfg, s, op);
  }

  /**
   As long as the deposits and mints asked for add up to an amount in range neither guard nor
   ledger ends the program: only the comparison of a withdrawal can.
   */
  lemma {:induction false} InRangeOnlyComparisonsEnd(cfg: Checker, requests: seq<Op>, op: Op)
    requires Shipped(cfg) && Replay(cfg, requests).Some?
    requires InRange(LedgerRuns.Inflow(LedgerOps(requests + [op])))
    ensures var s := Replay(cfg, requests).value;
            && Admission(cfg, s, op).Some?
            && (Step(cfg, s, op).Stopped? ==> op.Withdraw? && Ends(cfg, s, op))
  {
    var s := Replay(cfg, requests).value;
    var ops := LedgerOps(requests);
    ReachedIsLedgerRun(cfg, requests);
    StepEndsIff(cfg, s, op);
    assert LedgerOps(requests + [op]) == ops + [LedgerOp(op)];
    LedgerRuns.OneMore(ops, LedgerOp(op));
    MulMono(LedgerRuns.Inflow(ops), LedgerRuns.Inflow(ops + [LedgerOp(op)]), DIV);
    LedgerRuns.NeverHoldsMore(ops);
    LedgerRuns.NothingOverflows(s.manual, LedgerOp(op), LedgerRuns.Inflow(ops));
    LedgerRuns.BoundedFits(s.manual.users, LedgerRuns.Inflow(ops));
    assert cfg.guard(s, op) == Guard(s, op);
  }

  // ---------------------------------------------------------------------------
  // Guarded steps
  // ---------------------------------------------------------------------------

  /**
   What each guard asks for, in the amounts of the two models: a deposit by a new user, at a price
   above zero, that its quotient fits and that, as far as the guard can tell, pays for a share; a held
   receipt; a mint that fits while the ledger can share it; a reap of no more than either holds.
   */
  ghost predicate Granted(s: Held, op: Op) {
    match op
    case Deposit(user, amount) =>
      && 0 < amount <= MAX
      && (s.lazy.Live? ==>
            && user !in s.receipts && s.lazy.bias != 0
            && Saturate(amount * DIV) * DIV < (MAX + 1) * s.lazy.bias
            && (s.lazy.issued != 0 && s.lazy.effective + s.lazy.issued - 1 <= MAX ==>
                  s.lazy.effective <= amount * s.lazy.issued))
    case Withdraw(user) => user in s.receipts
    case Mint(amount) =>
      && amount != 0 && s.receipts != map[] && SharePool.TotalValue(s.lazy) + amount <= MAX
      && FixedLedger.TotalOf(s.manual.users).Some?
      && (FixedLedger.TotalOf(s.manual.users).value != 0 || s.manual.beforeDrain.Some?)
    case Reap(amount) =>
      && amount != 0 && s.receipts != map[] && amount <= SharePool.TotalValue(s.lazy)
      && FixedLedger.TotalOf(s.manual.users).Some?
      && amount * DIV <= FixedLedger.TotalOf(s.manual.users).value
    case Drain => s.receipts != map[]
  }

  lemma {:induction false} WholeUnits(amount: nat, total: nat)
    ensures amount <= total / DIV <==> amount * DIV <= total
  {
    Floor(total, DIV);
    if amount * DIV <= total {
      FloorAtLeast(total, DIV, amount);
    }
  }

  lemma {:induction false} GuardOf(s: Held, ops: seq<PoolRuns.Op>, ids: map<nat, nat>, op: Op)
    requires Mirrors(s, PoolRuns.Run(PoolRuns.START, ops), ids) && SameUsers(s)
    ensures Guard(s, op) == Some(true) <==> Granted(s, op)
    ensures Guard(s, op).None? <==> (op.Mint? || op.Reap?) && s.lazy.Live? && FixedLedger.TotalOf(s.manual.users).None?
  {
    FreshHoldsNothing(s, ops, ids);
    assert s.receipts == map[] <==> s.manual.users == map[] by {
      assert s.receipts.Keys == {} <==> s.receipts == map[];
      assert s.manual.users.Keys == {} <==> s.manual.users == map[];
    }
    match op
    case Deposit(user, amount) =>
      if amount <= MAX {
        Checks.DepositGuardIff(ops, user in s.receipts, amount);
      }
    case Withdraw(user) =>
    case Mint(amount) =>
    case Reap(amount) =>
      if FixedLedger.TotalOf(s.manual.users).Some? {
        WholeUnits(amount, FixedLedger.TotalOf(s.manual.users).value);
      }
    case Drain =>
  }

  /** In an explored state the guards let through exactly that. */
  lemma {:induction false} GuardIff(cfg: Checker, s: Held, op: Op)
    requires Shipped(cfg) && Reached(cfg, s)
    ensures cfg.guard(s, op) == Some(true) <==> Granted(s, op)
    ensures cfg.guard(s, op).None? <==>
              (op.Mint? || op.Reap?) && s.lazy.Live? && FixedLedger.TotalOf(s.manual.users).None?
  {
    var requests :| Replay(cfg, requests) == Some(s);
    var ops, ids := ReachedIsPoolRun(cfg, requests);
    ReachedIsLedgerRun(cfg, requests);
    GuardOf(s, ops, ids, op);
    assert cfg.guard(s, op) == Guard(s, op);
  }

  /**
   What a guarded operation can still fail with: a deposit on an overflow or the guard's gap, the
   others on a price or worth that does not fit.
   */
  function StillFails(op: Op): set<SharePool.Error> {
    match op
    case Deposit(_, _) => {SharePool.AssetOverflow, SharePool.SharesOverflow, SharePool.LessThanOneShareDerived}
    case Drain => {}
    case _ => {SharePool.InadequatePrecision}
  }

  ghost predicate FailsAs<T>(r: Result<T, SharePool.Error>, op: Op) {
    r.Err? ==> r.error in StillFails(op)
  }

  /** The pool's half of a guarded step. */
  lemma {:induction false} GuardedInPool(s: Held, ops: seq<PoolRuns.Op>, ids: map<nat, nat>, op: Op)
    requires Mirrors(s, PoolRuns.Run(PoolRuns.START, ops), ids) && Guard(s, op) == Some(true)
    ensures match op
            case Deposit(_, amount) => amount <= MAX && FailsAs(SharePool.Deposit(s.lazy, amount).1, op)
            case Withdraw(user) => user in s.receipts && FailsAs(SharePool.Withdraw(s.lazy, s.receipts[user]).1, op)
            case Mint(amount) => amount <= MAX && FailsAs(SharePool.Mint(s.lazy, amount).1, op)
            case Reap(amount) => amount <= MAX && FailsAs(SharePool.Reap(s.lazy, amount).1, op)
            case Drain => FailsAs(SharePool.Drain(s.lazy).1, op)
  {
    PoolSafety.EveryRunBalances(ops);
    if s.receipts != map[] {
      var user :| user in s.receipts;
      assert ids[user] in PoolRuns.Run(PoolRuns.START, ops).receipts;
    }
    match op
    case Deposit(user, amount) => Checks.GuardedDeposit(ops, user in s.receipts, amount);
    case Withdraw(user) => Checks.AdmittedRedemption(ops, ids[user]);
    case Mint(amount) =>
    case Reap(amount) =>
    case Drain => Revaluation.DrainSucceeds(ops);
  }

  ghost predicate NoError<T>(r: Option<Result<T, string>>) {
    r.None? || r.value.Ok?
  }

  /** The ledger's half: over the same users it refuses nothing the guards let through. */
  lemma {:induction false} GuardedInLedger(s: Held, op: Op)
    requires SameUsers(s) && (s.lazy.Fresh? ==> s.receipts == map[]) && Guard(s, op) == Some(true)
    ensures match op
            case Deposit(user, amount) => NoError(LedgerDeposit(s.manual, user, amount))
            case Withdraw(user) => NoError(LedgerWithdraw(s.manual, user))
            case Mint(amount) => NoError(LedgerMint(s.manual, amount))
            case Reap(amount) => NoError(LedgerReap(s.manual, amount))
            case Drain => NoError(Ended(FixedLedger.FixedDrain(s.manual)))
  {
    if s.receipts != map[] {
      var user :| user in s.receipts;
      assert user in s.manual.users;
    }
  }

  lemma {:induction false} FreshHoldsNothing(s: Held, ops: seq<PoolRuns.Op>, ids: map<nat, nat>)
    requires Mirrors(s, PoolRuns.Run(PoolRuns.START, ops), ids)
    ensures s.lazy.Fresh? ==> s.receipts == map[]
  {
    PoolSafety.EveryRunBalances(ops);
    if s.receipts != map[] {
      var user :| user in s.receipts;
      assert ids[user] in PoolRuns.Run(PoolRuns.START, ops).receipts;
    }
  }

  /**
   In an explored state a guarded step never fails in the ledger, and in the pool only on an
   overflow, on a price or worth that does not fit, or on the one gap of the deposit guard.
   */
  lemma {:induction false} GuardedStepFails(cfg: Checker, s: Held, op: Op)
    requires Shipped(cfg) && Reached(cfg, s) && cfg.guard(s, op) == Some(true)
    ensures Step(cfg, s, op).Failed? ==>
              exists e :: e in StillFails(op) && Step(cfg, s, op).failure.reason == Describe(e)
  {
    var requests :| Replay(cfg, requests) == Some(s);
    var ops, ids := ReachedIsPoolRun(cfg, requests);
    ReachedIsLedgerRun(cfg, requests);
    FreshHoldsNothing(s, ops, ids);
    GuardedInPool(s, ops, ids, op);
    GuardedInLedger(s, op);
  }
}
