# Share balance, payouts and elections: a verified model

This project models the arithmetic and the state machines at the centre of the FRAME plugins, and
proves what they promise, for every input and every run.

**The share-based lazy balance** (`frame/plugins/src/balances.rs`). A pool holds a value
(`effective`) and a number of issued shares (`issued`). A deposit buys shares at the price `bias` and
gets a receipt; a mint or a reap changes the value of all receipts at once by setting a new price; a
withdrawal works out, from the price at deposit and the price now, what a receipt is worth. All of it
is 128-bit fixed-point arithmetic that floors, saturates and overflows. `FixedPoint` holds the
arithmetic, `SharePool` the operations as functions, `ShareBalance` the object they update in place.
`PoolRuns` is the state machine: one pool, its outstanding receipts, and books of everything that came
in and went out. `Operations` says for every pool, amount and receipt what an operation does, with each
floor as the inequality that pins it down; `PoolRecords` what a run leaves on record, in receipts, payments
and counters. On top of it stand solvency and conservation over every run (`PoolSafety`), the bound
on rounding dust (`PoolDrift`), order independence, redeemability and the round trip (`Redemption`),
mints, drains and revivals (`Revaluation`), and what the read-only checks predict (`Checks`).

**The eager ledger** (`ManualBalance` in the same file) rewrites every user on each mint and reap.
`FixedLedger` and `ManualLedger` model it in the fixed-point numbers it computes with, `EagerLedger` on
exact ones; `LedgerPrecision` bounds the difference of each step, and `LedgerRuns` says exactly when its
arithmetic overflows. `ExactPool` is the share pool without rounding, and `Refinement` proves that
the pool, which touches no user, pays every user exactly what the exact ledger holds for them, and where
it does not. With the rounding of both, `ReferenceGap` bounds how far the payments of the real pool and
the real ledger are apart after any run in range, by an error kept up step by step; `LedgerSteps` says
to the unit what each step does to each balance, and what the snapshot is the snapshot of; `GapArithmetic` and
`UserGaps` are its arithmetic for one user and for all.

**The model checker** (`frame/suite/src/assets.rs`) runs two balances side by side, breadth first, from
a queue of states with random menus of operations. `Exploration` says what a run and a report are,
`Explorer` is the loop, proved to terminate, to report exactly what it found and to prune exactly the
states whose hashes repeat earlier ones, and `ExplorerGuarantees` adds that every state of the share
pool replays its trace and that the invariant it checks cannot fire. `ShareChecker` puts the share pool,
the fixed-point ledger and the shipped guards into it, and says exactly when a step ends the program and
what a guarded step can still fail with. `ExplorerSteps` says, in the configured models, guards, flows and
traps alone, which operations are tried, what trying one leaves, and where on a menu it stands.

**The proportional payout** (`SharesPay` in `frame/plugins/src/rewards.rs`): floored parts, then one
unit more for the largest remainders. `SharesSpec` and `SharesPay` model it, `PayoutGuarantees` proves
conservation and fairness.

**The load-balancing elections** (`PhragmenModel` and `MaxMinLoadModel` in
`frame/plugins/src/elections.rs`). `LoadBalancing` and `Elections` model them, `ElectionGuarantees`
proves that the ranking is the greedy one, `ElectionScale` that scaling changes nothing.

An operation that updates state in place is a class method or a loop whose `ensures` gives its whole
new state as a function of the old one; the theorems are about those functions and the runs they make.

## Where the code and its documentation differ

The model follows the code.

- A passing `CanDeposit` is documented to ensure that the deposit succeeds. It admits a zero amount, an
  amount below the price of a share, and amounts whose quotient or shares overflow.
  `Checks.AdmittedDeposit` gives the exact condition, `Checks.AdmittedDepositFails` a reachable pool.
  `CanMint` and `CanReap` do not test whether the new price fits (`Checks.AdmittedRepricing`,
  `Checks.AdmittedMintFails`, `Checks.AdmittedReapLeaks`), and `CanWithdraw` does not test whether the
  price ratio and the value now fit: `Checks.AdmittedRedemption` is exact, and
  `Checks.AdmittedRedemptionFails` is a run after which an outstanding receipt passes the check and
  cannot be redeemed.
- A reap whose new price does not fit reports an error, but has already removed the value. Conservation
  therefore carries a term `lost`; `PoolSafety.OnlyReapLeaks` says exactly when it moves, and
  `Checks.AdmittedReapLeaks` is a run in which it does.
- The repricing counter saturates. A receipt issued at the saturated counter does not see a later
  drain: `PoolSafety.CountersRecogniseDrains` is exact, `PoolSafety.SaturatedCounterMissesDrain` is
  a run that shows it, and `Revaluation.StaleRevival` says what such a receipt is paid.
- After a drain, deposits are said to be refused, and withdrawals to pay nothing, until something is minted.
  A mint may be too small to lift the price from zero: deposits stay refused, and the last holder is paid
  what was minted (`Revaluation.MintLeavesPriceAtZero`). A reap can lift the price
  (`Revaluation.ReapLiftsPrice`). `Revaluation.LiftedIff` and `Revaluation.DrainedUntilLift` are exact.
- The model checker's deposit guard is meant to keep out deposits that buy no share. It skips the test
  when `effective + issued - 1` overflows (`Checks.GuardedDeposit`, `Checks.GuardMissesSmallDeposit`).
- The eager ledger compares a reap with its total rounded down. Reaping the whole units of a fractional
  total drains the ledger but leaves the pool a fraction; this is the only step after which the two
  disagree (`Refinement.StepAgrees`, `Refinement.SplitReapHappens`). The ledger also keeps its
  snapshot after a revival, which the refinement shows to be harmless.
- The eager ledger is described as the high-precision reference. Its amounts are clamped to fixed point and
  its balances added up, and an overflow ends the program. `LedgerRuns.NextOverflowsIff` says exactly at
  which step of a run: a non-zero mint or reap, or a drain, with users, where the total does not fit or a
  mint leaves a user with more than fits. `LedgerRuns.LedgerOverflows` is such a run, and the pool drains
  after the same deposits (`LedgerRuns.PoolHandlesIt`). Larger amounts need not end the program, because
  of the clamp (`LedgerRuns.ClampedRunGoesOn`).
- `SharesPay` is documented to pay out exactly the payout. `PayoutGuarantees.PaymentsAddUp` says for
  all inputs when it does; `PayoutGuarantees.ThreeWaySplitFallsShort` and
  `PayoutGuarantees.SaturatedSharesOverpay` are inputs on which it pays less and more.
- The `weighted` and `scale` settings of the Phragmen model are documented to control how strongly stake
  weighs. Every positive scale gives the same ranking as none (`ElectionScale.ScaleDoesNotMatter`).
- The model checker's optional second hasher is documented as a further filter against revisiting
  equivalent states. Both hashes go into one set, so a state whose two hashes are equal is pruned on its
  first visit, and a second hasher that agrees with the first on the start state expands nothing at all
  (`Explorer.NothingExpandedIff`, `Explorer.RepeatedHasherExpandsNothing`).
- A candidate is scored by the maximum load it would impose. Where it names a backer twice it can impose
  more than that, and the score of the last choice need not be the largest load any more;
  `ElectionGuarantees.LastKeyIsLargestIff` is exact.

## Model

| member | source | states |
|---|---|---|
| ShareBalance.Balance.InitBalance | frame/plugins/src/balances.rs:1863-1872 | any state becomes the empty pool at price one with both counters at zero |
| ShareBalance.Balance.IsFreshBalance | frame/plugins/src/balances.rs:1847-1854 | only a pool that was never initialised changes |
| ShareBalance.Balance.BalanceCheckpoint | frame/plugins/src/balances.rs:226-242 | a repricing moves the counter, and at price zero records it, with saturation |
| ShareBalance.Balance.Deposit | frame/plugins/src/balances.rs:316-458 | whole new state, receipt and error of a deposit, in the order of the code's conditions; only the initialisation survives an error |
| ShareBalance.Balance.Mint | frame/plugins/src/balances.rs:602-653 | whole new state and result of a mint; an error changes nothing |
| ShareBalance.Balance.Reap | frame/plugins/src/balances.rs:783-842 | whole new state and result of a reap, including the value removed before the price fails |
| ShareBalance.Balance.Drain | frame/plugins/src/balances.rs:1377-1428 | a drain is a reap of the whole value |
| ShareBalance.Balance.Withdraw | frame/plugins/src/balances.rs:983-1102 | whole new state, payment and error of a withdrawal, with both ways to empty the pool |
| ShareBalance.Balance.ReceiptActiveValue | frame/plugins/src/balances.rs:1277-1325 | the preview is the payment of a withdrawal and leaves the balance untouched |
| Operations.DepositOutcome | frame/plugins/src/balances.rs:316-458 | a deposit of any amount into any pool: as many whole shares as the clamped amount pays for, one receipt for the amount itself at the price and counter of that moment, or which error |
| Operations.MintOutcome | frame/plugins/src/balances.rs:602-653 | a mint into any pool: the value per share rounded down, the counter one further, the drain mark at price zero, or which error |
| Operations.ReapOutcome | frame/plugins/src/balances.rs:783-842 | the same for a reap, whose amount is gone where its price does not fit |
| Operations.WithdrawOutcome | frame/plugins/src/balances.rs:983-1102 | a withdrawal with any receipt from any pool: value at deposit, price ratio and value now each floored in turn, the cap, what the last holder takes and leaves, or which error |
| PoolRecords.ReceiptRecordsDeposit | frame/plugins/src/balances.rs:436-457 | after every run each outstanding receipt was issued by one step of it, for the amount asked for, at the price and counter of that moment, and for the shares and value the pool gained |
| PoolRecords.PrincipalIsTheAmount | frame/plugins/src/balances.rs:440-443 | a run after which a receipt for shares worth nine says that ten were deposited |
| PoolRecords.RedemptionPays | frame/plugins/src/balances.rs:1014-1099 | after every run a receipt is redeemed for its value at deposit times the floored price ratio, floored, or for everything by the last holder, and not at all where that does not fit |
| PoolRecords.UndrainedRedemptionPays | frame/plugins/src/balances.rs:1035-1050 | for a receipt in range that saw no drain: exactly its shares at its own price, times the price ratio floored first |
| PoolRecords.DrainedRedemptionPays | frame/plugins/src/balances.rs:1023-1050 | for one that did: exactly its shares at the current price |
| PoolRecords.RatioIsFlooredFirst | frame/plugins/src/balances.rs:1040-1050 | a run after which a receipt is paid 11, where flooring once would pay 12 |
| PoolRecords.CountersCountRepricings | frame/plugins/src/balances.rs:226-242 | after every run the counter is the number of repricings since the pool last restarted, and the drain mark that number at the last repricing to zero, both up to saturation |
| PoolArithmetic.SharesNeverOverpriced | frame/plugins/src/balances.rs:378-398 | the shares a deposit buys are never worth more than the deposit, clamped or not |
| PoolArithmetic.SharesAreMaximal | frame/plugins/src/balances.rs:378-398 | in range one more share would cost more than the deposit |
| PoolArithmetic.DepositValueFits | frame/plugins/src/balances.rs:1014-1021 | the deposit-time value of an issued receipt never overflows, whatever its principal |
| PoolArithmetic.QuoteAtMost | frame/plugins/src/balances.rs:1014-1063 | no quote exceeds the shares at the current price, through three floorings and two clamps |
| PoolArithmetic.QuoteLossBounded | frame/plugins/src/balances.rs:1014-1063 | in range the floorings of a quote lose less than one unit and one unit of precision per unit of principal |
| PoolArithmetic.QuoteExists | frame/plugins/src/balances.rs:1014-1063 | a quote of an issued receipt exists if and only if the price ratio, unless drained, and the deposit-time value times that ratio fit |
| PoolArithmetic.QuoteDefined | frame/plugins/src/balances.rs:1014-1063 | it exists where the shares at the current price and the price ratio fit |
| PoolArithmetic.QuoteMono | frame/plugins/src/balances.rs:1014-1063 | a higher price never quotes less |
| PoolRuns.SettleInFull | frame/plugins/src/balances.rs:1063-1099 | a solvent pool pays the worth in full, the last holder takes all, and what remains is solvent |
| PoolRuns.RedemptionStep | frame/plugins/src/balances.rs:983-1102 | redeeming an outstanding receipt changes nothing, pays its worth, or pays the last holder the whole pool; the three cases are told apart by the worth and the other receipts |
| PoolRuns.StepKeepsValid | frame/plugins/src/balances.rs:316-1428 | every step, failing ones included, keeps solvency, backing of shares by receipts, the books and the drain marks |
| PoolRuns.RunKeepsValid | frame/plugins/src/balances.rs:316-1428 | so does every run |
| PoolSafety.ReachableIsValid | frame/plugins/src/balances.rs:316-1428 | the invariant holds in every state reachable from an untouched pool |
| PoolSafety.EveryRunIsSolvent | frame/plugins/src/balances.rs:1014-1063 | after every run the shares at the price are covered, and a receipt is worth at most its shares at that price, at most its pro-rata part of the pool, and at most what is there: the cap never changes a payment and no subtraction underflows |
| PoolSafety.EveryRunBalances | frame/plugins/src/balances.rs:1065-1099 | after every run the value is what came in less what went out, the issued shares are those of the outstanding receipts, and receipts exist exactly while shares do |
| PoolSafety.OnlyReapLeaks | frame/plugins/src/balances.rs:816-832 | value is lost in a failing step if and only if it is a partial reap whose new price does not fit; then exactly the asked amount is lost at the old price |
| PoolSafety.CountersRecogniseDrains | frame/plugins/src/balances.rs:1023-1033 | for every outstanding receipt the drain test holds if and only if a repricing to zero happened since its deposit and its stamp was not saturated |
| PoolSafety.CountersResetWhenEmpty | frame/plugins/src/balances.rs:1083-1098 | the counters go back only when no receipt is outstanding |
| PoolSafety.MintsOneByOne | frame/plugins/src/balances.rs:226-242 | a run of any length that leads the counter up to saturation |
| PoolSafety.SaturatedCounterMissesDrain | frame/plugins/src/balances.rs:226-242 | a reachable receipt saw price zero and the drain test does not show it |
| PoolDrift.DustNeverShrinks | frame/plugins/src/balances.rs:378-1063 | between repricings the dust only grows while shares remain, in range or not |
| PoolDrift.RepricingLeavesLessThanIssued | frame/plugins/src/balances.rs:636-645 | a new price leaves less dust than there are shares |
| PoolDrift.StepWithinAllowance | frame/plugins/src/balances.rs:378-1063 | a deposit adds less dust than one share costs, a withdrawal less than one unit plus the principal, an emptied pool has none |
| PoolDrift.EveryRunBoundsDust | frame/plugins/src/balances.rs:378-1063 | over every run in range the dust is non-negative and within the sum of those allowances since the last repricing |
| PoolDrift.WorthNearProRata | frame/plugins/src/balances.rs:1014-1063 | after every run a receipt in range is worth at most its pro-rata part of the pool, and short of it by a stated error |
| Redemption.OthersKeepTerms | frame/plugins/src/balances.rs:333-457 | deposits and redemptions of others change neither price, drain mark nor receipt of an outstanding holder |
| Redemption.OthersKeepPayment | frame/plugins/src/balances.rs:983-1102 | whatever others deposit and redeem first, a receipt is paid its worth at the start, or fails as it would have, or is last and takes all |
| Redemption.PaidInOrder | frame/plugins/src/balances.rs:983-1102 | in any redemption order every receipt but the last is paid its worth at the start |
| Redemption.AnyOrderPaysEverything | frame/plugins/src/balances.rs:1065-1099 | redeeming all receipts in any order pays out exactly the value of the pool and leaves it empty |
| Redemption.OrderDoesNotMatter | frame/plugins/src/balances.rs:983-1102 | two orders pay a receipt that is last in neither the same amount |
| Redemption.EveryReceiptIsRedeemable | frame/plugins/src/balances.rs:1146-1180 | every outstanding receipt of every run passes the check; with the value of the pool in range its withdrawal succeeds if and only if it predates a drain or the price ratio fits |
| Redemption.RoundTrip | frame/plugins/src/balances.rs:375-404 | deposit, let others act, withdraw: in range at most the principal comes back, and more than the principal less one unit and one share price, or everything for the last holder |
| Revaluation.PreviewOf | frame/plugins/src/balances.rs:1277-1325 | in a valid world the preview is the worth, or the whole pool for the last holder |
| Revaluation.MintRaisesPrice | frame/plugins/src/balances.rs:630-650 | a mint never lowers the price, whatever dust there is |
| Revaluation.MintNeverLowersPreviews | frame/plugins/src/balances.rs:630-650 | a mint never lowers the preview of any receipt of any run, also where its price is zero |
| Revaluation.DrainSucceeds | frame/plugins/src/balances.rs:1377-1428 | in every reachable state a drain succeeds, removes exactly the value, keeps the receipts, and prices them at zero |
| Revaluation.LiftedIff | frame/plugins/src/balances.rs:630-645 | while a receipt is outstanding a step lifts the price from zero if and only if it is a mint, or a reap of less than everything, that leaves between one inner unit a share and what a price can hold |
| Revaluation.DrainedUntilLift | frame/plugins/src/balances.rs:753-755 | after a drain and any steps none of which lifts the price, refused and small mints included, every non-zero deposit is refused and every receipt previews zero, or everything for the last holder |
| Revaluation.DrainedUntilMint | frame/plugins/src/balances.rs:753-755 | so through any steps but mints the pool holds nothing, deposits are refused and every receipt previews zero |
| Revaluation.MintLeavesPriceAtZero | frame/plugins/src/balances.rs:753-755 | a run in which a deposit is still refused after a mint, and the holder previews what was minted |
| Revaluation.ReapLiftsPrice | frame/plugins/src/balances.rs:822-832 | a run in which a reap raises the price from zero |
| Revaluation.RevivedPool | frame/plugins/src/balances.rs:630-650 | drain then mint keeps all receipts and shares, prices them by the minted value, and marks unsaturated receipts as drained |
| Revaluation.Revival | frame/plugins/src/balances.rs:1029-1063 | after it each unsaturated receipt but the last gets its shares at the new price, floored, whatever its price and principal |
| Revaluation.StaleRevival | frame/plugins/src/balances.rs:1023-1063 | after it a receipt stamped at the saturated counter fails if and only if the ratio of the prices does not fit, and else gets its shares at the new price up to a stated error |
| Checks.SuccessWasAdmitted | frame/plugins/src/balances.rs:501-551 | a successful deposit, withdrawal, non-zero mint or non-zero reap was admitted by its check in the same state |
| Checks.RedeemableIff | frame/plugins/src/balances.rs:1146-1180 | in every reachable pool any receipt passes the check if and only if it has shares, and no more than all outstanding receipts together; else it is refused as the withdrawal refuses it |
| Checks.NothingRedeemableWhenEmpty | frame/plugins/src/balances.rs:1146-1180 | once everything is redeemed every receipt is refused |
| Checks.SpentReceiptIsRefused | frame/plugins/src/balances.rs:1146-1180 | a run after which its spent receipt is refused |
| Checks.DepositableIff | frame/plugins/src/balances.rs:501-551 | in every reachable pool a deposit passes the check if and only if nobody has deposited, or the price is not zero and the value fits; what is refused fails |
| Checks.AdjustableIff | frame/plugins/src/balances.rs:689-722 | in every reachable pool a mint or a reap passes its check if and only if it is not zero, somebody holds a receipt and the value stays in bounds; else it is refused as the operation refuses it |
| Checks.AdmittedDeposit | frame/plugins/src/balances.rs:501-551 | in every reachable pool an admitted deposit succeeds if and only if it is non-zero and, where shares are issued, covers the price of one and overflows neither quotient nor shares |
| Checks.AdmittedDepositFails | frame/plugins/src/balances.rs:501-551 | a reachable pool where an admitted deposit buys no share |
| Checks.AdmittedRepricing | frame/plugins/src/balances.rs:689-722 | an admitted mint or reap succeeds if and only if the new price fits |
| Checks.AdmittedMintFails | frame/plugins/src/balances.rs:689-722 | a reachable pool where an admitted mint is refused |
| Checks.AdmittedReapLeaks | frame/plugins/src/balances.rs:879-911 | a reachable pool where an admitted reap is refused and its amount lost |
| Checks.AdmittedRedemption | frame/plugins/src/balances.rs:1146-1180 | an outstanding receipt is always admitted, and succeeds if and only if the price ratio, unless drained, and the deposit-time value times that ratio fit |
| Checks.AdmittedRedemptionFails | frame/plugins/src/balances.rs:1146-1180 | a run after which an outstanding receipt is admitted and cannot be redeemed |
| Checks.MinimumCoversPrice | frame/plugins/src/balances.rs:3758-3773 | the guard's minimum, value over shares rounded up, buys at least one share |
| Checks.DepositGuardIff | frame/plugins/src/balances.rs:3730-3781 | in every reachable pool the guard lets a deposit through if and only if it is not zero and, where somebody has deposited, the user is new, the price is not zero, the quotient fits, and, where the guard can tell, amount times shares covers the value |
| Checks.GuardedDeposit | frame/plugins/src/balances.rs:3730-3781 | a guarded deposit fails only on asset or share overflow, or buys no share if and only if the guard's minimum overflows and the amount is below the price |
| Checks.GuardMissesSmallDeposit | frame/plugins/src/balances.rs:3730-3781 | a reachable pool where the guard admits a deposit that buys no share |
| ManualLedger.ManualBalance.Deposit | frame/plugins/src/balances.rs:4117-4136 | whole new ledger and error of a deposit, clamped; a success forgets the snapshot |
| ManualLedger.ManualBalance.Withdraw | frame/plugins/src/balances.rs:4143-4160 | whole new ledger and floored payment; the snapshot entry goes even where the user is unknown |
| ManualLedger.ManualBalance.AddParts | frame/plugins/src/balances.rs:4192-4205 | the loop over the users adds to each its floored part, in whatever order, or overflows if and only if some user does |
| ManualLedger.ManualBalance.SubtractParts | frame/plugins/src/balances.rs:4237-4240 | the loop over the users takes from each its floored part, in whatever order, or overflows if and only if some user does |
| ManualLedger.ManualBalance.Mint | frame/plugins/src/balances.rs:4167-4210 | whole new ledger of a mint, by balances or, after a drain, by the snapshot, or the overflow that ends it |
| ManualLedger.ManualBalance.Reap | frame/plugins/src/balances.rs:4217-4243 | whole new ledger of a reap, which drains from the floored total on, or the overflow that ends it |
| ManualLedger.ManualBalance.Drain | frame/plugins/src/balances.rs:4249-4266 | all balances become zero and the old ones are the snapshot, unless there was nothing or the total overflows |
| ManualLedger.Sum | frame/plugins/src/balances.rs:4039-4041 | adding the balances up in any order gives their total, or overflows if and only if the total does |
| LedgerSteps.MintRaises | frame/plugins/src/balances.rs:4176-4205 | a mint raises each balance by exactly its part, the ratio of its weight floored and then the part floored, with the balances as weights or, after a drain, the snapshot |
| LedgerSteps.ReapLowers | frame/plugins/src/balances.rs:4224-4240 | a reap of less than the floored total lowers each balance by exactly its part |
| LedgerSteps.WipeLeavesNothing | frame/plugins/src/balances.rs:4227-4266 | a drain, or a reap from the floored total on, zeroes every balance and keeps the old ones |
| LedgerSteps.HolderRefusedIff | frame/plugins/src/balances.rs:4117-4160 | which deposits and withdrawals are refused, with which error, and the clamped balance or floored payment of the others |
| LedgerSteps.AdjustmentRefusedIff | frame/plugins/src/balances.rs:4167-4266 | which mints, reaps and drains are refused, with which error, and that a refusal changes nothing |
| LedgerSteps.SnapshotIsOfLastWipe | frame/plugins/src/balances.rs:4075-4266 | after every run there is a snapshot if and only if the balances were wiped and neither a new user nor a mint into something followed, and it holds for each user still there the balance from before that wipe |
| LedgerSteps.RevivalPaysNothing | frame/plugins/src/balances.rs:4176-4193 | three users of one unit, drained, and three units minted: each is paid nothing |
| LedgerPrecision.PartNearExact | frame/plugins/src/balances.rs:4192-4205 | a part, floored twice, is short of the exact one by less than the value plus one inner units, and never overflows |
| LedgerPrecision.DepositIsExact | frame/plugins/src/balances.rs:4117-4136 | a deposit in range does in fixed point what it does on exact numbers |
| LedgerPrecision.WithdrawIsFloored | frame/plugins/src/balances.rs:4143-4160 | so does a withdrawal, which pays the exact balance rounded down |
| LedgerPrecision.MintNearExact | frame/plugins/src/balances.rs:4167-4210 | a mint gives the exact result and snapshot, and every user at most the exact balance, less than the value plus one inner units short of it |
| LedgerPrecision.ReapNearExact | frame/plugins/src/balances.rs:4217-4243 | a reap whose total fits never overflows, drains where the exact one drains, and leaves every user at least the exact balance, less than the value plus one inner units beyond it |
| LedgerPrecision.DrainIsExact | frame/plugins/src/balances.rs:4249-4266 | a drain does in fixed point what it does on exact numbers |
| LedgerRuns.RaisedWithin | frame/plugins/src/balances.rs:4192-4205 | all parts together are at most the value they are parts of |
| LedgerRuns.NextOverflowsIff | frame/plugins/src/balances.rs:4091-4266 | after every run the next step overflows if and only if there are users, it is a drain or a non-zero mint or reap, and their total does not fit or a mint would leave one of them more than fits; a revival never overflows |
| LedgerRuns.NeverHoldsMore | frame/plugins/src/balances.rs:4091-4266 | after every run that did not overflow neither balances nor snapshot exceed the deposits and mints, clamped or not |
| LedgerRuns.EveryRunFits | frame/plugins/src/balances.rs:4091-4266 | so while deposits and mints add up to an amount in range no step overflows |
| LedgerRuns.LedgerOverflows | frame/plugins/src/balances.rs:4039-4041 | with one unit more a run of two deposits and a drain overflows |
| LedgerRuns.PoolHandlesIt | frame/plugins/src/balances.rs:1377-1428 | the share pool takes the same two deposits and drains them in full |
| LedgerRuns.ClampedRunGoesOn | frame/plugins/src/balances.rs:4167-4210 | a run of far larger deposits and mints that does not overflow |
| ReferenceGap.EveryRunBoundsGap | frame/plugins/src/balances.rs:4091-4266 | over every run in range, drains, revivals and split reaps included, each balance of the ledger is within an error, summed up step by step, of the user's shares at the pool's price, and so is the snapshot at the price it was taken |
| ReferenceGap.EveryPaymentNear | frame/suite/src/assets.rs:2807-2841 | after every such run the ledger grants each withdrawal the pool grants, and the two payments are apart by at most that error and the floorings of one payment |
| ReferenceGap.AllowedGapNeverDrifts | frame/suite/src/assets.rs:2807-2841 | an allowed difference that covers the error rules out drift in that withdrawal |
| Refinement.ShareOfValue | frame/plugins/src/balances.rs:4192-4205 | handing out a value by weights proportional to the shares is the same as moving to the price that is worth that much more |
| Refinement.DepositAgrees | frame/plugins/src/balances.rs:4117-4136 | a deposit the pool accepts is accepted by the ledger and keeps the balances equal to shares at the price |
| Refinement.WithdrawAgrees | frame/plugins/src/balances.rs:4143-4160 | both models always grant a held withdrawal and pay the same, through drains and revivals |
| Refinement.MintAgrees | frame/plugins/src/balances.rs:4167-4210 | both always grant a mint while somebody holds a receipt, and stay related, also when reviving from the snapshot |
| Refinement.ReapAgrees | frame/plugins/src/balances.rs:4217-4241 | a reap that does not split a fraction keeps them related |
| Refinement.DrainAgrees | frame/plugins/src/balances.rs:4249-4266 | both always grant a drain and stay related |
| Refinement.SplitReapDisagrees | frame/plugins/src/balances.rs:4227-4230 | a reap of the floored but not the exact total leaves every ledger user nothing and every receipt something |
| Refinement.StepAgrees | frame/plugins/src/balances.rs:4091-4266 | from related states the ledger accepts what the pool accepts, pays the same, and they stay related if and only if the step is not a split reap |
| Refinement.OnlyLedgerAccepts | frame/plugins/src/balances.rs:4091-4266 | the ledger alone accepts if and only if it is a non-zero deposit at price zero or a reap of more than there is |
| Refinement.RunIsRelated | frame/plugins/src/balances.rs:4091-4266 | after every run without a split reap the two models are related |
| Refinement.EveryRunRefines | frame/plugins/src/balances.rs:4091-4266 | after every such run the pool pays each user exactly the ledger's balance, both know the same users, and the ledger accepts what the pool accepts next |
| Refinement.SplitReapHappens | frame/plugins/src/balances.rs:4227-4230 | a run of two deposits, a mint and a withdrawal leads to a split reap |
| SharesSpec.Sort | frame/plugins/src/rewards.rs:1813-1814 | the same entries, larger remainders first, ties in the order of the payees |
| SharesPay.AddUp | frame/plugins/src/rewards.rs:1781-1786 | the loop gives the sum of the shares, clamped |
| SharesPay.FloorParts | frame/plugins/src/rewards.rs:1794-1808 | the pass gives every floored part, every remainder, and the clamped sum of the parts |
| SharesPay.TopUp | frame/plugins/src/rewards.rs:1815-1821 | the loop tops up as many of the sorted payees as units are left, each once |
| SharesPay.Pay | frame/plugins/src/rewards.rs:1777-1828 | every payee, in order, with its payment; nobody where the shares are zero |
| PayoutGuarantees.PositionIsRank | frame/plugins/src/rewards.rs:1813-1821 | a payee stands in the sorted order at the number of payees ahead of it |
| PayoutGuarantees.PaymentByRank | frame/plugins/src/rewards.rs:1799-1821 | each payment is the floored part, and one more if and only if the rank is below what flooring left over, clamped or not |
| PayoutGuarantees.PaymentsAddUp | frame/plugins/src/rewards.rs:1732-1764 | for all inputs: the payments add up to the payout where it is between the floored parts and one unit a payee more, and to the nearer of the two bounds elsewhere |
| PayoutGuarantees.RatiosNearOne | frame/plugins/src/rewards.rs:1800-1800 | the floored ratios add up to at most one and fall short by less than one unit of precision a payee |
| PayoutGuarantees.NeverOverpays | frame/plugins/src/rewards.rs:1777-1828 | with the shares in range the payments never exceed the payout, however large it is |
| PayoutGuarantees.ShortfallBounded | frame/plugins/src/rewards.rs:1777-1828 | with the shares and the payout P in range, n payees are paid at most P*(n-1)/D less than P, and exactly P where P*(n-1) < D+n |
| PayoutGuarantees.PaymentNearExact | frame/plugins/src/rewards.rs:1777-1828 | with the shares in range each payment exceeds the exact part P*s/S of the payout by at most one unit, and is short of it by at most one unit and P/D |
| PayoutGuarantees.ThreeWaySplitFallsShort | frame/plugins/src/rewards.rs:1732-1764 | three equal shares of 100 tokens of 18 decimals leave 97 units unpaid |
| PayoutGuarantees.SaturatedSharesOverpay | frame/plugins/src/rewards.rs:1799-1802 | two shares beyond fixed point are each paid the whole |
| PayoutGuarantees.EntitledTo | frame/plugins/src/rewards.rs:1794-1804 | what a payee is entitled to: the ratio of the clamped shares floored, times the clamped payout floored, and its whole part |
| PayoutGuarantees.LargestRemainderFirst | frame/plugins/src/rewards.rs:1804-1821 | where cutting to whole units took more from one payee than from another, or as much from an earlier one, the other is given a unit more only if the one is |
| PayoutGuarantees.SmallerSharesToppedUp | frame/plugins/src/rewards.rs:1804-1821 | ten units for shares of 5, 3 and 3 are paid as 4, 3 and 3 |
| PayoutGuarantees.LargerEntitlementGetsNoLess | frame/plugins/src/rewards.rs:1799-1821 | a strictly larger entitlement never gets less |
| PayoutGuarantees.LargerShareTrailsByAtMostOne | frame/plugins/src/rewards.rs:1799-1821 | a share at least as large never trails by more than one unit |
| Elections.NoLoads | frame/plugins/src/elections.rs:596-602 | every backer named anywhere starts at zero, so that no later lookup misses |
| Elections.ImposedLoad | frame/plugins/src/elections.rs:610-627 | the loop gives the largest load the candidate would put on a backer |
| Elections.PickBest | frame/plugins/src/elections.rs:606-635 | the scan finds the first candidate of least imposed load |
| Elections.ChargeBackers | frame/plugins/src/elections.rs:645-655 | the loop adds each contribution to its backer |
| Elections.RankNext | frame/plugins/src/elections.rs:606-655 | one turn of the loop is one round of the election on weighted votes |
| Elections.PhragmenModel | frame/plugins/src/elections.rs:588-660 | the model returns the ranking of the weighted slate and terminates |
| Elections.RankLeastLoaded | frame/plugins/src/elections.rs:738-772 | one turn of the loop is one round of the election on plain votes |
| Elections.MaxMinLoadModel | frame/plugins/src/elections.rs:721-777 | the model returns the ranking of the plain slate and terminates |
| ElectionGuarantees.RankingIsPermutation | frame/plugins/src/elections.rs:637-643 | every candidate is ranked once, with duplicate names as often as they occur |
| ElectionGuarantees.BestIsFirstMinimal | frame/plugins/src/elections.rs:629-634 | the choice imposes no more than any candidate and strictly less than every earlier one |
| ElectionGuarantees.KeysNeverDecrease | frame/plugins/src/elections.rs:588-660 | the loads imposed by successive choices never decrease, under any names |
| ElectionGuarantees.RoundsTrack | frame/plugins/src/elections.rs:645-655 | after each round every load is the sum of the backer's contributions to the ranked candidates, and exactly the others remain |
| ElectionGuarantees.GreedyIff | frame/plugins/src/elections.rs:588-660 | a ranking is the model's if and only if every position holds the first unranked candidate of least imposed load, stated from the slate alone |
| ElectionGuarantees.LastKeyIsLargestIff | frame/plugins/src/elections.rs:588-660 | with distinct names the load of the last choice is the largest any backer bears after every round if and only if no elected candidate, over all its entries for a backer, charges beyond the load it was chosen by |
| ElectionGuarantees.LastKeyIsLargestLoad | frame/plugins/src/elections.rs:588-660 | with distinct names, and at most one non-zero entry of each candidate for a backer, the load of the last choice is the largest any backer bears, after each round |
| ElectionGuarantees.OneEntryIff | frame/plugins/src/elections.rs:610-627 | a candidate's votes never charge beyond the load it is scored by, whatever was borne before, if and only if no backer has two non-zero entries among them |
| ElectionGuarantees.DuplicateBackerOutgrowsKey | frame/plugins/src/elections.rs:610-627 | a backer named twice by one candidate ends up above the load it was scored by |
| ElectionGuarantees.DuplicateNameChargesTheFirst | frame/plugins/src/elections.rs:637-643 | of two candidates under one name the cheaper is scored and the first is removed and charged |
| ElectionScale.BestScales | frame/plugins/src/elections.rs:609-635 | scaling loads and contributions alike moves no first minimum |
| ElectionScale.RoundsScale | frame/plugins/src/elections.rs:588-660 | after any number of rounds the scaled election has the same ranking and scaled loads |
| ElectionScale.ScaleDoesNotMatter | frame/plugins/src/elections.rs:520-540 | with any positive scale, none, or unweighted, Phragmen ranks as the max-min model |
| ElectionScale.ScaleZeroKeepsOrder | frame/plugins/src/elections.rs:520-540 | a scale of zero ranks the candidates in the order of the input |
| Explorer.Results.RecordPass | frame/suite/src/assets.rs:2867-2876 | one more pass under the next number, all else unchanged |
| Explorer.Results.RecordErr | frame/suite/src/assets.rs:2847-2862 | one more trap if the reason is the expected one, one more failure otherwise |
| Explorer.Results.RecordExit | frame/suite/src/assets.rs:2946-2950 | one more drift under the next number |
| Explorer.DrawMenu | frame/suite/src/assets.rs:2468-2657 | the operations one state tries, in their order: a deposit for every user and slot, each with an amount on the list, a withdrawal for every user, a mint and then a reap for every adjustment slot, a drain |
| ExplorerSteps.MenuAt | frame/suite/src/assets.rs:2468-2657 | what stands at each place of a menu |
| Explorer.TryOne | frame/suite/src/assets.rs:2468-2657 | an admitted step becomes a child, an event that reports it, or the end of the program, through the reference model or the comparison |
| Explorer.ExpansionShrinks | frame/suite/src/assets.rs:2446-2657 | replacing a state by its children lowers the sum of (branching+1)^(steps left) over the queue |
| Explorer.Expand | frame/suite/src/assets.rs:2468-2657 | every admitted operation of a menu becomes a reached state one step longer or an event that reports it, unless the arithmetic of a guard, of the reference model or of a comparison ends the program |
| Explorer.VisitState | frame/suite/src/assets.rs:2458-2657 | a state is expanded with a whole menu if and only if neither of its hashes repeats an earlier one or the other |
| Explorer.Process | frame/suite/src/assets.rs:2446-2657 | a state from the queue is reported as a violation or a pass, or visited; only a state that passed the hash test has children |
| Explorer.NothingExpandedIff | frame/suite/src/assets.rs:2446-2466 | nothing is expanded if and only if the start state breaks the invariant, the depth limit is zero, or both hashers agree on the start state |
| Explorer.RepeatedHasherExpandsNothing | frame/suite/src/assets.rs:2458-2466 | the first hasher given again as the second expands nothing |
| Explorer.Explore | frame/suite/src/assets.rs:2376-2658 | for any draws the exploration terminates, shallow states first; its report holds exactly the events, each justified by an admitted run; a state is pruned if and only if its hashes repeat; unless a guard, the reference model or a comparison overflows, every known state is handled and every expanded one accounts for each admitted operation of a menu |
| ExplorerSteps.RequestsWereAllowed | frame/suite/src/assets.rs:2402-2427 | every request of a run was on the menu, let through by the guard or a trap, and in the flow of the model and of the trap, in the state where it was asked |
| ExplorerSteps.AllowedIsTried | frame/suite/src/assets.rs:2402-2657 | every operation on the menu of an expanded state that is so let through leaves a known state or an event, those that only a trap lets through included |
| ExplorerSteps.FailureWasAllowed | frame/suite/src/assets.rs:2402-2657 | every reported failure is a violation of a reached state, or that of an operation so let through |
| ExplorerSteps.DriftWasAllowed | frame/suite/src/assets.rs:2556-2565 | so is every reported drift |
| ExplorerSteps.EmptyDepositIsTrapped | frame/plugins/src/balances.rs:2530-2545 | a trap for empty deposits: the shipped guard refuses them, they are tried and filed as traps under the trace that ends in them |
| ExplorerSteps.KnownIsHandled | frame/suite/src/assets.rs:2446-2466 | every known state is reported as a violation, as a pass at full depth, or visited, in that order |
| ExplorerSteps.PrunedIff | frame/suite/src/assets.rs:2458-2466 | a visit is pruned if and only if one of its hashes was left by an earlier visit, a second hash only where that one was expanded, or both its hashes are the same |
| ExplorerSteps.NextIff | frame/suite/src/assets.rs:2468-2657 | a step leads to a state if and only if both models take it there and a withdrawal is within tolerance; the trace says what the lazy model moved |
| ExplorerSteps.FailedIff | frame/suite/src/assets.rs:2468-2657 | a step fails if and only if the lazy model, or else the manual one, refuses it, for that reason, under the trace that ends in the operation as it was asked for |
| ExplorerSteps.DriftedIff | frame/suite/src/assets.rs:2807-2841 | a step drifts if and only if it is a granted withdrawal out of tolerance, and reports both payments, their distance and its floored part of the larger one |
| ExplorerGuarantees.ExpandedApart | frame/suite/src/assets.rs:2458-2466 | no two expanded states share a hash, first or second |
| ExplorerGuarantees.PrunedHasTwin | frame/suite/src/assets.rs:2458-2466 | without a second hasher every visited state has the hash of one expanded no later |
| ExplorerGuarantees.ReplayRecords | frame/suite/src/assets.rs:2446-2657 | a state's trace is as long as its run and names exactly the holders of its receipts |
| ExplorerGuarantees.ReplaysItsTrace | frame/suite/src/assets.rs:2446-2657 | where the lazy model reports the amounts it is asked for, replaying a state's trace gives the state |
| ExplorerGuarantees.SharePoolReplaysItsTrace | frame/suite/src/assets.rs:2446-2657 | replaying the trace of any explored state of the share pool gives the state |
| ExplorerGuarantees.DriftIffOutOfTolerance | frame/suite/src/assets.rs:2807-2841 | a withdrawal both models grant ends the program if and only if a product of the comparison overflows, and else enters the run if and only if the payments differ by rounding or are within the relative or the absolute tolerance, in either direction |
| ExplorerGuarantees.ReportIsComplete | frame/suite/src/assets.rs:2963-2997 | each book holds exactly the events of its kind, numbered from one without gaps, none is dropped, and the traps are the failures with the expected reason |
| ExplorerGuarantees.ReachedIsPoolRun | frame/suite/src/assets.rs:2446-2657 | every explored state of the share pool is a run of the pool's own state machine with distinct outstanding receipts |
| ExplorerGuarantees.InvariantNeverFires | frame/plugins/src/balances.rs:3926-3940 | whatever the reference model and the guards, an explored share pool with receipts has issued shares |
| ShareChecker.ReachedIsLedgerRun | frame/plugins/src/balances.rs:4091-4266 | every explored state of the shipped reference is a run of the ledger's own state machine, over exactly the users that hold receipts |
| ShareChecker.StepEndsIff | frame/suite/src/assets.rs:2468-2657 | in an explored state a step ends the program if and only if the pool grants it and the ledger's total or a user's balance, or a product of the comparison, does not fit |
| ShareChecker.InRangeOnlyComparisonsEnd | frame/plugins/src/balances.rs:3809-3893 | while the amounts asked for add up to one in range neither the guards nor the ledger end the program |
| ShareChecker.GuardIff | frame/plugins/src/balances.rs:3730-3905 | in an explored state the guards let through exactly: a payable deposit of a new user, a held receipt, a mint that fits while the ledger can share it, a reap of no more than either model holds, a drain while somebody holds a receipt |
| ShareChecker.GuardedStepFails | frame/plugins/src/balances.rs:3730-3905 | in an explored state a step the guards let through never fails in the ledger, a drain never fails at all, and the pool fails the others only on an overflow, a price or worth that does not fit, or the gap of the deposit guard |

## Left out

- The plugin macros, input and output tags, copy-on-write handles, virtual dynamic fields and codecs are type plumbing; the errors for corrupted fields, malformed parameters and a zero divisor cannot occur on plain fields and are not modelled.
- `SharesUnderflow` is not modelled: the withdrawal tests the shares against `issued` before it subtracts.
- The limits models, `HasDeposits` and `TotalValue` are one-branch reads and have no theorem of their own; neither has `ReceiptDepositValue`, which reads the principal that `PoolRecords.ReceiptRecordsDeposit` is about.
- Subjects, variants and identifiers of an operation are ignored by the share balance and left out.
- The fixed-point type comes from `sp_runtime`, which is not part of this model: its checked operations are taken to floor and to fail above 128 bits, its conversion from integers to clamp, and its operators to floor and to end the program where the result does not fit.
- Receipts that no deposit issued, or that are presented twice, are outside the runs of `PoolRuns`; the withdrawal itself is modelled for any receipt.
- The bounds named "in range" need amounts whose fixed-point form fits in 128 bits, because the conversion clamps above; the solvency and order results hold without it.
- PoolDrift.WorthNearProRata: its lower bound is for receipts whose shares are in range.
- Refinement.EveryRunRefines: is about pool and ledger without rounding; `ReferenceGap` compares the two as they are, and neither compares a rounded run with its exact counterpart.
- LedgerPrecision.MintNearExact: bounds one step from the same ledger, as does the bound for reaps.
- ReferenceGap.EveryRunBoundsGap: needs every amount asked for in range; beyond it the ledger clamps a deposit that the pool takes in full.
- ReferenceGap.EveryPaymentNear: is for receipts whose shares are in range; beyond it the pool clamps them.
- ManualLedger.ManualBalance.Mint: says nothing of the balances after an overflow, because the program ends there; a build without overflow checks would wrap instead.
- Explorer.DrawMenu: a state's whole menu is drawn before it is tried, where the code draws each amount as it goes; the draws do not depend on the outcomes.
- The random generator is nondeterminism; reports in CSV, their times and paths, and the caller of the exploration are left out.
- Backed amounts and loads of the elections are unbounded naturals, candidates and backers natural numbers; overflow of a backer's type is not modelled.
- `EqualPay`, the sigmoid, exponential, logarithmic and annual payouts, influence, penalties, and the threshold, weighted and top-down elections are single expressions, filters, or rest on functions that are not part of this model.
- Commitments, accumulators, the pallets, the node and the runtime are not modelled.
