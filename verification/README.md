# Palomadex verification models

Dafny models of the four parts of the Palomadex contracts that carry the most state and arithmetic,
with proofs of what every step and every run of them keeps. `dafny verify dfyconfig.toml` checks
the whole project.

## What is modelled

**The staking ledger** (`contracts/stake`). `StakeState` holds the contract's storage as a value and
each message as a function from one storage to the next; `StakeContract` is the contract as a class
whose methods change that storage step by step in the source's loops, each proved to have exactly the
effect of its function; `Bonding` does the same for one staker's bond. On top of that, `StakeTotals`,
`StakeRewards` and `StakeBooks` prove the per-message invariants, `StakeQuickUnbond` settles when the
aggregated total update is right, `StakeRuns` proves solvency and token conservation over every run,
`StakeSolvency` exactly when a distribution keeps a flow solvent, `StakeUnclean` a run that ends with
rewards and stake stuck, `StakePower` what powers and credits are in terms of stakes and multipliers,
`StakeEffects` and `StakeFunding` what each message does to each staker and flow, `StakeLazy` that the
lazy reward ledger refines one that credits everybody at once, `StakeSchedules` that the times of
withdrawals do not matter, and `StakeExit` that no rebond lets a staker leave early.

**The price oracle** (`packages/palomadex/src/oracle.rs`). `OracleReference` defines the meaning: the
integral of the whole price history, floored once per stretch of constant price. `OracleState` proves
that every entry of the three shifting buffers is that integral at its own checkpoint after any
sequence of price stores, `OracleRange` and `OraclePrices` what the range queries answer, and
`OracleContract` is the accumulator, the index loop and the storage as classes and arrays.

**The constant-product pair** (`contracts/pair`). `PairMath` is the swap and reverse-quote arithmetic
with every floor written out; `PairPool` the pool as a state machine over deposits, swaps,
withdrawals, plain transfers, freezing and fee changes; `PairEffects` what each of them moves, pays and
refuses; `PairContract` the contract as a class. The pool is parametrised by the curve that computes a
swap, and the only thing it needs of it (`NeverLoses`) is proved of the constant-product one. The one way
for a swap to lower the product of the pools, a remainder lost to the 18 decimals of the price, is an exact
condition (`LosslessSwap`).

**The stableswap solver** (`contracts/pair_lsd`). `StableNewton` and `StableSwap` are the integer
Newton loop and the coefficients it solves for, `StableConvergence` the number of steps it needs,
`StableAnswer` what `calc_y` makes of its answer, `StableInvariant` the iteration for D of two pools in
exact arithmetic, `StableRounding` the two coefficients the code uses for it, `StableBisect` the
spot-price bisection over an arbitrary price function, and `StableAmp` the amplification schedule with its
two operations.

`FixedPoint`, `FiniteSums` and `Results` are shared: floored division, sums over finite sets of
addresses, and the error results. An arithmetic panic of the source is the error `Overflow`; as on the
host, a message that fails changes nothing.

## Assumptions

- Unbonding periods are distinct. The source sorts them but does not remove duplicates
  (contracts/stake/src/contract.rs:57-59); they and `tokens_per_power > 0` are part of the type `Config`.
  `min_bond >= 1` is what instantiation enforces (contracts/stake/src/contract.rs:52-53).
- Fee rates are at most 100%, as the factory checks (packages/palomadex/src/fee_config.rs:4-21).
- Block time does not run backwards, where a lemma says `InOrder` or `Ordered`.
- Amounts are unbounded integers; see Left out for the machine widths.

## Where the code and its words differ

- A mass delegation may send more than it delegates. Its documentation says the remainder is staked for
  the sender (packages/palomadex/src/stake.rs:44-45); the code adds it to the staked counter and to no
  bond (contracts/stake/src/contract.rs:493-497, 554-559). The model follows the code: the remainder is
  `undelegated`, and token conservation counts it.
- The total update asks for one staker's stake at a time (contracts/stake/src/contract.rs:566-567), but
  quick-unbonding passes an aggregate (contracts/stake/src/contract.rs:838-846). `QuickUnbondExact` and
  `QuickUnbondMatchesOneByOne` give the exact condition under which this is right. When it is not, the
  totals that later distributions are divided by can be smaller than the powers they are credited to:
  `NextDistributionPaysIff` says exactly when that leaves rewards unpaid, and `UncleanRun` is a run from
  instantiation in which it does. Nor can the stakes that are left always be had back: taking one off a
  powered total that does not contain all of it underflows (contracts/stake/src/contract.rs:600-610).
  `UnbondKeeps`, `MigrateKeeps`, `RebondKeeps` and `QuickUnbondSucceedsIff` give the exact conditions, and
  `StakeIsStuck` shows the same run ending with a staker who cannot unbond more than 370 of 500 unlocked
  tokens.
- An open-ended oracle query takes its start from the buffer brought forward to the present but its
  elapsed time from the stored `last_update`. `OpenElapsedIsRight` says exactly when the two agree and
  `OpenRangeHalved` shows a run in which they do not.
- Flooring the swap price to 18 decimals before subtracting it can give the trader one unit too much
  (`KeptIsCeilIff`) and lower the product of the pools (`SwapKeepsProductIff`, `SwapThatLoses`), and above
  an offer pool of 10^18 the spread can underflow (`SwapAnswersIff`). These conditions are exact.
- The comment on `calc_y` (contracts/pair_lsd/src/math.rs:64-72) and that on `compute_d` (lines 15-19) are
  about one amplification coefficient. The code keeps its fraction in `compute_d` (line 34) and floors it
  in `calc_y` (line 106, used in lines 128-130). `CoefficientsAgreeIff` is the exact condition under which
  the two still agree; `RampLeavesFraction` and `UnbalancedPools` are the input on which they do not.
- The Newton loop of `calc_y` is expected always to converge within 32 steps
  (contracts/pair_lsd/src/math.rs:146). With two pools it does for every D up to 2^42 times the amplified
  new offer balance (`TwoPoolsConverge`) and for no D from 2^64 times it on (`TwoPoolsRunOut`).
  `LoopRunsOut` is a reverse quote (contracts/pair_lsd/src/contract.rs:1323-1331) that fails for that reason.

## Model

| member | source | states |
|---|---|---|
| `Bonding.InsertCounts` | contracts/stake/src/state.rs:62-71 | a locked deposit adds exactly its amount and is free by exactly the deadlines at or after its expiry, whichever way the binary search ended |
| `Bonding.SearchSeparates` | contracts/stake/src/state.rs:63-70 | the binary search on (expiry, amount) finds a place that separates earlier from later expiries even where merged entries have broken the order of amounts |
| `Bonding.InsertKeepsSorted` | contracts/stake/src/state.rs:62-71 | the locked entries stay sorted by expiry |
| `Bonding.FreeingConserves` | contracts/stake/src/state.rs:73-87 | freeing expired entries creates and loses nothing |
| `Bonding.FreeingKeepsDeadlines` | contracts/stake/src/state.rs:73-87 | freeing now does not change what is free by any later deadline |
| `Bonding.ReleaseMeaning` | contracts/stake/src/state.rs:89-99 | a release succeeds iff the amount is unlocked by now; it takes exactly that from the total and from every later deadline |
| `Bonding.BondingInfo.AddUnlockedTokens` | contracts/stake/src/state.rs:53-57 | adds to the unlocked part and returns its new value |
| `Bonding.BondingInfo.BinarySearch` | contracts/stake/src/state.rs:63-65 | the loop finds what the bisection function finds |
| `Bonding.BondingInfo.AddLockedTokens` | contracts/stake/src/state.rs:62-71 | merges or inserts in place; sorted entries stay sorted |
| `Bonding.BondingInfo.FreeUnlockedTokens` | contracts/stake/src/state.rs:73-87 | moves exactly the expired entries to the unlocked part, total unchanged |
| `Bonding.BondingInfo.ReleaseStake` | contracts/stake/src/state.rs:89-99 | frees first, then takes the amount or fails leaving the freed state |
| `Bonding.BondingInfo.ForceUnlockAll` | contracts/stake/src/state.rs:101-107 | everything becomes unlocked stake, total unchanged |
| `Bonding.BondingInfo.LockedTotal` | contracts/stake/src/state.rs:110-118 | the fold over the entries is their sum |
| `Bonding.BondingInfo.TotalStake` | contracts/stake/src/state.rs:133-145 | unlocked plus locked |
| `StakeTotals.UpdateTotalMeaning` | contracts/stake/src/contract.rs:568-618 | one stake moving from old to new moves both totals by the change of stake and of powered stake, in all eight branches, and fails exactly where a total would become negative |
| `StakeTotals.PutBondSums` | contracts/stake/src/contract.rs:511-526 | storing a bond moves the sum of stakes and of powered stakes of its own period only, by the change |
| `StakeTotals.PutBondKeepsTotals` | contracts/stake/src/contract.rs:568-618 | each period keeps staked = sum of stakes and powered = sum of the stakes of at least min_bond; with exact totals the update never fails |
| `StakeTotals.CalcPowerSuperadditive` | contracts/stake/src/utils.rs:24-30 | power does not grow by splitting a powered stake, through both floors |
| `StakeTotals.PeriodPowerBound` | contracts/stake/src/state.rs:250-266 | within a period the power of the powered total is at least the sum of the powers, despite both floors and the min_bond cut-off |
| `StakeTotals.TotalPowerBound` | contracts/stake/src/state.rs:250-283 | total_rewards_power is at least the sum of all calc_rewards_power |
| `StakePower.CalcPowerIs` | contracts/stake/src/utils.rs:24-30 | a stake of at least min_bond has the power stake times multiplier over tokens_per_power, rounded down once in spite of the two floors; a smaller one has none |
| `StakePower.RewardsPowerIs` | contracts/stake/src/state.rs:268-283 | a staker's power is the sum over the periods of stake times multiplier, in units of tokens_per_power, rounded down once a period |
| `StakePower.TotalPowerIs` | contracts/stake/src/state.rs:250-266 | the total power is the same sum over the stored powered totals |
| `StakePower.DistributePaysByWeight` | contracts/stake/src/distribution.rs:16-99 | a distribute message credits a staker the points of the flow times the staker's stakes at their multipliers, in units of power, too little by less than one unit a period and never too much |
| `StakePower.PointsAreShared` | contracts/stake/src/distribution.rs:56-93 | those points are what the balance, with the coins just received, holds beyond what is owed or locked, with the leftover, divided by the total power |
| `StakePower.CreditsAreProportional` | contracts/stake/src/distribution.rs:80-93 | any two stakers are credited in exact proportion to their powers |
| `StakeRewards.WithdrawableIs` | contracts/stake/src/distribution.rs:303-322 | withdrawable is the whole tokens of the entitlement less what was withdrawn; it is never negative, so the casts and the subtraction never fail |
| `StakeRewards.RewardsAreBacked` | contracts/stake/src/distribution.rs:144-159 | the sum of everyone's withdrawable rewards is at most withdrawable_total, and that at most the balance |
| `StakeRewards.EachWithdrawalIsBacked` | contracts/stake/src/distribution.rs:144-159 | no single withdrawal can underflow withdrawable_total |
| `StakeRewards.CorrectKeepsEntitlement` | contracts/stake/src/distribution.rs:285-301 | applying the points correction around any change of one staker's bonds leaves every staker's entitlement exactly as it was |
| `StakeRewards.SameClaimsSameBooks` | contracts/stake/src/contract.rs:918-938 | a change of stakes that keeps every entitlement keeps a flow's books and its solvency |
| `StakeRewards.CorrectKeepsFlow` | contracts/stake/src/contract.rs:918-938 | any corrected change of bonds keeps a flow's books and solvency |
| `StakeRewards.ScheduleFalls` | contracts/stake/src/contract.rs:236-264 | a reward schedule only unlocks as time advances |
| `StakeRewards.DistributableIsNat` | contracts/stake/src/distribution.rs:63-74 | with the books in order the amount to distribute never underflows, now or later |
| `StakeRewards.DistributeCredits` | contracts/stake/src/distribution.rs:80-93 | a distribution credits points per share times power to every staker and nothing else |
| `StakeRewards.DistributeOnlyAdds` | contracts/stake/src/distribution.rs:80-93 | only the counter, the leftover and the two totals of a flow change; the counter never falls |
| `StakeRewards.PointsAreConserved` | contracts/stake/src/distribution.rs:80-88 | the points a distribution credits to the total power and the leftover it stores never exceed the points there were; what is lost to the cast of the leftover is a multiple of 2^64 smaller than the total power, so nothing when that is at most 2^64 |
| `StakeRewards.NothingIsLeft` | contracts/stake/src/distribution.rs:63-93 | after a distribution over some power all of the balance is owed or still locked |
| `StakeRewards.DistributeKeepsFlow` | contracts/stake/src/distribution.rs:56-93 | distributing succeeds and keeps the books; it keeps solvency when the total power is at least everyone's power together |
| `StakeRewards.WithdrawKeepsFlow` | contracts/stake/src/distribution.rs:144-161 | a withdrawal from a solvent flow always succeeds and keeps it solvent |
| `StakeRewards.OnlyHoldersWithdraw` | contracts/stake/src/distribution.rs:303-322 | only a holder has anything to withdraw |
| `StakeBooks.MoveBondKeeps` | contracts/stake/src/contract.rs:511-551 | changing one bond with its total and corrections keeps the ledgers and fails iff the powered total is too small for the change; with exact totals it neither fails nor loses exactness |
| `StakeBooks.MoveBondsKeeps` | contracts/stake/src/contract.rs:374-438 | the same for the two bonds of a rebond |
| `StakeBooks.MassBondKeeps` | contracts/stake/src/contract.rs:467-564 | mass-bonding keeps all books and, whatever the powered totals are, succeeds iff none of its four checks fails; the remainder of the tokens is staked for nobody |
| `StakeBooks.RebondKeeps` | contracts/stake/src/contract.rs:337-445 | rebonding keeps all books and succeeds iff it is not switched off, the amount is positive and unlocked, both periods exist and differ, and the powered total of the old period covers what is taken off it, as exact totals always do |
| `StakeBooks.RemoveStakeKeeps` | contracts/stake/src/contract.rs:941-998 | removing stake takes exactly the amount from the staked sum and succeeds iff the amount is unlocked in an existing period whose powered total covers what is taken off it, as exact totals always do |
| `StakeBooks.UnbondKeeps` | contracts/stake/src/contract.rs:682-732 | unbonding keeps token conservation, the saturating subtraction never clips, and it succeeds iff the amount is unlocked in an existing period whose powered total covers what is taken off it, as exact totals always do |
| `StakeBooks.MigrateKeeps` | contracts/stake/src/contract.rs:177-234 | migrating keeps token conservation and succeeds iff a converter is set and the amount is unlocked in an existing period whose powered total covers what is taken off it, as exact totals always do |
| `StakeBooks.ClaimKeeps` | contracts/stake/src/contract.rs:1000-1027 | claiming pays exactly the matured claims, its saturating subtraction never clips, and it fails iff nothing has matured |
| `StakeQuickUnbond.AggregateIsExact` | contracts/stake/src/contract.rs:838-846 | passing the aggregate of many stakes to the total update counts powered stake exactly iff the period is clean: the aggregate is below min_bond or every stake in it is zero or at least min_bond |
| `StakeQuickUnbond.SweptSums` | contracts/stake/src/contract.rs:767-787 | the sweep collects per period exactly what the listed stakers had staked, and clears it |
| `StakeQuickUnbond.SweptFlows` | contracts/stake/src/contract.rs:789-805 | the sweep corrects every flow so that no entitlement changes |
| `StakeQuickUnbond.SweptPayments` | contracts/stake/src/contract.rs:807-830 | the sweep pays every listed staker all stake and claims, once, and drops the claims |
| `StakeQuickUnbond.ReducePeriodExact` | contracts/stake/src/contract.rs:838-846 | one period's aggregated update keeps the staked total exact, and the powered total iff the period is clean |
| `StakeQuickUnbond.ReduceTotalsExact` | contracts/stake/src/contract.rs:838-846 | the same over all periods |
| `StakeQuickUnbond.QuickUnbondExact` | contracts/stake/src/contract.rs:734-855 | quick-unbonding keeps the books and solvency whenever it succeeds; from exact totals it ends with exact totals iff the caller is the unbonder and every period is clean |
| `StakeQuickUnbond.QuickUnbondSucceedsIff` | contracts/stake/src/contract.rs:734-855 | whatever the powered totals are, quick-unbonding succeeds iff the caller is the unbonder and in each period the aggregate is below min_bond or at most the powered total |
| `StakeQuickUnbond.OneByOneIsSweep` | contracts/stake/src/contract.rs:734-855 | quick-unbonding the same stakers in separate calls always succeeds, keeps totals exact and makes the same changes to bonds, claims, corrections and payouts |
| `StakeQuickUnbond.TotalsAreDetermined` | contracts/stake/src/contract.rs:838-852 | bonds and claims determine the totals and counters |
| `StakeQuickUnbond.QuickUnbondMatchesOneByOne` | contracts/stake/src/contract.rs:734-855 | one call on a list (duplicates allowed) ends in the same state as one call per staker iff every period is clean |
| `StakeEffects.BondRaises` | contracts/stake/src/contract.rs:505-546 | bonding raises each staker's unlocked stake, in the period bonded for, by what the list delegates to that staker; locked entries, other periods, claims and payments stay |
| `StakeEffects.BondReach` | contracts/stake/src/contract.rs:505-546 | bonding raises what a staker can hold by a deadline by exactly that amount if the deadline leaves the whole unbonding period, and by nothing otherwise |
| `StakeEffects.UnbondPays` | contracts/stake/src/contract.rs:682-732 | unbonding releases the amount from one bond of the sender and adds a claim after the whole period; with the unbond-all flag on it pays at once and adds no claim |
| `StakeEffects.MigratePays` | contracts/stake/src/contract.rs:177-221 | migrating releases the amount and pays the converter at once |
| `StakeEffects.QuickUnbondPays` | contracts/stake/src/contract.rs:767-831 | quick-unbonding pays every listed staker all stake and all claims once, however often listed, and leaves neither; nobody else is touched |
| `StakeEffects.ClaimPays` | contracts/stake/src/contract.rs:1000-1027 | claiming pays the matured claims and keeps exactly the others |
| `StakeEffects.RebondMovesBonds` | contracts/stake/src/contract.rs:374-411 | a rebond releases the amount from the one bond and adds it to the other, free at once or after the difference of the periods |
| `StakeEffects.BondMessage` | contracts/stake/src/contract.rs:625-655 | a bond message acts for the staker it names |
| `StakeEffects.UnbondMessage` | contracts/stake/src/contract.rs:120-124 | an unbond message acts on the sender's stake with the amount and period it names |
| `StakeEffects.MigrateMessage` | contracts/stake/src/contract.rs:143-147 | so does a migrate message |
| `StakeEffects.RebondMessage` | contracts/stake/src/contract.rs:115-119 | so does a rebond message, from and to the periods it names |
| `StakeEffects.SwitchMessages` | contracts/stake/src/contract.rs:857-899 | who may lift and restore the periods and who may replace the admin, and that nothing else changes by it |
| `StakeFunding.ScheduleLocks` | contracts/stake/src/contract.rs:246-251 | a schedule locks everything until its start, nothing from its end on, and in between the part of the duration that is left, up to one token and 10^-18 of the amount |
| `StakeFunding.FundAdds` | contracts/stake/src/contract.rs:149-175 | funding adds each coin to the balance of its flow and one such schedule for each coin, and nothing else |
| `StakeFunding.FundTokenAdds` | contracts/stake/src/contract.rs:666-678 | the same for a received token |
| `StakeFunding.FundSucceedsIff` | contracts/stake/src/contract.rs:155-172 | exactly which fundings are refused |
| `StakeFunding.ReceiveEachAdds` | contracts/stake/src/distribution.rs:36-50 | coins that arrive with a message are added to the balances of their flows |
| `StakeFunding.CreateFlowIff` | contracts/stake/src/contract.rs:267-335 | exactly when a flow can be set up; longer periods never earn less, nobody is entitled to anything, and all the contract holds of the asset is to be distributed |
| `StakeFunding.WithdrawIff` | contracts/stake/src/distribution.rs:134-141 | only the owner and the delegate the owner named may withdraw, and from solvent flows they always can |
| `StakeFunding.DelegateNames` | contracts/stake/src/distribution.rs:171-185 | naming a delegate replaces the one before, for the sender alone |
| `StakeUnclean.UncleanRun` | contracts/stake/src/contract.rs:734-855 | a run from instantiation with min_bond 100: bonds of 60, 70 and 500, a flow holding 1000, a quick-unbond of the first two that leaves the totals at (500, 370), a distribution; the third staker, who only bonded, is then credited 1351 of 1000 and the withdrawal fails |
| `StakeUnclean.StakeIsStuck` | contracts/stake/src/contract.rs:600-610 | after that run the third staker can unbond at most 370 of 500 unlocked tokens in one message, at any later time, and a quick-unbond of that staker by the unbonder fails too |
| `StakeSolvency.EntitlementsGrow` | contracts/stake/src/distribution.rs:56-93 | a distribution raises the sum of all entitlements by points per share times everyone's power together, whatever total it was divided by |
| `StakeSolvency.OutweighedUnderpays` | contracts/stake/src/distribution.rs:56-93 | if everyone's power together exceeds the total, some amount, when distributed, leaves less to withdraw than is owed |
| `StakeSolvency.SolventForEveryAmountIff` | contracts/stake/src/distribution.rs:56-93 | a solvent flow stays solvent, and everyone stays covered, whatever amount is distributed over a positive total iff everyone's power together is at most that total |
| `StakeSolvency.NextDistributionPaysIff` | contracts/stake/src/distribution.rs:16-99 | the same of a contract: after the next distribute message everyone is covered, whatever amount arrived before it, iff the stored totals are zero or at least everyone's power together |
| `StakeRuns.FundAssetKeeps` | contracts/stake/src/contract.rs:236-264 | funding keeps the balance above withdrawable_total plus the locked part of the curve |
| `StakeRuns.DistributeAllKeeps` | contracts/stake/src/distribution.rs:55-96 | distributing over all flows succeeds and keeps the books, and solvency where every total is zero or at least everyone's power together |
| `StakeRuns.WithdrawAllKeeps` | contracts/stake/src/distribution.rs:143-166 | withdrawing from all flows keeps books and solvency and, from solvent flows, never fails |
| `StakeRuns.RewardMsgFrame` | contracts/stake/src/contract.rs:98-147 | reward messages leave stakes, totals, claims and token counters alone |
| `StakeRuns.ExecuteKeeps` | contracts/stake/src/contract.rs:98-147 | every message keeps the ledgers and token conservation, exact totals unless it is an unclean quick-unbond, and solvency unless it is a distribution over totals that everyone's power exceeds |
| `StakeRuns.StepKeeps` | contracts/stake/src/contract.rs:98-147 | the same of one message, successful or reverted |
| `StakeRuns.RunKeeps` | contracts/stake/src/contract.rs:98-147 | any run in time order keeps books and tokens; solvency if every distribution was weighed, exact totals if every quick-unbond was clean |
| `StakeRuns.InitIsGood` | contracts/stake/src/contract.rs:42-96 | a new contract satisfies the invariant |
| `StakeRuns.ExactIsWeighed` | contracts/stake/src/state.rs:250-283 | exact totals are at least everyone's power together, for every flow |
| `StakeRuns.CleanRunsAreWeighed` | contracts/stake/src/contract.rs:734-855 | in a run whose quick-unbonds are clean every distribution is weighed |
| `StakeRuns.BackedIsPayable` | contracts/stake/src/distribution.rs:144-159 | with books in order and every flow solvent, the withdrawable rewards of all are covered by withdrawable_total, and that plus the locked curve by the balance, and every withdrawal succeeds |
| `StakeRuns.EveryRunIsSolvent` | contracts/stake/src/distribution.rs:55-169 | over every run from instantiation whose distributions are weighed: all withdrawable rewards together are covered by withdrawable_total, that plus the locked curve by the balance, and every withdrawal succeeds, in any order |
| `StakeRuns.CleanRunsRelease` | contracts/stake/src/contract.rs:682-732 | over every run of clean quick-unbonds, an unbond at any later time succeeds iff the amount is unlocked in an existing period |
| `StakeRuns.EveryRunConservesTokens` | contracts/stake/src/contract.rs:199-205 | over every run: tokens held = staked + unbonding, unbonding = open claims, staked = all stakes plus undelegated remainders |
| `StakeRuns.DistributeNeverUnderflows` | contracts/stake/src/distribution.rs:16-99 | in every reachable state a distribution succeeds iff it is not switched off and every coin is supported |
| `StakeLazy.DistributeMoves` | contracts/stake/src/distribution.rs:80-93 | a distribution moves each entitlement by its points times the staker's power |
| `StakeLazy.StepMoves` | contracts/stake/src/contract.rs:98-147 | no other message moves any entitlement |
| `StakeLazy.LazyRefinesEager` | contracts/stake/src/distribution.rs:285-322 | after any run, counter times power plus correction is what a ledger that credits everyone at once holds |
| `StakeLazy.EagerBalanceIsPaid` | contracts/stake/src/distribution.rs:303-322 | from instantiation on the eager balance is never negative, and withdrawn plus withdrawable is its whole tokens |
| `StakeSchedules.AlikeExecute` | contracts/stake/src/contract.rs:98-147 | messages other than withdrawals cannot tell apart states that differ only in withdrawals |
| `StakeSchedules.WithdrawIsAlike` | contracts/stake/src/distribution.rs:111-169 | a withdrawal changes only what has been withdrawn |
| `StakeSchedules.WithdrawalsDoNotMatter` | contracts/stake/src/distribution.rs:111-169 | removing all withdrawals from a run changes nothing else |
| `StakeSchedules.AnyWithdrawalSchedule` | contracts/stake/src/distribution.rs:111-169 | withdrawn plus withdrawable is the same for any withdrawal schedule |
| `StakeExit.ReleaseExit` | contracts/stake/src/state.rs:89-99 | a release takes its amount from exactly the deadlines it could have left by |
| `StakeExit.RaisedExit` | contracts/stake/src/contract.rs:374-411 | a rebonded amount can leave from its new period exactly as late as the longer of the two periods allows |
| `StakeExit.RebondReach` | contracts/stake/src/contract.rs:374-411 | what can have been paid out by a deadline changes by a rebond exactly by the amount, for deadlines between the old and the longer period, and never grows |
| `StakeExit.UnbondReach` | contracts/stake/src/contract.rs:682-732 | unbonding turns stake that could leave by a deadline into a claim that matures by it |
| `StakeExit.ClaimReach` | contracts/stake/src/contract.rs:1000-1027 | claiming keeps what is within reach by every deadline |
| `StakeExit.OthersLeaveTokens` | contracts/stake/src/contract.rs:98-147 | what others do leaves a staker's tokens alone |
| `StakeExit.OwnReach` | contracts/stake/src/contract.rs:98-147 | what a staker does, short of bonding, never brings more within reach |
| `StakeExit.ExecuteFrame` | contracts/stake/src/contract.rs:857-876 | only an unbond-all message of the unbonder turns the flag on, and no message changes the configuration |
| `StakeExit.NoEarlyExit` | contracts/stake/src/contract.rs:374-411 | over every run in which nobody bonds for a staker and the unbonder does not unbond everybody or the staker, what is paid by a deadline is at most what was within reach at the start |
| `StakeContract.Contract.constructor` | contracts/stake/src/contract.rs:42-96 | the empty storage with one zero total per period |
| `StakeContract.Contract.SearchPeriod` | contracts/stake/src/contract.rs:485-491 | binary search in the sorted periods finds a period iff it exists |
| `StakeContract.Contract.CalcRewardsPower` | contracts/stake/src/state.rs:268-283 | the running sum is the staker's power |
| `StakeContract.Contract.TotalRewardsPower` | contracts/stake/src/state.rs:250-266 | the fold is the total power |
| `StakeContract.Contract.UpdateRewards` | contracts/stake/src/distribution.rs:285-301 | applies the correction to one flow in place |
| `StakeContract.Contract.UpdateEach` | contracts/stake/src/contract.rs:918-938 | the loop over all flows corrects each once |
| `StakeContract.Contract.UpdateTotalStake` | contracts/stake/src/contract.rs:568-618 | updates one period's total in place |
| `StakeContract.Contract.DelegateEach` | contracts/stake/src/contract.rs:505-546 | the loop over delegations bonds each in turn |
| `StakeContract.Contract.ExecuteMassBond` | contracts/stake/src/contract.rs:467-564 | the whole new storage, or the error |
| `StakeContract.Contract.ExecuteRebond` | contracts/stake/src/contract.rs:337-445 | the whole new storage, or the error |
| `StakeContract.Contract.RemoveStakeWithoutTotal` | contracts/stake/src/contract.rs:941-998 | stake, total and corrections change; the token counters do not |
| `StakeContract.Contract.ExecuteUnbond` | contracts/stake/src/contract.rs:682-732 | the whole new storage, or the error |
| `StakeContract.Contract.ExecuteMigrateStake` | contracts/stake/src/contract.rs:177-234 | the whole new storage, or the error |
| `StakeContract.Contract.ExecuteClaim` | contracts/stake/src/contract.rs:1000-1027 | the whole new storage, or the error |
| `StakeContract.Contract.ReleaseAll` | contracts/stake/src/contract.rs:774-787 | releases all of one staker's bonds, period by period, and adds them to the running sums |
| `StakeContract.Contract.SweepStaker` | contracts/stake/src/contract.rs:768-830 | one staker of the quick-unbond loop |
| `StakeContract.Contract.SweepEach` | contracts/stake/src/contract.rs:767-831 | the loop over the stakers |
| `StakeContract.Contract.ReduceAllTotals` | contracts/stake/src/contract.rs:838-846 | the loop over the periods that takes the sums off the totals |
| `StakeContract.Contract.ExecuteQuickUnbond` | contracts/stake/src/contract.rs:734-855 | the whole new storage, or the error |
| `StakeContract.Contract.ExecuteUnbondAll` | contracts/stake/src/contract.rs:857-876 | sets the flag for the unbonder only, once |
| `StakeContract.Contract.ExecuteStopUnbondAll` | contracts/stake/src/contract.rs:878-899 | clears the flag for the admin or the unbonder |
| `StakeContract.Contract.ExecuteUpdateAdmin` | contracts/stake/src/contract.rs:106-108 | the admin alone replaces the admin |
| `StakeContract.Contract.ExecuteCreateDistributionFlow` | contracts/stake/src/contract.rs:267-335 | adds an empty flow, or one of its errors |
| `StakeContract.Contract.ExecuteFundDistribution` | contracts/stake/src/contract.rs:149-175 | every coin extends the curve of its own flow |
| `StakeContract.Contract.ExecuteFundToken` | contracts/stake/src/contract.rs:655-680 | a received token extends the curve of its flow |
| `StakeContract.Contract.DistributeTo` | contracts/stake/src/distribution.rs:57-93 | one flow's distribution in place |
| `StakeContract.Contract.ExecuteDistributeRewards` | contracts/stake/src/distribution.rs:16-99 | the whole new storage, or the error |
| `StakeContract.Contract.WithdrawFrom` | contracts/stake/src/distribution.rs:145-161 | one flow's withdrawal in place |
| `StakeContract.Contract.ExecuteWithdrawRewards` | contracts/stake/src/distribution.rs:111-169 | the whole new storage, or the error |
| `StakeContract.Contract.Dispatch` | contracts/stake/src/contract.rs:98-147 | every message has the effect of its function |
| `StakeContract.Contract.ExecuteMessage` | contracts/stake/src/contract.rs:98-147 | a message that fails leaves the storage as it was; one that succeeds ends as the state function says, and time advances |
| `OracleReference.IntegralGrows` | packages/palomadex/src/oracle.rs:180-187 | the reference integral of the price history never falls |
| `OracleReference.WindowBounds` | packages/palomadex/src/oracle.rs:180-205 | over any window the floored integral is less than one unit too high and less than one unit a nanosecond too low, however many updates fall into it |
| `OracleReference.AverageBounds` | packages/palomadex/src/oracle.rs:197-205 | a reported mean never exceeds the highest rate in force and is above the lowest minus 2*10^9 atomics |
| `OracleReference.AppendKeepsPast` | packages/palomadex/src/oracle.rs:240-294 | a later price leaves every earlier integral as it was |
| `OracleState.CheckpointOnGrid` | packages/palomadex/src/oracle.rs:299-306 | the checkpoint found is the last one plus whole steps, at or before the clock and less than a step behind it |
| `OracleState.CarriedIsIntegral` | packages/palomadex/src/oracle.rs:138-164 | interpolating from the accumulator gives the reference integral at that time |
| `OracleState.NewTimes` | packages/palomadex/src/oracle.rs:157-164 | no interpolated time lies before the accumulator snapshot, so no elapsed time underflows |
| `OracleState.ShiftFollows` | packages/palomadex/src/oracle.rs:114-167 | shifting and interpolating keeps every entry equal to the reference at its own checkpoint |
| `OracleState.AdvanceFollows` | packages/palomadex/src/oracle.rs:253-290 | a buffer can be brought forward exactly when no zero price has to be inverted; it then follows the history with min(32, steps) entries |
| `OracleState.StoreFollows` | packages/palomadex/src/oracle.rs:240-294 | a store succeeds iff time does not run backwards and no zero price was in force for any time, and extends the history by one event |
| `OracleState.EveryRunFollows` | packages/palomadex/src/oracle.rs:215-294 | after any sequence of stores, entry i of each buffer is the reference integral at last_update - i*step, in all three resolutions |
| `OracleState.SharedCheckpointsAgree` | packages/palomadex/src/oracle.rs:240-294 | buffers of different resolution agree at shared checkpoints |
| `OracleRange.BufferNow` | packages/palomadex/src/oracle.rs:349-356 | what the buffer holds at query time |
| `OracleRange.ClosedRangeIsMean` | packages/palomadex/src/oracle.rs:317-407 | a range between two entries is answered iff start is inside the buffer and before the end, with the mean of the reference over exactly that window |
| `OracleRange.ClosedRangeBounds` | packages/palomadex/src/oracle.rs:366-399 | such an answer is within the rates in force during the window, up to the floors |
| `OracleRange.EveryRunAnswersWithinPrices` | packages/palomadex/src/oracle.rs:180-205 | over every run of price stores, an answered range never exceeds the highest accepted rate in force during its window and is above the lowest minus 2*10^9 atomics |
| `OracleRange.OpenElapsedIsRight` | packages/palomadex/src/oracle.rs:376-381 | an open-ended query divides by the length of its own window iff no whole step has passed since last_update, and by the passed steps more otherwise |
| `OracleRange.OpenRangeIsMean` | packages/palomadex/src/oracle.rs:376-399 | what an open-ended query answers in every case |
| `OracleRange.OpenRangeBounds` | packages/palomadex/src/oracle.rs:376-399 | the bounds for an open-ended query over a window of a second or more when no whole step has passed |
| `OracleRange.OpenRangeUnderstates` | packages/palomadex/src/oracle.rs:349-399 | otherwise the answer is never above the mean over its window |
| `OracleRange.OpenRangeHalved` | packages/palomadex/src/oracle.rs:349-399 | a concrete run with a constant price of 1.0 in which the open-ended query answers 0.5 |
| `OraclePrices.InverseIs` | packages/palomadex/src/oracle.rs:88-88 | the inverse of a price, rounded down to 18 decimals |
| `OraclePrices.UpdateAdds` | packages/palomadex/src/oracle.rs:70-93 | an update adds the stored price and its inverse, each times the time it was in force, rounded down |
| `OraclePrices.AverageIs` | packages/palomadex/src/oracle.rs:197-205 | the mean is the difference of the integrals over the time, rounded down to nine decimals |
| `OraclePrices.ClosedRangeAnswers` | packages/palomadex/src/oracle.rs:366-399 | if the stored prices in force during the window lie between low and high, so does the one answer, and the other lies between their inverses, up to the stated roundings |
| `OraclePrices.OpenRangeAnswers` | packages/palomadex/src/oracle.rs:376-399 | the same for an open-ended range when no whole step has passed |
| `OraclePrices.EveryRunAnswersByPrices` | packages/palomadex/src/oracle.rs:240-407 | the same over every run of price stores |
| `OracleContract.Accumulator.constructor` | packages/palomadex/src/oracle.rs:58-65 | a new accumulator |
| `OracleContract.Accumulator.Advance` | packages/palomadex/src/oracle.rs:70-93 | the accumulator updated in place, or a failure that leaves it alone |
| `OracleContract.Fill` | packages/palomadex/src/oracle.rs:157-164 | the index loop writes every interpolated entry, and fails iff a time before the snapshot or a zero price is needed |
| `OracleContract.Resized` | packages/palomadex/src/oracle.rs:126-142 | the surviving entries are moved up by the number of new checkpoints |
| `OracleContract.Accumulate` | packages/palomadex/src/oracle.rs:114-167 | both branches of the copy end in the same shifted and interpolated buffer |
| `OracleContract.AdvanceBuffer` | packages/palomadex/src/oracle.rs:253-264 | one period at a store or a query |
| `OracleContract.Oracle.constructor` | packages/palomadex/src/oracle.rs:215-235 | initialisation follows the one-event history |
| `OracleContract.Oracle.StoreOraclePrice` | packages/palomadex/src/oracle.rs:240-294 | the whole new storage; a failing call changes nothing |
| `OracleContract.Oracle.QueryOracleRange` | packages/palomadex/src/oracle.rs:317-407 | the query reads the storage without changing it |
| `PairMath.GrossIsRest` | contracts/pair/src/contract.rs:1102-1106 | the pre-commission return is the ask pool less the floored price rounded up, and the subtraction never underflows |
| `PairMath.KeptByRemainder` | contracts/pair/src/contract.rs:1102-1106 | the amount kept in terms of the exact quotient and remainder |
| `PairMath.KeptIsCeilIff` | contracts/pair/src/contract.rs:1102-1106 | the return favours the pool as exact arithmetic would iff the remainder is not lost to the 18 decimals; it is never off by more than one unit |
| `PairMath.SmallIsExact` | contracts/pair/src/contract.rs:1102-1106 | it is exact up to offer_pool + offer_amount = 10^18 |
| `PairMath.SwapProduct` | contracts/pair/src/contract.rs:1102-1113 | paying out the net return and the protocol fee lowers the product of the pools by less than (offer_pool + offer_amount)/10^18, and not at all up to 10^18 |
| `PairMath.ProductFallsIff` | contracts/pair/src/contract.rs:1102-1106 | paying out at most the pre-commission return lowers the product of the pools iff all of it is paid out and a remainder is lost to the 18 decimals |
| `PairMath.SwapKeepsProductIff` | contracts/pair/src/contract.rs:1087-1119 | an answered swap keeps the product, whatever part of its commission leaves the pool, iff some of it stays or no remainder is lost |
| `PairMath.SwapThatLoses` | contracts/pair/src/contract.rs:1087-1119 | a swap that is answered and lowers the product: pools of 10^18+1 and 2, an offer of 10^18, no commission |
| `PairMath.ComputeSwapNeverLoses` | contracts/pair/src/contract.rs:1087-1119 | the constant-product curve meets what the pool needs of a curve: no swap lowers the product unless its whole commission leaves and a remainder is lost |
| `PairMath.SwapAnswers` | contracts/pair/src/contract.rs:1108-1110 | the spread subtraction never underflows when the offer pool is at most 10^18 |
| `PairMath.SwapAnswersIff` | contracts/pair/src/contract.rs:1108-1110 | that bound is exact: every swap on an offer pool is answered iff the pool is at most 10^18 |
| `PairMath.SwapPanics` | contracts/pair/src/contract.rs:1108-1110 | the swap that fails above the bound |
| `PairMath.OfferAnswersIff` | contracts/pair/src/contract.rs:1130-1161 | a reverse quote is given iff the commission is below 100% and the ask plus commission leaves something in the pool |
| `PairMath.QuoteIsEnough` | contracts/pair/src/contract.rs:1087-1161 | swapping a quoted offer, whenever that swap is answered, returns at most the amount asked for; on offer pools of at most 10^18 it is answered |
| `PairMath.QuoteIsTight` | contracts/pair/src/contract.rs:1087-1161 | swapping one unit more than the quote returns at least the amount asked for, less one unit and one for each 10^18 asked for |
| `PairMath.ThereAndBack` | contracts/pair/src/contract.rs:1087-1119 | swapping there and back never returns more than was offered if neither swap loses a remainder, as on pools of at most 10^18 |
| `PairMath.ThereAndBackGains` | contracts/pair/src/contract.rs:1087-1119 | above that it can: on pools of 10^18+2 and 2, offering 10^18 and swapping the proceeds back returns 10^18+1 |
| `PairPool.CheckedSwapPays` | contracts/pair/src/contract.rs:690-721 | a swap pays what was computed and a fee of at most the commission |
| `PairPool.DoSwapKeepsProduct` | contracts/pair/src/contract.rs:654-758 | a swap never pays more than the pool holds and, but for a lost remainder, never lowers the product |
| `PairPool.MintProportion` | contracts/pair/src/contract.rs:404-419 | minting by the smaller proportion: each pool grows at least as fast as the supply |
| `PairPool.RefundProportion` | packages/palomadex/src/pair/utils.rs:160-177 | a refund is at most the proportional share through both floors |
| `PairPool.RefundIsFair` | packages/palomadex/src/pair/utils.rs:160-177 | a refund falls short of the proportional share by less than one unit and 10^-18 of the pool |
| `PairPool.FirstDeposit` | contracts/pair/src/contract.rs:385-402 | the first deposit mints at most the square root of the product of the pools |
| `PairPool.LaterDeposit` | contracts/pair/src/contract.rs:404-419 | a later deposit keeps the product above the square of the supply and the product per squared LP token from falling |
| `PairPool.MintedIsLargest` | contracts/pair/src/contract.rs:404-419 | a later deposit mints exactly the largest number of LP tokens that neither of its two amounts is too small for |
| `PairPool.DepositKeeps` | contracts/pair/src/contract.rs:385-437 | every deposit keeps the invariant |
| `PairPool.SwapKeeps` | contracts/pair/src/contract.rs:545-632 | every swap without a lost remainder keeps the product |
| `PairPool.SwapKeepsIff` | contracts/pair/src/contract.rs:545-632 | on a constant-product pair that condition is exact, for every answered swap with its spread check and protocol fee |
| `PairPool.SmallIsLossless` | contracts/pair/src/contract.rs:1102-1106 | no swap with an offer side of at most 10^18 loses a remainder |
| `PairPool.ProvideOneConserves` | contracts/pair/src/contract.rs:312-367 | a deposit of one asset conserves tokens: the pools end up with what they held plus the deposit, minus the protocol fee |
| `PairPool.ProvideOneKeeps` | contracts/pair/src/contract.rs:312-437 | a deposit of one asset keeps the invariant through an inner swap that loses no remainder |
| `PairPool.ProvideKeeps` | contracts/pair/src/contract.rs:259-464 | every deposit of one or two assets keeps the invariant, its inner swap losing no remainder |
| `PairPool.WithdrawKeeps` | contracts/pair/src/contract.rs:470-528 | every withdrawal keeps the invariant |
| `PairPool.StepKeeps` | contracts/pair/src/contract.rs:111-174 | no event without a lost remainder lowers what stands behind an LP token |
| `PairPool.EveryRunIsBacked` | contracts/pair/src/contract.rs:111-174 | over every run without a lost remainder: the supply stays at least 1000, the product at least the square of the supply, and product/supply^2 never falls |
| `PairPool.DepositThenWithdraw` | contracts/pair/src/contract.rs:483-528 | depositing and withdrawing the same LP tokens returns at most the deposit, of either asset |
| `PairEffects.ProvideTwo` | contracts/pair/src/contract.rs:369-437 | a deposit of two assets, listed in either order: the pool of each grows by exactly the amount offered of it, and the LP tokens are the floored root or the largest number both amounts are enough for |
| `PairEffects.DepositSucceedsIff` | contracts/pair/src/contract.rs:380-412 | exactly which deposits are refused |
| `PairEffects.SwapMoves` | contracts/pair/src/contract.rs:545-632 | a swap moves exactly the offer in, and payout and fee out |
| `PairEffects.SwapFees` | contracts/pair/src/contract.rs:690-707 | commission and fee are the stated rates of the gross return and of the commission, rounded down, and without a fee address there is no fee |
| `PairEffects.SpreadIs` | contracts/pair/src/contract.rs:1108-1110 | gross return and spread together are the offer at the price of the pools, rounded down |
| `PairEffects.QuoteIs` | contracts/pair/src/contract.rs:1130-1161 | commission and spread of a reverse quote |
| `PairEffects.SpreadRefusedIff` | packages/palomadex/src/pair/utils.rs:94-129 | without a belief price a swap is refused iff the limit is too high or the spread is a larger part of gross return and spread |
| `PairEffects.BeliefRefusedIff` | packages/palomadex/src/pair/utils.rs:94-129 | with one, iff the gross return is further below the offer at that price |
| `PairEffects.ExpectedIs` | packages/palomadex/src/pair/utils.rs:94-129 | the offer at the belief price, through both floors |
| `PairEffects.WithinTolerance` | contracts/pair/src/contract.rs:1170-1201 | a deposit off the proportion of the pools by no more than the tolerance is not refused for it |
| `PairEffects.OutsideTolerance` | contracts/pair/src/contract.rs:1170-1201 | one that passes is within the tolerance up to two units of 10^-18 |
| `PairEffects.WithdrawMoves` | contracts/pair/src/contract.rs:470-528 | a withdrawal burns exactly the LP tokens sent and pays exactly the two refunds |
| `PairEffects.WithdrawSucceedsIff` | contracts/pair/src/contract.rs:470-528 | from a sound pool every withdrawal of LP tokens somebody holds goes through |
| `PairEffects.FrozenStops` | contracts/pair/src/contract.rs:111-174 | a frozen pair refuses swaps, deposits and fee changes, and withdrawals work as before |
| `PairContract.Contract.constructor` | contracts/pair/src/contract.rs:33-78 | an empty pair satisfies the invariant |
| `PairContract.Contract.QuoteSwap` | contracts/pair/src/contract.rs:654-758 | what is quoted is in the pool to be paid out, with the fee, and paying it keeps the product unless a remainder is lost |
| `PairContract.Contract.ExecuteSwap` | contracts/pair/src/contract.rs:545-632 | the whole new state, or the error |
| `PairContract.Contract.MintShare` | contracts/pair/src/contract.rs:385-420 | the first deposit mints the floored root of its product, 1000 of it to the contract; a later one the largest number both its amounts are enough for |
| `PairContract.Contract.CheckAssets` | contracts/pair/src/contract.rs:267-299 | exactly which asset lists are refused |
| `PairContract.Contract.SplitDeposit` | contracts/pair/src/contract.rs:312-367 | pools and deposit together are the balances and the amount sent, less the protocol fee; the split keeps the product of the pools |
| `PairContract.Contract.AddDeposit` | contracts/pair/src/contract.rs:385-437 | balances and supply after the deposit |
| `PairContract.Contract.ProvideLiquidity` | contracts/pair/src/contract.rs:259-464 | the whole new state, or the error |
| `PairContract.Contract.WithdrawLiquidity` | contracts/pair/src/contract.rs:470-528 | the whole new state, or the error; both refunds leave the pools |
| `StableNewton.Root` | contracts/pair_lsd/src/math.rs:130-147 | the floored root of y^2 + e*y = c exists for every c |
| `StableNewton.RootSplits` | contracts/pair_lsd/src/math.rs:130-147 | a point is at or below the root iff its value does not exceed c |
| `StableNewton.NeverBelow` | contracts/pair_lsd/src/math.rs:133-135 | every iterate after the first is at or above the root |
| `StableNewton.DenominatorPositive` | contracts/pair_lsd/src/math.rs:133-135 | at or above the root the denominator is positive, except at zero when e is not positive |
| `StableNewton.ArrivedAtRoot` | contracts/pair_lsd/src/math.rs:136-143 | a step of at most one has arrived at the root or one above it |
| `StableNewton.SolveFindsRoot` | contracts/pair_lsd/src/math.rs:132-147 | when the loop returns, its value is the floored root or that plus one |
| `StableNewton.SolveNeverPanics` | contracts/pair_lsd/src/math.rs:132-147 | from a positive denominator, for every c, no subtraction underflows and no division is by zero; the only failure is running out of steps |
| `StableNewton.GapHalves` | contracts/pair_lsd/src/math.rs:133-135 | each step at least halves the distance to the root |
| `StableNewton.SolveConverges` | contracts/pair_lsd/src/math.rs:132-147 | the loop converges from any start at most 2^(n-1) above the root, n being the steps left |
| `StableNewton.GapSquares` | contracts/pair_lsd/src/math.rs:133-135 | the distance to the root after a step, times the denominator, is at most its square before it plus the slope at the root |
| `StableNewton.QuadraticPhase` | contracts/pair_lsd/src/math.rs:132-147 | once the slope at the root is four times the distance, each step squares their ratio, so log log of the slope steps are enough |
| `StableNewton.SolveConvergesFast` | contracts/pair_lsd/src/math.rs:132-147 | the loop converges within j + k + 2 steps from any start at most 2^j/4 slopes above the root, k being log log of the slope |
| `StableConvergence.SlopeIsSteep` | contracts/pair_lsd/src/math.rs:109-130 | for two pools and D of at least 16384 the slope at the root exceeds D/8192, at every amplifier and any balances |
| `StableConvergence.TwoPoolsConverge` | contracts/pair_lsd/src/math.rs:131-147 | with two pools the loop always answers within its 32 steps, at every amplifier and for values below 2^256, if D is at most 2^42 times the new offer balance times amp*n |
| `StableConvergence.TwoPoolsRunOut` | contracts/pair_lsd/src/math.rs:131-147 | if D is at least 2^64 times the new offer balance times amp*n, the loop never answers, at every amplifier and for values of any size |
| `StableConvergence.ProductIsLarge` | contracts/pair_lsd/src/math.rs:109-128 | there the right-hand side of the quadratic is at least 15/16 of 2^62 squares of D, through both floors |
| `StableConvergence.LoopRunsOut` | contracts/pair_lsd/src/math.rs:73-147 | an input of calc_y on which the loop runs out: two pools of 2^64 units, whose D is exactly their sum, in a reverse quote for all but one unit, at amplifier 1 |
| `StableSwap.ComputeY` | contracts/pair_lsd/src/math.rs:73-148 | the two loops of calc_y |
| `StableSwap.FoldAll` | contracts/pair_lsd/src/math.rs:109-127 | the loop over the pools folds up the product part and the sum |
| `StableSwap.Iterate` | contracts/pair_lsd/src/math.rs:131-147 | the Newton loop |
| `StableSwap.UnscaledIsRoot` | contracts/pair_lsd/src/math.rs:109-147 | the unscaled new balance is the floored root of the quadratic built from the pools, or that plus one |
| `StableSwap.LoopNeverPanics` | contracts/pair_lsd/src/math.rs:128-147 | with D positive the loop answers or reports non-convergence |
| `StableSwap.FoldMono` | contracts/pair_lsd/src/math.rs:109-127 | a larger offer makes the sum larger and the product part smaller |
| `StableSwap.RootMono` | contracts/pair_lsd/src/math.rs:128-147 | a steeper quadratic with a smaller right-hand side has a smaller root |
| `StableSwap.LargerOfferYieldsNoLess` | contracts/pair_lsd/src/math.rs:73-148 | a larger offer never yields more than one unit less |
| `StableAnswer.AppliedIs` | contracts/pair_lsd/src/math.rs:151-170 | the target rate put on a balance, rounded down |
| `StableAnswer.CalcYAnswers` | contracts/pair_lsd/src/math.rs:73-180 | an answer of calc_y is the floored root of the quadratic built from the pools, or that plus one, divided by the target rate and rounded down if the asked asset is the liquid staking one |
| `StableAnswer.OffAndOn` | contracts/pair_lsd/src/math.rs:151-180 | putting the rate on the answer again gives back the root, less than one rate short and never above |
| `StableAnswer.LargerOfferAnswersNoLess` | contracts/pair_lsd/src/math.rs:73-180 | a larger offer never leaves the ask balance calc_y answers more than one unit higher, taken at the target rate |
| `StableAnswer.FoldIs` | contracts/pair_lsd/src/math.rs:109-127 | the loop ends with the sum of the balances other than the asked one, and with D to the power of their number plus one over the product of n times each, rounded down once for each |
| `StableAnswer.CoefficientsAre` | contracts/pair_lsd/src/math.rs:106-130 | the coefficients of the quadratic for any number of pools, each quotient between its bounds |
| `StableAnswer.TwoPoolsIs` | contracts/pair_lsd/src/math.rs:106-130 | for two pools the quadratic is y^2 + (x + d/ann - d) y = d^3 / (4 x ann), up to the floors |
| `StableInvariant.StepIsNewton` | contracts/pair_lsd/src/math.rs:42-49 | one step of the D iteration is Newton's on the stableswap equation |
| `StableInvariant.StepGoesDown` | contracts/pair_lsd/src/math.rs:42-49 | from above, a step never goes up and stays positive |
| `StableInvariant.StepStaysAbove` | contracts/pair_lsd/src/math.rs:42-49 | from above, a step stays above the root |
| `StableInvariant.SumIsAbove` | contracts/pair_lsd/src/math.rs:31-40 | the sum of the pools starts above the root, and is the root when the pools are equal |
| `StableInvariant.RootIsBelow` | contracts/pair_lsd/src/math.rs:42-61 | a point of non-negative excess is not below D |
| `StableInvariant.QuadraticIsInvariant` | contracts/pair_lsd/src/math.rs:64-72 | with one coefficient for both, the quadratic of calc_y is solved by exactly the balances whose pools have the invariant D |
| `StableRounding.TwoCoefficients` | contracts/pair_lsd/src/math.rs:64-72 | pools with the invariant d under one coefficient solve the quadratic under another iff the two are equal or d is the sum of the pools |
| `StableRounding.CoefficientsAgreeIff` | contracts/pair_lsd/src/math.rs:34-130 | with the decimal coefficient of compute_d and the floored one of calc_y, pools with invariant D solve the quadratic iff amp * 2 is a multiple of AMP_PRECISION or the pools are balanced; otherwise the ask pool keeps more |
| `StableRounding.RampLeavesFraction` | contracts/pair_lsd/src/math.rs:34-106 | a ramp from 1 to 2 passes amplifiers at which the two coefficients are 2.1 and 2, and 2.5 and 2 |
| `StableRounding.UnbalancedPools` | contracts/pair_lsd/src/math.rs:34-130 | at the first of them pools of 28 and 15 have the invariant 42 and do not solve the quadratic |
| `StableInvariant.StepGoesAThird` | contracts/pair_lsd/src/math.rs:42-49 | from above, a step goes at least a third of the way to the invariant |
| `StableInvariant.ComputeD` | contracts/pair_lsd/src/math.rs:20-62 | the loop returns a value never below the invariant and at most two precisions above it, or (2/3)^32 of the sum of the pools if it runs out of steps; zero for an empty pool |
| `StableAmp.CurrentIsBetween` | contracts/pair_lsd/src/utils.rs:67-90 | the amplifier can always be computed, lies between the ends of the ramp, and meets both |
| `StableAmp.CurrentIsOnLine` | contracts/pair_lsd/src/utils.rs:67-90 | on the way the amplifier is within one unit of the straight line between the two ends, rising or falling |
| `StableAmp.StartSucceedsIff` | contracts/pair_lsd/src/contract.rs:1526-1567 | exactly when a ramp can be started, and that it leads from the present amplifier to the chosen one at the chosen time |
| `StableAmp.RampIsMonotone` | contracts/pair_lsd/src/utils.rs:67-90 | along one ramp the amplifier moves in one direction only |
| `StableAmp.StartKeeps` | contracts/pair_lsd/src/contract.rs:1526-1567 | starting a ramp keeps the schedule valid and the amplifier unchanged at that instant |
| `StableAmp.StopKeeps` | contracts/pair_lsd/src/contract.rs:1570-1583 | stopping never fails and freezes the amplifier where it is |
| `StableAmp.StepReaches` | contracts/pair_lsd/src/contract.rs:1526-1583 | each operation keeps both ends within a factor of ten per whole day |
| `StableAmp.EveryRunIsBounded` | contracts/pair_lsd/src/contract.rs:1526-1583 | over every run the amplifier is in [AMP_PRECISION, MAX_AMP*AMP_PRECISION] and within a factor of ten of its start per whole day passed |
| `StableAmp.Schedule.constructor` | contracts/pair_lsd/src/contract.rs:125-131 | the schedule of a new pair |
| `StableAmp.Schedule.StartChangingAmp` | contracts/pair_lsd/src/contract.rs:1526-1567 | overwrites all four fields, or none |
| `StableAmp.Schedule.StopChangingAmp` | contracts/pair_lsd/src/contract.rs:1570-1583 | overwrites all four fields, or none |
| `StableBisect.BisectBrackets` | contracts/pair_lsd/src/utils.rs:315-356 | for any price function the answer lies in a bracket priced above the target at its lower and below at its upper end, of width at most ceil(width/2^rounds), or hits the target |
| `StableBisect.BisectAnswers` | contracts/pair_lsd/src/utils.rs:315-356 | the bisection fails only if the price function does |
| `StableBisect.BisectIsClose` | contracts/pair_lsd/src/utils.rs:315-356 | with a falling price the answer is within the last width of every trade that hits the target |
| `StableBisect.RoundTrip` | contracts/pair_lsd/src/utils.rs:281-311 | converting an amount to a decimal and back loses nothing up to 18 decimals |
| `StableBisect.DecimalsAre` | contracts/pair_lsd/src/utils.rs:281-311 | what the conversions to and from decimals are |
| `StableBisect.FindSpotAnswers` | contracts/pair_lsd/src/utils.rs:269-312 | which of its three answers the query gives; it never suggests more than the maximum trade |

The functions these members are about carry the names of the source's: `StakeState.Rebond` is
`execute_rebond`, `OracleState.StorePrice` is `store_oracle_price`, `PairMath.ComputeSwap` is
`compute_swap`, `StableAmp.Current` is `compute_current_amp`, and so on.

## Left out

- Integer widths: 64-, 128- and 256-bit overflow is not modelled, except the casts of the reward leftover
  to 64 bits and of a withdrawable amount to 128 bits, which are written out; products are assumed to fit.
- `wynd_curve_utils` is not part of this model: a reward curve is a list of linear schedules whose values
  are added up, and a schedule of zero duration unlocks at once.
- Messages, attributes, JSON, address validation and remote queries; token transfers are fields of the
  state (`lpHeld`, `sent`, `balance`, `balances`).
- Storage maps of the staking contract that share the key of a reward asset (distribution, curve,
  adjustments) are one record, `Flow`; their iteration order is arbitrary in the model.
- The hash-map order in which quick-unbonding updates the totals: each update touches its own period, and
  the model takes them in list order.
- The counter part of a migration: what the converter does with the stake sent to it.
- Annualized reward estimates and the other read-only queries of the staking contract.
- StakeRuns.EveryRunIsSolvent: for runs whose distributions are weighed, which by
  StakeSolvency.NextDistributionPaysIff is exact for a distribution of any amount and by
  StakeRuns.CleanRunsAreWeighed holds while quick-unbonds are clean. A single distribution over totals that
  the powers exceed can still be covered if its amount is small; that is not characterised amount by amount.
- StakeExit.NoEarlyExit: for runs in which nobody bonds for the staker and the unbonder neither sets the
  unbond-all flag nor quick-unbonds the staker; each of those brings tokens within reach by design.
- StakeRewards.ScheduleFalls: linear schedules stand in for the curve library.
- StakeContract.Contract.constructor: unbonding periods are distinct and `tokens_per_power` is positive, as
  under Assumptions.
- StakeContract.Contract.ExecuteMigrateStake: the message that hands the tokens to the converter is not modelled.
- StakeContract.Contract.ExecuteFundDistribution: a new schedule is appended to the list; combining it with the
  stored curve and checking the result for monotonicity belong to the curve library.
- StakeContract.Contract.ExecuteFundToken: the same.
- StakeContract.Contract.ExecuteWithdrawRewards: the payout leaves the balance; the receiver named in the
  message, who may differ from the owner, is not modelled.
- OracleState.EveryRunFollows: prices of zero are stored as the source stores them; a zero price that was
  in force for any time makes later stores fail, which the lemma on stores states.
- PairPool.EveryRunIsBacked: for runs in which no swap loses a remainder, which by PairPool.SwapKeepsIff is
  exact for a swap; the loss of one that does is bounded by PairMath.SwapProduct.
- PairContract.Contract.ExecuteSwap: referral commission, the oracle's storage and the cumulative prices are left
  out, as below.
- PairContract.Contract.ProvideLiquidity: the oracle's storage and the cumulative prices are left out.
- PairContract.Contract.WithdrawLiquidity: the same.
- The oracle call inside a swap, deposit or withdrawal fails in the pool model only on a division by zero;
  its other failures would only remove runs. Cumulative prices of the pair (`accumulate_prices`) and
  referral commissions, which are taken off an offer before the swap, are left out.
- The pair's migration and the circuit breaker's authorisation: freezing and fee changes may happen at any time.
- StableInvariant.ComputeD: two pools and exact real arithmetic; the fixed-point rounding of the source's
  loop is not modelled.
- StableConvergence.TwoPoolsConverge: D up to 2^42 times the amplified new offer balance. Nothing is claimed
  between that and the 2^64 times of StableConvergence.TwoPoolsRunOut. With more than two pools, convergence is
  proved from how far the start is above the root (StableNewton.SolveConvergesFast) and not from D.
- StableRounding.CoefficientsAgreeIff: in exact real arithmetic, like the equation it is about.
- StableSwap.ComputeY: D is an input, because the source returns the last iterate of its loop unconditionally.
- StableBisect.BisectBrackets: the price after a trade is an arbitrary function; the pool update that the
  source uses to compute it depends on the order of the pools and is not part of the model.
- Liquidity provision and imbalanced withdrawal of the stableswap pair.
- The factory, gauge adapter, LP converter, nominated trader, splitter and multi-hop contracts, which are
  registry, routing and message plumbing.
