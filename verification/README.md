# CrossFluf share accounting, verified

This project models the three parts of CrossFluf that keep accounts in shares, and proves what they promise to the
people who hold those shares.

* **The vault program** takes deposits at a floored share price, pays withdrawals, lends idle assets to strategies,
  books reported yield behind a time-decaying profit lock and dilutes holders for fees. `VaultModel.dfy` gives every
  instruction as a function from the accounts it touches to the accounts it leaves or to an error; `VaultProgram.dfy`
  has the instruction handlers over mutable accounts, each proved to commit or roll back exactly as that function says.
* **The rebalancing bot** reads a snapshot of the vault and issues one allocation or deallocation for each strategy,
  ignoring those that fail. `RebalanceBot.dfy` has its pass against the vault's handlers, `Rebalancing.dfy` proves
  where passes lead.
* **The fluf pool** (`Fluf.dfy`, `FlufProgram.dfy`, `BorrowerSample.dfy`; theorems in `FlufBacking.dfy`,
  `FlufOverflow.dfy`, `FlufFairness.dfy`) issues fT for deposited T and lends unbacked fT within one transaction. A borrower is the sample program or any list of fT instructions.
  `Cargo.toml:13` turns overflow checks on, but lines 6-9 keep the pool and the borrower out of that workspace and
  their own manifests have no profile, so both kinds of build are modelled: `Checked` aborts where `Wrapping` wraps.
* **`Witnesses.dfy`** reaches, from initialization, the states in which the code departs from its description.

The main results hold for every run: a sequence of arbitrary instructions, token transactions outside the programs and
clock advances, in any order, where an instruction that fails changes nothing. Fractions are compared by
cross-multiplication, so that flooring and truncation are part of every statement: `RatioAtLeast(a, b, c, d)` says
that a/b is at least c/d.

Widths are explicit. `U64`, `U128` and `Timestamp` carry the ranges of the Rust types, `Truncate` is `as u64`, a
checked operation that fails is the error `Panic`, and a failed transaction rolls back. Account 0 of the asset mint is
the vault's token account; accounts 0 and 1 of the fT mint are the pool's fT account and the protocol fee account.

Verify with `dafny verify dfyconfig.toml`.

## Where the code and its description differ

* `docs/RANGER-FINANCE-VAULTS.md:272-277` describes a lock that carries over only what is still locked. The program
  never reduces `locked_profit` (`programs/vault/src/lib.rs:365`), so a later profit locks earlier ones again.
  `ProfitLock.MatchesDocumentation` says exactly when the two agree, `Witnesses.ProfitIsLockedAgain` gives a run on
  which they differ.
* `programs/vault/src/lib.rs:857` calls `total_assets` the sum of idle and deployed assets. Withdrawal fees stay idle
  but leave `total_assets` (lines 239-240), and the subtraction at line 376 saturates: `Books.LedgerConservation`
  states the gap, `Witnesses.FeesLeaveTheTotal` and `Witnesses.LossIsSwallowed` reach it.
* The guard at `programs/vault/src/lib.rs:197-200` compares a payout with `idle_assets`, which a deallocated profit
  raises without any tokens arriving: `Books.IdleIsBacked` says exactly when the guard suffices,
  `Witnesses.IdleOutrunsTokens` gives a withdrawal that passes it and fails.
* The bot does not always reach equal weights: a strategy whose lifetime counter `allocated` would overflow stays where
  it is (`Rebalancing.TwoPassesShareByRoom`), and `Witnesses.RoomRunsOut` gives such a vault, on which the bot acts in
  vain on every pass.
* A flash loan can leave unbacked fT if the pool is built without overflow checks.
  `FlufOverflow.SampleLoansStayBackedExactly` gives the amounts for which it can with the borrower that the pool is
  deployed with, `FlufOverflow.LoansStayBackedExactly` with any borrower.
* A T donation to a new pool, or burning its last fT, makes every later deposit buy nothing
  (`programs/fluf/src/lib.rs:48-54`): `FlufFairness.DeadForever`, `FlufFairness.EarlyDonationKills`.
* The comment at `programs/fluf/src/lib.rs:176-178` wants fT donated to the pool's account shared among all holders. The
  check that follows counts them as part of the next repayment, so a borrower that pays only the rest keeps them:
  `FlufFairness.StrayFlufPaysForLoan`. The sample borrower pays in full.
* `programs/vault/src/lib.rs:36-43` limits both fees at initialization, `update_config` only the performance fee:
  `Witnesses.ManagementLimitIsNotKept`.
* A yield report is accepted for a removed strategy (`programs/vault/src/lib.rs:344-376`), whose value then counts but can
  never be deallocated: `Operators.StepKeepsRemovedEmpty`, `Operators.RemovedForever`.
* `programs/borrower_sample/src/lib.rs:23-24` speaks of 0.3% and 0.25%; the fee computed there is 2.5%. The model
  computes what the code computes.
* The comment at `programs/vault/src/lib.rs:98` divides by `total_assets`; the code divides by effective assets.

## Model

| member | source | states |
|---|---|---|
| VaultProgram.VaultAccount.Initialize | programs/vault/src/lib.rs:30-80 | Accepts exactly names of up to 32 bytes and configurations within the fee limits over an unused LP mint, with the error of the first check that fails; the name is stored padded with zeros and the vault is the state every run starts from |
| VaultProgram.VaultAccount.EffectiveTotalAssets | programs/vault/src/lib.rs:557-577 | The share price numerator never exceeds the total and holds back the locked profit linearly: its floored part for the rest of the unlocking period, and nothing after it |
| VaultProgram.VaultAccount.PriceDeposit | programs/vault/src/lib.rs:87-119 | Every check of a deposit in order, the shares minted and the fee withheld |
| VaultProgram.VaultAccount.PayIn | programs/vault/src/lib.rs:121-154 | Assets move in and shares are minted, or neither |
| VaultProgram.VaultAccount.SettleDeposit | programs/vault/src/lib.rs:121-164 | Tokens and the four counters change together or not at all |
| VaultProgram.VaultAccount.Deposit | programs/vault/src/lib.rs:84-165 | A deposit commits the specified state or reports the specified error and changes nothing |
| VaultProgram.VaultAccount.PriceWithdrawal | programs/vault/src/lib.rs:171-200 | Every check of a withdrawal in order, what leaves the books and what is paid |
| VaultProgram.VaultAccount.PayOut | programs/vault/src/lib.rs:202-235 | Shares are burned and assets move out, or neither |
| VaultProgram.VaultAccount.SettleWithdrawal | programs/vault/src/lib.rs:202-244 | Tokens and the three counters change together or not at all |
| VaultProgram.VaultAccount.InstantWithdraw | programs/vault/src/lib.rs:169-245 | A withdrawal commits the specified state or reports the specified error and changes nothing |
| VaultProgram.VaultAccount.AddStrategy | programs/vault/src/lib.rs:248-285 | The admin appends an empty active strategy, up to ten; existing strategy accounts are kept |
| VaultProgram.VaultAccount.Allocate | programs/vault/src/lib.rs:288-312 | Idle assets move to an active strategy under the guards and counters of the source |
| VaultProgram.VaultAccount.Deallocate | programs/vault/src/lib.rs:315-340 | A position moves back to idle under the guards of the source |
| VaultProgram.VaultAccount.ReportYield | programs/vault/src/lib.rs:344-387 | A new position value is booked as profit, locked, or as loss, saturating; also on inactive strategies |
| VaultProgram.VaultAccount.PriceFees | programs/vault/src/lib.rs:397-450 | The fee due, the shares it is worth and the share price it was computed at |
| VaultProgram.VaultAccount.SettleFees | programs/vault/src/lib.rs:452-484 | Fee shares, harvest time and high water mark change together or not at all |
| VaultProgram.VaultAccount.HarvestFees | programs/vault/src/lib.rs:390-493 | A harvest commits the specified state, or returns early or fails without a change |
| VaultProgram.VaultAccount.RemoveStrategy | programs/vault/src/lib.rs:496-512 | Only the admin deactivates, and only an empty strategy |
| VaultProgram.VaultAccount.UpdateConfig | programs/vault/src/lib.rs:515-539 | Only the performance fee limit is checked again |
| VaultProgram.VaultAccount.SetActive | programs/vault/src/lib.rs:542-551 | Only the admin pauses and unpauses |
| SharePrice.EffectiveIsUnlocked | programs/vault/src/lib.rs:557-577 | Effective assets are total assets minus what is still locked, never below zero |
| SharePrice.ProfitUnlocksLinearly | programs/vault/src/lib.rs:566-575 | What is held back of a profit is the floor of the profit times the seconds left over the period, to the unit and at every second |
| SharePrice.EffectiveGrowsWithTime | programs/vault/src/lib.rs:562-575 | Without new reports effective assets never fall as time passes |
| SharePrice.DepositEffect | programs/vault/src/lib.rs:94-119 | A deposit moves exactly its amount into effective assets and mints exactly the floored, truncated shares less the fee, never more than proportional |
| SharePrice.WithdrawEffect | programs/vault/src/lib.rs:177-195 | A withdrawal takes exactly the floored value of its shares, never truncated, and pays exactly that less the fee |
| Pricing.DepositIsTight | programs/vault/src/lib.rs:84-165 | Any deposit, the first one included, buys its floored proportional shares, or the amount where there are none; exactly the floored fee of those is withheld and the rest minted; nothing else changes, and a paused or full vault takes none |
| Pricing.WithdrawalIsTight | programs/vault/src/lib.rs:169-245 | A withdrawal is worth its floored proportional value and pays that less exactly the floored fee; nothing else changes |
| SharePrice.StepKeepsPrice | programs/vault/src/lib.rs:84-340 | No deposit, withdrawal, allocation, deallocation, strategy change, pause or clock advance lowers the share price |
| SharePrice.SharePriceNeverFalls | programs/vault/src/lib.rs:84-340 | Over any run of such steps the share price never falls while shares are outstanding |
| Fairness.OthersNeverLose | programs/vault/src/lib.rs:93-195 | Whatever a coalition of accounts trades with the vault, passes around or burns, the pro-rata claim of everyone else never falls |
| Fairness.CoalitionNeverGains | programs/vault/src/lib.rs:93-484 | Nor do the wallets plus claims of the coalition together ever rise, through any yield reports, fee harvests and allocations at the same clock reading |
| Fairness.RedemptionAfterDeposit | programs/vault/src/lib.rs:94-183 | The shares of a deposit redeem at once for at most the deposit and, untruncated, for all but one share price plus one unit |
| Fairness.RoundTripSucceeds | programs/vault/src/lib.rs:169-245 | Redeeming a deposit at once works if and only if shares were minted, there is no waiting period and the fee does not exceed the value |
| Fairness.RoundTripIsTight | programs/vault/src/lib.rs:84-245 | The round trip never pays more than it took and, without fees, loses less than one share price plus one unit |
| Holders.ReachableIsSound | programs/vault/src/lib.rs:30-552 | Timestamps, fee limits, the mark and the share count are sound in every reachable state |
| Holders.PassiveHolderNeverLoses | programs/vault/src/lib.rs:84-340 | A holder who keeps its shares never sees their value fall, with no assumption that others stay |
| Holders.AllClaimsCovered | programs/vault/src/lib.rs:177-183 | On every run the redemption values of all holders together are at most idle plus deployed assets |
| Books.LedgerConservation | programs/vault/src/lib.rs:121-241 | On every run the vault's ledger, tokens, shares and locked profit equal what was deposited, kept, reported, swallowed, donated and burned |
| Books.TotalStaysExact | programs/vault/src/lib.rs:239-240 | Total assets are idle plus deployed all along a run if and only if no withdrawal that went through left a fee behind |
| Books.ExactLedgerWithoutFees | programs/vault/src/lib.rs:359-376 | Without withdrawal fees total assets are exactly idle plus deployed and no loss is ever swallowed |
| Books.IdleIsBacked | programs/vault/src/lib.rs:197-200 | On every run the idle guard implies token backing if and only if the net reported yield is at most what is deployed, donated or was there before |
| Books.WithdrawalsExactly | programs/vault/src/lib.rs:169-245 | On every run a holder's withdrawal works if and only if there is no waiting period, the fee is within the value, the payout is idle and the token account holds it |
| Books.WithdrawalsAreBacked | programs/vault/src/lib.rs:169-245 | With net yield within what is deployed, donated or was there before, the program's own guards decide and tokens never run out |
| Books.DepositsExactly | programs/vault/src/lib.rs:84-165 | On every run a deposit works if and only if the vault is not paused, its cap leaves room, the shares are more than none and cover the fee, no counter overflows and the user has the amount |
| ProfitLock.ProfitDoesNotRaiseEffective | programs/vault/src/lib.rs:359-366 | A profit report leaves effective assets at old total minus everything locked, and does not raise them if and only if the unlocking period is positive |
| ProfitLock.ProfitUnlocksOverTime | programs/vault/src/lib.rs:557-577 | After a profit report effective assets only grow with time, and count the whole profit once the unlocking period has passed |
| ProfitLock.LossTakesEffectAtOnce | programs/vault/src/lib.rs:374-376 | After a loss effective assets are at every later time what they would have been less the loss, floored at zero: losses do not touch the unlocking of profits |
| Fairness.AntiSandwich | programs/vault/src/lib.rs:364-366 | Accounts that enter and leave together around any yield reports at one clock reading never end with more tokens |
| ProfitLock.StricterThanDocumented | docs/RANGER-FINANCE-VAULTS.md:272-277 | In every reachable state and at every later time the program counts at most the assets that the documented lock would |
| ProfitLock.MatchesDocumentation | docs/RANGER-FINANCE-VAULTS.md:272-277 | The two locks agree if and only if every profit found nothing locked or landed at the clock reading of the last one |
| ProfitLock.AgreeUntilSecondProfit | docs/RANGER-FINANCE-VAULTS.md:272-277 | The two locks agree until the second profit |
| Witnesses.ProfitIsLockedAgain | programs/vault/src/lib.rs:364-366 | A run from initialization on which the program locks 101 and the documentation 1 |
| Witnesses.IdleOutrunsTokens | programs/vault/src/lib.rs:197-235 | A run from initialization after which a withdrawal passes every guard and fails for lack of tokens |
| Witnesses.FeesLeaveTheTotal | programs/vault/src/lib.rs:239-240 | A run from initialization after which total assets are less than idle plus deployed |
| Witnesses.LossIsSwallowed | programs/vault/src/lib.rs:376 | A run from initialization on which the saturating subtraction swallows part of a loss |
| Witnesses.RoomRunsOut | programs/vault/src/lib.rs:299-304 | A run from initialization to a vault of 100 assets, all idle, that the bot reads, finds beyond the threshold and acts on without any pass ever changing it |
| Fees.EachSliceChargedOnce | programs/vault/src/lib.rs:414-484 | Over any run the performance fees are at most half the growth of the high water mark on the largest supply at a harvest |
| Fees.EachSecondChargedOnce | programs/vault/src/lib.rs:401-412 | Over any run the management fees are at most the highest rate on the most assets at a harvest, for the time from the last harvest before the run to the last one on it |
| Fees.HarvestTwiceIsOnce | programs/vault/src/lib.rs:397-439 | With shares outstanding a second harvest at the same clock reading changes nothing |
| Fees.HarvestTwiceExactly | programs/vault/src/lib.rs:397-484 | In general a second harvest is a no-op if and only if there were shares, or no fee was due, or the new shares owe none |
| Witnesses.HarvestTwiceWithoutShares | programs/vault/src/lib.rs:442-450 | A run from initialization to a vault without shares in which the second harvest charges again |
| Fees.DilutionIsBounded | programs/vault/src/lib.rs:441-450 | A harvest dilutes by at most the fee, its shares redeem for at most the fee, and one share more would be worth more than the fee |
| Fees.HarvestAtMostDoubles | programs/vault/src/lib.rs:401-450 | Within the initial limits and five years nothing is truncated, the fee is at most the assets and the supply at most doubles |
| Pricing.RatioIsFloored | programs/vault/src/lib.rs:414-423 | The share price is effective assets over shares at a scale of 10^18, floored, and one without shares |
| Pricing.ManagementFeeIsTight | programs/vault/src/lib.rs:397-412 | The management fee is the yearly rate on effective assets for the time since the last harvest, from above exactly and from below up to two roundings |
| Pricing.PerformanceFeeIsTight | programs/vault/src/lib.rs:425-434 | The performance fee is the rate on the growth beyond the mark for all shares, from above exactly and from below up to two roundings |
| Pricing.HarvestIsTight | programs/vault/src/lib.rs:390-493 | A harvest mints the admin exactly the floored shares for both fees together, moves the mark and the period on, and changes nothing else or, when no fee is due, nothing at all |
| Witnesses.ManagementLimitIsNotKept | programs/vault/src/lib.rs:515-532 | A run from initialization to a management fee above the limit of initialization |
| Operators.OnlyItsOwn | programs/vault/src/lib.rs:84-552 | What every step can change: the configuration, the pause and the fee marks only the admin, positions and the lock only the manager, tokens, shares and totals only the instructions meant to |
| Operators.OperatorsExactly | programs/vault/src/lib.rs:248-552 | An instruction of the admin or the manager works if and only if it is permitted, and then does all it was asked for |
| Operators.AllocationRoundTrip | programs/vault/src/lib.rs:288-340 | Deallocating what was just allocated restores everything but the lifetime counter and the timestamp |
| Operators.PauseStopsDepositsOnly | programs/vault/src/lib.rs:86-86 | A pause refuses every deposit and leaves every other step as it was |
| Operators.RemovedForever | programs/vault/src/lib.rs:496-512 | A removed strategy never becomes active and is never allocated to or deallocated from again |
| Operators.StepKeepsRemovedEmpty | programs/vault/src/lib.rs:344-376 | Removed strategies stay empty in a step if and only if it is not a report of value for one of them |
| Refusals.RefusedStep | programs/vault/src/lib.rs:84-552 | Every refused step changes nothing and reports the first of the program's checks that fails |
| RebalanceBot.RebalanceLoop | stablecoin/rebalance-bot.ts:148-242 | The loop over the vault's accounts does what the specified pass does, whichever calls fail or are lost |
| Rebalancing.OnePass | stablecoin/rebalance-bot.ts:182-236 | A pass keeps idle plus active positions, touches no inactive strategy and moves no position past its target, whichever calls fail |
| Rebalancing.OverweightReachTarget | stablecoin/rebalance-bot.ts:208-221 | Every overweight strategy lands exactly on its target |
| SinglePass.PassExactly | stablecoin/rebalance-bot.ts:182-236 | What one pass does to each strategy: a lost call nothing; an overweight one comes down to its share; an underweight one asks for the smaller of its shortfall and the idle assets read at the start, and gets it if that much is still idle at its turn and its counter has room, or nothing |
| SinglePass.StrangersPass | stablecoin/rebalance-bot.ts:148-242 | A pass by anyone but the manager does nothing |
| Operators.BotSeesEverything | stablecoin/rebalance-bot.ts:164-169 | On every run that reports no value for removed strategies the total that the bot computes is idle plus deployed assets |
| Rebalancing.TwoPassesShareByRoom | stablecoin/rebalance-bot.ts:119-236 | After two passes without the threshold an active strategy holds floor(T/n) if and only if its allocation counter has room, and a third such pass does nothing |
| Rebalancing.TwoPassesConverge | stablecoin/rebalance-bot.ts:119-236 | Two passes without the threshold leave every active strategy at floor(T/n) and T mod n idle if and only if all allocation counters have room |
| Rebalancing.ConvergesAfterLosses | stablecoin/rebalance-bot.ts:138-236 | After any number of gated passes with lost transactions two complete ones settle the vault: strategies with room for their original share are within 0.5% of it, exactly those on it if the second acted, and later passes do nothing |
| Rebalancing.GatedPass | stablecoin/rebalance-bot.ts:138-180 | A pass makes no call if and only if a number it reads is 2^53 or more or every active position is within a two-hundredth of the total of its share |
| Rebalancing.TwoPassesSettle | stablecoin/rebalance-bot.ts:138-236 | After two gated passes every strategy with room is within 0.5% of T of its target, exactly those with room are on it if the second pass acted, and later passes do nothing |
| FlufProgram.PoolAccount.constructor | programs/fluf/src/lib.rs:24-38 | A new pool is the state every run starts from |
| FlufProgram.PoolAccount.Deposit | programs/fluf/src/lib.rs:40-84 | A deposit commits the specified state or changes nothing |
| FlufProgram.PoolAccount.Withdraw | programs/fluf/src/lib.rs:86-131 | A withdrawal redeems the user's whole fT balance or changes nothing |
| FlufProgram.PoolAccount.CallBorrower | programs/fluf/src/lib.rs:160-173 | The borrower runs on the ledger with the loan minted |
| FlufProgram.PoolAccount.CollectRepayment | programs/fluf/src/lib.rs:175-219 | The repayment check, the protocol's share and the burn, step by step, in either build |
| FlufProgram.PoolAccount.LendAndCall | programs/fluf/src/lib.rs:133-222 | A loan commits the specified state or leaves no trace |
| BorrowerSample.HandleBorrow | programs/borrower_sample/src/lib.rs:15-46 | The sample borrower repays loan and fee as its build computes them, or fails |
| FlufBacking.SettlesExactly | programs/fluf/src/lib.rs:179-219 | A settlement works if and only if the repayment check passes and the computed fee is affordable |
| FlufBacking.LoanEffect | programs/fluf/src/lib.rs:142-219 | A committed loan leaves T alone, sends exactly the fee to the fee account and cuts the supply by the rest plus the borrower's own burns; it leaves no more fT than before if and only if at least the loan was collected |
| FlufOverflow.LoansStayBackedExactly | programs/fluf/src/lib.rs:142-219 | Loans of an amount to any borrowers keep every backed pool, and every run from creation, backed if and only if the build is checked, or the wrapped check still demands the amount, or the amount is at most a two-hundredth of the u64 range |
| FlufOverflow.SampleLoansStayBackedExactly | programs/borrower_sample/src/lib.rs:24-25 | Loans of an amount to the sample borrower keep every run from creation backed if and only if the build is checked or the repayment of that amount does not wrap |
| FlufOverflow.WrappedLoanBreaksBacking | programs/fluf/src/lib.rs:179-219 | In an unchecked build every amount whose repayment wraps is lent to the sample borrower by some pool and leaves unbacked fT |
| FlufBacking.AlwaysBacked | programs/fluf/src/lib.rs:46-101 | On every run of safe loans (those of the amounts that FlufOverflow characterises; in a checked build all), fT is backed one to one, an empty pool has no fT and no share computation is truncated |
| FlufBacking.RateNeverFalls | programs/fluf/src/lib.rs:40-222 | T per fT never falls over any such run while fT exists |
| FlufBacking.PassiveHolderNeverLoses | programs/fluf/src/lib.rs:40-222 | What a holder's fT redeem for never falls over any such run while it signs nothing away |
| FlufBacking.RepaymentsAgree | programs/borrower_sample/src/lib.rs:24-25 | The borrower's repayment is the amount the lender checks for whenever the check fits; in an unchecked build exactly when both products wrap alike |
| FlufBacking.SampleIsAProgram | programs/borrower_sample/src/lib.rs:28-43 | The sample borrower is one of the arbitrary borrowers |
| FlufBacking.SampleLoanCommits | programs/fluf/src/lib.rs:140-219 | In either build a loan to the sample borrower commits if and only if the pool is not empty, the loan can be minted, the account holds the repayment and the repayment settles |
| FlufBacking.FittingSampleLoanCommits | programs/fluf/src/lib.rs:140-219 | For amounts the check can multiply this means: the account holds the loan and its fee |
| FlufFairness.DepositExactly | programs/fluf/src/lib.rs:40-84 | A deposit works if and only if the user has the amount and the fT can be minted; it buys one fT per T from an empty pool and the floored proportional number otherwise |
| FlufFairness.WithdrawExactly | programs/fluf/src/lib.rs:86-131 | A withdrawal from a backed pool never fails, takes all of the user's fT and pays their floored share of the reserve |
| FlufFairness.DepositBuysNothing | programs/fluf/src/lib.rs:46-54 | A deposit mints nothing if and only if it is zero or worth less than one fT |
| FlufFairness.RoundTripIsTight | programs/fluf/src/lib.rs:40-131 | A newcomer can always redeem a deposit at once, never gains and loses less than one fT's price plus one unit |
| FlufFairness.DeadForever | programs/fluf/src/lib.rs:46-101 | A pool with T and no fT stays so on every run of safe loans and no T ever leaves it |
| FlufFairness.EarlyDonationKills | programs/fluf/src/lib.rs:46-101 | Any T sent to a pool before its first deposit makes it such a pool for good |
| FlufFairness.DeadPoolIsReached | programs/fluf/src/lib.rs:46-54 | Such a donation can happen |
| FlufFairness.StrayFlufPaysForLoan | programs/fluf/src/lib.rs:175-184 | A loan settles if and only if the fT already in the pool's account and the payment together reach the check; the borrower keeps the difference |
| FlufFairness.CoalitionNeverGains | programs/fluf/src/lib.rs:40-222 | Whatever a coalition trades, sends, burns and borrows through borrowers of its own, its wallets plus claims never rise and the others' claim never falls, counting the fT in the pool's account towards the coalition |
| FlufFairness.FlashLoansWinNothing | programs/fluf/src/lib.rs:133-222 | A coalition that starts and ends without fT, the pool's account included, ends with at most the T it had |
| FlufRefusals.RefusedStep | programs/fluf/src/lib.rs:40-222 | Every refused step of the pool changes nothing and reports the first of the program's checks that fails |

## Left out

- RebalanceBot.RebalanceLoop: numbers are exact naturals and the threshold is compared by cross-multiplication; the rounding of JavaScript doubles for totals from 2^53 on, and of the threshold product, is not modelled. Values from 2^53 on make `toNumber` throw and the pass stop, as in the source.
- RebalanceBot.RebalanceLoop: the snapshot is read atomically and all its transactions see one clock reading, which only strategy timestamps record.
- SharePrice.SharePriceNeverFalls: needs shares outstanding before every step, because a deposit into an empty vault mints one share per unit whatever assets are left (`programs/vault/src/lib.rs:94-96`); Holders.PassiveHolderNeverLoses replaces this by one holder who stays.
- FlufProgram.PoolAccount.CallBorrower: the pool and the sample borrower are built alike; a checked one beside a wrapping one is not modelled.
- FlufProgram.PoolAccount.LendAndCall: a borrower issues fT instructions and cannot debit the pool's accounts; `pool_fluf_account` is taken to be the pool's own account, which the accounts struct only marks as mutable.
- VaultProgram.VaultAccount.Initialize: a name is a sequence of bytes, UTF-8 or not; the recorded mint and account keys are not part of this model.
- Fairness.CoalitionNeverGains: at one clock reading and a fixed configuration, because profits reach holders as time passes; trades of outsiders, whose rounding may profit the coalition, are left out.
- VaultProgram.VaultAccount.ReportYield: writes the position after the total instead of before it, which a rolled back transaction does not show.
- Accounts are indices into the ledgers, one for each owner in each mint, present from the start; creating, closing and freezing them is left out.
- Signers, PDAs, bumps, rent and account ownership: a caller is the key that signed.
- SPL Token and Token-2022: transfers, mints and burns are exact balance updates; the KYC transfer hook (`programs/kyc_hook`) and transfer fees are left out.
- `accumulated_fees` is carried along but no claim is made about it, since it adds LP units to asset units.
- `withdraw_fees` of the fluf program has no signature for the pool's account and no successful step to describe.
- The bot's refresh, harvest and monitor loops, the command line tools, tests, skills and diagrams.
