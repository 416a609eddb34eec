/** Runs from initialization on which the code does not do what it is described or meant to do. */
module Witnesses {
  import opened Machine
  import opened Token
  import opened VaultModel
  import opened Books
  import opened ProfitLock
  import opened Fees
  import opened RebalanceBot
  import opened Rebalancing

  // ---- Reaching a state ----

  /** Some run from initialization ends in `w`, with tally `t` and the documented lock at `lock`. */
  ghost predicate Reached(w: World, t: Tally, lock: nat) {
    exists w0, steps :: Initial(w0) && Run(w0, steps) == w
                        && RecordAll(NOTHING, w0, steps) == t && DocumentedLockAfter(0, w0, steps) == lock
  }

  lemma {:induction false} RunAppend(w: World, t: Tally, lock: nat, steps: seq<Step>, step: Step)
    requires Timely(w)
    ensures Timely(Run(w, steps))
    ensures Run(w, steps + [step]) == Apply(Run(w, steps), step)
    ensures RecordAll(t, w, steps + [step]) == Record(RecordAll(t, w, steps), Run(w, steps), step)
    ensures DocumentedLockAfter(lock, w, steps + [step])
            == DocumentedLock(DocumentedLockAfter(lock, w, steps), Run(w, steps), step)
    decreases |steps|
  {
    StepKeepsTime(w, if steps == [] then step else steps[0]);
    if steps == [] {
      assert ([] + [step])[1..] == [];
    } else {
      assert (steps + [step])[1..] == steps[1..] + [step];
      RunAppend(Apply(w, steps[0]), Record(t, w, steps[0]), DocumentedLock(lock, w, steps[0]), steps[1..], step);
    }
  }

  lemma ReachedBy(w: World, t: Tally, lock: nat, step: Step, w': World)
    requires Timely(w) && Reached(w, t, lock) && Apply(w, step) == w'
    ensures Reached(w', Record(t, w, step), DocumentedLock(lock, w, step))
  {
    var w0, steps :| Initial(w0) && Run(w0, steps) == w
                     && RecordAll(NOTHING, w0, steps) == t && DocumentedLockAfter(0, w0, steps) == lock;
    RunAppend(w0, NOTHING, 0, steps, step);
    assert Run(w0, steps + [step]) == w';
  }

  // ---- One depositor who also runs the vault ----

  /** A vault with one strategy in which account 1 is admin, manager and the only holder. */
  function Stage(config: Config, total: U64, idle: U64, shares: U64, lock: U64, since: Timestamp, s: Strategy,
                 tokens: U64, wallet: U64, now: Timestamp): World
    requires tokens + wallet < U64_LIMIT
  {
    World(Vault(1, 1, config, total, idle, shares, PRECISION, 0, lock, since, 0, true), [s],
          Ledger(tokens + wallet, [tokens, wallet]), Ledger(shares, [0, shares]), now)
  }

  /** That vault after the first deposit was allocated whole. */
  function Invested(config: Config, amount: U64): World {
    Stage(config, amount, 0, amount, 0, 0, Strategy(amount, amount, true, 0), amount, 0, 0)
  }

  lemma AllocateIsReached(w: World, t: Tally, lock: nat, amount: U64)
    requires Timely(w) && Reached(w, t, lock) && w.vault.manager == 1 && |w.strategies| == 1
    requires w.strategies[0].active && 0 < amount <= w.vault.idleAssets
    requires w.strategies[0].positionValue + amount < U64_LIMIT && w.strategies[0].totalAllocated + amount < U64_LIMIT
    ensures var s := w.strategies[0];
            Reached(w.(strategies := [Strategy(s.positionValue + amount, s.totalAllocated + amount, true, w.now)],
                       vault := w.vault.(idleAssets := w.vault.idleAssets - amount)), t, lock)
  {
    var step := AllocateStep(1, 0, amount);
    var s := w.strategies[0];
    var s' := Strategy(s.positionValue + amount, s.totalAllocated + amount, true, w.now);
    assert w.strategies[0 := s'] == [s'];
    ReachedBy(w, t, lock, step, Apply(w, step));
  }

  /** The vault after account 1 paid in everything it had. */
  function Deposited(config: Config, amount: U64): World {
    World(Vault(1, 1, config, amount, amount, amount, PRECISION, 0, 0, 0, 0, true), [],
          Ledger(amount, [amount, 0]), Ledger(amount, [0, amount]), 0)
  }

  lemma DepositIsReached(config: Config, amount: U64)
    requires config.performanceFeeBps <= MAX_PERFORMANCE_FEE_BPS && config.managementFeeBps <= MAX_MANAGEMENT_FEE_BPS
    requires 0 < amount <= config.maxCap && config.depositFeeBps == 0
    ensures Reached(Deposited(config, amount), NOTHING, 0)
  {
    var w0 := World(Vault(1, 1, config, 0, 0, 0, PRECISION, 0, 0, 0, 0, true), [],
                    Ledger(amount, [0, amount]), Ledger(0, [0, 0]), 0);
    SumOfTwo(0, amount);
    SumOfTwo(0, 0);
    assert InitialVault(1, 1, config, 0) == Ok(w0.vault);
    assert Initial(w0) && Run(w0, []) == w0;
    assert [0, amount][1 := 0][0 := amount] == [amount, 0];
    assert QuoteDeposit(w0.vault, 0, amount) == Ok(DepositQuote(amount, 0));
    ReachedBy(w0, NOTHING, 0, DepositStep(1, amount), Deposited(config, amount));
  }

  lemma InvestedIsReached(config: Config, amount: U64)
    requires config.performanceFeeBps <= MAX_PERFORMANCE_FEE_BPS && config.managementFeeBps <= MAX_MANAGEMENT_FEE_BPS
    requires 0 < amount <= config.maxCap && config.depositFeeBps == 0
    ensures Reached(Invested(config, amount), NOTHING, 0)
  {
    var w1 := Deposited(config, amount).(strategies := [Strategy(0, 0, true, 0)]);
    DepositIsReached(config, amount);
    ReachedBy(Deposited(config, amount), NOTHING, 0, AddStrategyStep(1), w1);
    AllocateIsReached(w1, NOTHING, 0, amount);
  }

  lemma ProfitIsReached(w: World, t: Tally, lock: nat, newValue: U64)
    requires Timely(w) && Reached(w, t, lock) && w.vault.manager == 1 && |w.strategies| == 1
    requires newValue > w.strategies[0].positionValue
    requires var profit := newValue - w.strategies[0].positionValue;
             w.vault.totalAssets + profit < U64_LIMIT && w.vault.lockedProfit + profit < U64_LIMIT
    ensures var profit := newValue - w.strategies[0].positionValue;
            Reached(w.(strategies := [w.strategies[0].(positionValue := newValue, lastUpdateTs := w.now)],
                       vault := w.vault.(totalAssets := w.vault.totalAssets + profit,
                                         lockedProfit := w.vault.lockedProfit + profit,
                                         lockedProfitTs := w.now)),
                    t.(profits := t.profits + profit),
                    StillLocked(lock, w.vault.config.lockedProfitDegradation, w.now - w.vault.lockedProfitTs) + profit)
  {
    var step := ReportStep(1, 0, newValue);
    var s := w.strategies[0].(positionValue := newValue, lastUpdateTs := w.now);
    assert w.strategies[0 := s] == [s];
    ReachedBy(w, t, lock, step, Apply(w, step));
  }

  lemma TickIsReached(w: World, t: Tally, lock: nat, seconds: nat)
    requires Timely(w) && Reached(w, t, lock) && w.now + seconds < I64_LIMIT
    ensures Reached(w.(now := w.now + seconds), t, lock)
  {
    ReachedBy(w, t, lock, TickStep(seconds), w.(now := w.now + seconds));
  }

  lemma DeallocateIsReached(w: World, t: Tally, lock: nat, amount: U64)
    requires Timely(w) && Reached(w, t, lock) && w.vault.manager == 1 && |w.strategies| == 1
    requires w.strategies[0].active && 0 < amount <= w.strategies[0].positionValue
    requires w.vault.idleAssets + amount < U64_LIMIT
    ensures var s := w.strategies[0];
            Reached(w.(strategies := [s.(positionValue := s.positionValue - amount, lastUpdateTs := w.now)],
                       vault := w.vault.(idleAssets := w.vault.idleAssets + amount)), t, lock)
  {
    var step := DeallocateStep(1, 0, amount);
    var s := w.strategies[0].(positionValue := w.strategies[0].positionValue - amount, lastUpdateTs := w.now);
    assert w.strategies[0 := s] == [s];
    ReachedBy(w, t, lock, step, Apply(w, step));
  }

  lemma WithdrawIsReached(w: World, t: Tally, lock: nat, shares: U64, quote: WithdrawQuote, w': World)
    requires Timely(w) && Reached(w, t, lock) && w.asset.Has(1) && w.lp.Has(1)
    requires QuoteWithdrawal(w.vault, w.now, shares) == Ok(quote)
    requires SettleWithdrawal(w, 1, shares, quote) == Ok(w')
    ensures quote.payout <= quote.assets
    ensures Reached(w', t.(retained := t.retained + (quote.assets - quote.payout)), lock)
  {
    ReachedBy(w, t, lock, WithdrawStep(1, shares), w');
  }

  // ---- Profits are locked again ----

  /** A second profit locks the first one again: after profits of 100 and, once that is fully unlocked, of 1, the
      program holds back 101 where the documentation holds back 1. */
  lemma ProfitIsLockedAgain()
    ensures exists w, steps ::
              && Initial(w)
              && Run(w, steps).vault.lockedProfit == 101 && DocumentedLockAfter(0, w, steps) == 1
  {
    var config := Config(1000, 0, 0, 0, 0, 10, 0);
    var w1 := Stage(config, 600, 0, 500, 100, 0, Strategy(600, 500, true, 0), 500, 0, 0);
    var w2 := Stage(config, 600, 0, 500, 100, 0, Strategy(600, 500, true, 0), 500, 0, 10);
    var w3 := Stage(config, 601, 0, 500, 101, 10, Strategy(601, 500, true, 10), 500, 0, 10);
    InvestedIsReached(config, 500);
    ProfitIsReached(Invested(config, 500), NOTHING, 0, 600);
    TickIsReached(w1, NOTHING.(profits := 100), 100, 10);
    ProfitIsReached(w2, NOTHING.(profits := 100), 100, 601);
    assert Reached(w3, NOTHING.(profits := 101), 1);
  }

  // ---- Idle assets without tokens ----

  /** A reported profit that is deallocated becomes idle without becoming tokens: a vault with 200 idle assets and 100
      tokens refuses a withdrawal that passes all of the program's own guards. */
  lemma IdleOutrunsTokens()
    ensures exists w, steps, shares: U64 ::
              && Initial(w)
              && var w' := Run(w, steps);
                 && w'.asset.Has(VAULT_ACCOUNT) && w'.asset.balances[VAULT_ACCOUNT] < w'.vault.idleAssets
                 && Holds(w', 1, shares) && Payable(w'.vault, w'.now, shares)
                 && InstantWithdraw(w', 1, shares) == Err(TokenFailure)
  {
    var config := Config(100, 0, 0, 0, 0, 0, 0);
    var w1 := Stage(config, 200, 0, 100, 100, 0, Strategy(200, 100, true, 0), 100, 0, 0);
    var w2 := Stage(config, 200, 200, 100, 100, 0, Strategy(0, 100, true, 0), 100, 0, 0);
    var t := NOTHING.(profits := 100);
    InvestedIsReached(config, 100);
    ProfitIsReached(Invested(config, 100), NOTHING, 0, 200);
    DeallocateIsReached(w1, t, 100, 200);
    assert Reached(w2, t, 100);
    TokensAreMissing(w2);
  }

  lemma TokensAreMissing(w: World)
    requires w == Stage(Config(100, 0, 0, 0, 0, 0, 0), 200, 200, 100, 100, 0, Strategy(0, 100, true, 0), 100, 0, 0)
    ensures Payable(w.vault, w.now, 100)
    ensures InstantWithdraw(w, 1, 100) == Err(TokenFailure)
  {
  }

  // ---- No room to allocate ----

  const HALF: U64 := U64_LIMIT / 2

  const WIDE: Config := Config(HALF, 0, 0, 0, 0, 0, 0)

  /** The vault of 100 idle assets whose only strategy was once allocated all that its counter can count. */
  function Exhausted(): World {
    Stage(WIDE, 100, 100, 100, 0, 0, Strategy(0, U64_LIMIT - 1, true, 0), 100, HALF - 100, 0)
  }

  lemma MostIsWithdrawn(w: World)
    requires w == Stage(WIDE, HALF, HALF, HALF, 0, 0, Strategy(0, U64_LIMIT - 1, true, 0), HALF, 0, 0)
    ensures QuoteWithdrawal(w.vault, w.now, HALF - 100) == Ok(WithdrawQuote(HALF - 100, HALF - 100))
    ensures SettleWithdrawal(w, 1, HALF - 100, WithdrawQuote(HALF - 100, HALF - 100)) == Ok(Exhausted())
  {
    assert w.lp.balances[1 := 100] == [0, 100];
    assert w.asset.balances[VAULT_ACCOUNT := 100][1 := HALF - 100] == [100, HALF - 100];
  }

  lemma HalfCameBack(w: World)
    requires w == Stage(WIDE, HALF, HALF, HALF, 0, 0, Strategy(0, HALF, true, 0), HALF, 0, 0)
    ensures Reached(w, NOTHING, 0)
  {
    InvestedIsReached(WIDE, HALF);
    DeallocateIsReached(Invested(WIDE, HALF), NOTHING, 0, HALF);
  }

  lemma CounterIsFull(w: World)
    requires w == Stage(WIDE, HALF, HALF, HALF, 0, 0, Strategy(0, U64_LIMIT - 1, true, 0), HALF, 0, 0)
    ensures Reached(w, NOTHING, 0)
  {
    var w1 := Stage(WIDE, HALF, HALF, HALF, 0, 0, Strategy(0, HALF, true, 0), HALF, 0, 0);
    var w2 := Stage(WIDE, HALF, 1, HALF, 0, 0, Strategy(HALF - 1, U64_LIMIT - 1, true, 0), HALF, 0, 0);
    HalfCameBack(w1);
    AllocateIsReached(w1, NOTHING, 0, HALF - 1);
    DeallocateIsReached(w2, NOTHING, 0, HALF - 1);
  }

  lemma ExhaustedIsReached()
    ensures Reached(Exhausted(), NOTHING, 0)
  {
    var w := Stage(WIDE, HALF, HALF, HALF, 0, 0, Strategy(0, U64_LIMIT - 1, true, 0), HALF, 0, 0);
    CounterIsFull(w);
    MostIsWithdrawn(w);
    WithdrawIsReached(w, NOTHING, 0, HALF - 100, WithdrawQuote(HALF - 100, HALF - 100), Exhausted());
  }

  /** The lifetime allocation counter runs out: in a vault of 100 assets, all idle, the bot can read every number, finds
      its only strategy beyond the threshold and acts, and no pass ever changes anything. */
  lemma RoomRunsOut()
    ensures exists w, steps ::
              && Initial(w)
              && var w' := Run(w, steps);
                 && ActiveCount(w') > 0 && ActiveTotal(w') < UNSAFE_INTEGER && !Room(w', FairShare(w'))
                 && Acts(w') && RebalancePass(w', w'.vault.manager, {}) == w'
                 && !EqualWeight(w', FairShare(w'), ActiveTotal(w') % ActiveCount(w'))
  {
    ExhaustedIsReached();
    NothingFits(Exhausted());
  }

  lemma NothingFits(w: World)
    requires w.strategies == [Strategy(0, U64_LIMIT - 1, true, 0)] && w.vault.idleAssets == 100
    ensures ActiveCount(w) == 1 && ActiveTotal(w) == 100 && FairShare(w) == 100
    ensures !HasRoom(w, 0, 100)
    ensures Acts(w) && RebalancePass(w, w.vault.manager, {}) == w
  {
    var infos := FetchStrategies(w.strategies);
    assert FetchFrom(w.strategies, 1) == [];
    assert infos == [StrategyInfo(0, 0)] + [];
    SumOfEqual(CurrentValues(infos), 0);
    IdlePass(w);
    GatedPass(w, w.vault.manager, {});
    assert Exceeds(100 - w.strategies[0].positionValue, 100);
  }

  // ---- Withdrawal fees and swallowed losses ----

  const TAXED: Config := Config(100, 0, 0, 0, 1000, 0, 0)

  /** The vault after half of 100 assets were withdrawn at a fee of a tenth and everything idle was allocated again. */
  function Reinvested(): World {
    Stage(TAXED, 50, 0, 50, 0, 0, Strategy(55, 105, true, 0), 55, 45, 0)
  }

  lemma HalfIsWithdrawn(w: World, w': World)
    requires w == Stage(TAXED, 100, 50, 100, 0, 0, Strategy(50, 100, true, 0), 100, 0, 0)
    requires w' == Stage(TAXED, 50, 5, 50, 0, 0, Strategy(50, 100, true, 0), 55, 45, 0)
    ensures QuoteWithdrawal(w.vault, w.now, 50) == Ok(WithdrawQuote(50, 45))
    ensures SettleWithdrawal(w, 1, 50, WithdrawQuote(50, 45)) == Ok(w')
  {
    assert w.lp.balances[1 := 50] == [0, 50];
    assert w.asset.balances[VAULT_ACCOUNT := 55][1 := 45] == [55, 45];
  }

  lemma ReinvestedIsReached()
    ensures Reached(Reinvested(), NOTHING.(retained := 5), 0)
  {
    var w := Stage(TAXED, 50, 5, 50, 0, 0, Strategy(50, 100, true, 0), 55, 45, 0);
    TaxIsReached(w);
    AllocateIsReached(w, NOTHING.(retained := 5), 0, 5);
  }

  lemma TaxIsReached(w: World)
    requires w == Stage(TAXED, 50, 5, 50, 0, 0, Strategy(50, 100, true, 0), 55, 45, 0)
    ensures Reached(w, NOTHING.(retained := 5), 0)
  {
    var w1 := Stage(TAXED, 100, 50, 100, 0, 0, Strategy(50, 100, true, 0), 100, 0, 0);
    InvestedIsReached(TAXED, 100);
    DeallocateIsReached(Invested(TAXED, 100), NOTHING, 0, 50);
    HalfIsWithdrawn(w1, w);
    WithdrawIsReached(w1, NOTHING, 0, 50, WithdrawQuote(50, 45), w);
  }

  /** Withdrawal fees leave the total but not the vault. */
  lemma FeesLeaveTheTotal()
    ensures exists w, steps ::
              && Initial(w)
              && var w' := Run(w, steps);
                 w'.vault.totalAssets < w'.vault.idleAssets + Deployed(w'.strategies)
  {
    ReinvestedIsReached();
    assert Positions(Reinvested().strategies) == [55];
    assert Sum([55]) == 55;
  }

  /** Hence a loss can exceed the total, and the saturating subtraction swallows the excess. */
  lemma LossIsSwallowed()
    ensures exists w, steps ::
              && Initial(w)
              && var t := RecordAll(NOTHING, w, steps);
                 t.retained > 0 && t.swallowed > 0
  {
    var w := Stage(TAXED, 0, 0, 50, 0, 0, Strategy(0, 105, true, 0), 55, 45, 0);
    ReinvestedIsReached();
    ReachedBy(Reinvested(), NOTHING.(retained := 5), 0, ReportStep(1, 0, 0), w);
    assert Reached(w, NOTHING.(retained := 5, losses := 55, swallowed := 5), 0);
  }

  // ---- A second harvest ----

  const CHARGED: Config := Config(1, 5000, 1000, 0, 0, 10, 0)

  /** The vault whose only holder left while a profit of a million was locked. */
  function Abandoned(now: Timestamp): World {
    Stage(CHARGED, 1_000_000, 0, 0, 1_000_000, 0, Strategy(1_000_000, 1, true, 0), 0, 1, now)
  }

  lemma LastShareIsQuoted(v: Vault)
    requires v == Vault(1, 1, CHARGED, 1_000_001, 1, 1, PRECISION, 0, 1_000_000, 0, 0, true)
    ensures QuoteWithdrawal(v, 0, 1) == Ok(WithdrawQuote(1, 1))
  {
    assert Truncate(MulDiv(1_000_000, 10, 10)) == 1_000_000;
    assert EffectiveAssets(v, 0) == 1;
    assert RedemptionValue(v, 0, 1) == Ok(1);
    assert BpsOf(1, 0) == 0;
  }

  lemma LastHolderLeaves(w: World)
    requires w == Stage(CHARGED, 1_000_001, 1, 1, 1_000_000, 0, Strategy(1_000_000, 1, true, 0), 1, 0, 0)
    ensures SettleWithdrawal(w, 1, 1, WithdrawQuote(1, 1)) == Ok(Abandoned(0))
  {
    assert w.lp.balances[1 := 0] == [0, 0];
    assert w.asset.balances[VAULT_ACCOUNT := 0][1 := 1] == [0, 1];
  }

  lemma AbandonedIsReached()
    ensures Reached(Abandoned(SECONDS_PER_YEAR), NOTHING.(profits := 1_000_000), 1_000_000)
  {
    var t := NOTHING.(profits := 1_000_000);
    var w1 := Stage(CHARGED, 1_000_001, 0, 1, 1_000_000, 0, Strategy(1_000_001, 1, true, 0), 1, 0, 0);
    var w2 := Stage(CHARGED, 1_000_001, 1, 1, 1_000_000, 0, Strategy(1_000_000, 1, true, 0), 1, 0, 0);
    InvestedIsReached(CHARGED, 1);
    ProfitIsReached(Invested(CHARGED, 1), NOTHING, 0, 1_000_001);
    DeallocateIsReached(w1, t, 1_000_000, 1);
    LastShareIsQuoted(w2.vault);
    LastHolderLeaves(w2);
    WithdrawIsReached(w2, t, 1_000_000, 1, WithdrawQuote(1, 1), Abandoned(0));
    TickIsReached(Abandoned(0), t, 1_000_000, SECONDS_PER_YEAR);
  }

  /** In a vault without shares the second harvest can charge a fee: the management fee is minted one share per unit,
      which prices those shares far above the mark. */
  lemma HarvestTwiceWithoutShares()
    ensures exists w, steps, caller ::
              && Initial(w)
              && var w' := Run(w, steps);
                 && w'.vault.lpSupply == 0
                 && HarvestFees(w', caller).Ok?
                 && var w1 := HarvestFees(w', caller).value;
                    HarvestFees(w1, caller) != Ok(w1)
  {
    AbandonedIsReached();
    AbandonedIsHarvestedTwice(Abandoned(SECONDS_PER_YEAR));
  }

  lemma AbandonedIsHarvestedTwice(w: World)
    requires w == Abandoned(SECONDS_PER_YEAR)
    ensures HarvestFees(w, 1).Ok? && HarvestFees(HarvestFees(w, 1).value, 1) != HarvestFees(w, 1)
  {
    assert ManagementFee(w.vault, w.now) == Ok(100_000);
    var priced := w.vault.(lpSupply := 100_000);
    assert AssetPerShare(priced, w.now) == 10 * PRECISION;
    assert PerformanceFee(priced, w.now) == 450_000;
    HarvestTwiceExactly(w, 1);
  }

  // ---- The management fee limit ----

  /** Initialization limits the management fee, but the admin can set any rate later. */
  lemma ManagementLimitIsNotKept()
    ensures exists w, steps ::
              && Initial(w)
              && Run(w, steps).vault.config.managementFeeBps > MAX_MANAGEMENT_FEE_BPS
  {
    var config := Config(1000, 0, 0, 0, 0, 0, 0);
    var w := Invested(config, 500);
    InvestedIsReached(config, 500);
    var excessive := config.(managementFeeBps := 10_000);
    ReachedBy(w, NOTHING, 0, ConfigStep(1, excessive), w.(vault := w.vault.(config := excessive)));
  }
}
