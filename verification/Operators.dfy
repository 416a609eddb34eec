/** Who can change what: the authority and the reach of every step, and what follows for removed strategies. */
module Operators {
  import opened Machine
  import opened Token
  import opened VaultModel
  import opened Books
  import opened RebalanceBot
  import opened Rebalancing

  // ---- What each step can change ----

  /** The parts of the vault that users move. */
  predicate UserPartsKept(w: World, w': World, step: Step) {
    var v, v' := w.vault, w'.vault;
    && (v'.lpSupply == v.lpSupply || step.DepositStep? || step.WithdrawStep? || step.HarvestStep?)
    && (v'.totalAssets == v.totalAssets || step.DepositStep? || step.WithdrawStep? || step.ReportStep?)
    && (v'.idleAssets == v.idleAssets || step.DepositStep? || step.WithdrawStep?
        || step.AllocateStep? || step.DeallocateStep?)
    && (v'.accumulatedFees == v.accumulatedFees || step.DepositStep? || step.HarvestStep?)
    && (w'.asset == w.asset || step.DepositStep? || step.WithdrawStep?
        || (step.AssetTransferStep? && step.from != VAULT_ACCOUNT))
    && (w'.lp == w.lp || step.DepositStep? || step.WithdrawStep? || step.HarvestStep?
        || step.LpTransferStep? || step.LpBurnStep?)
  }

  /** The parts that only the admin moves: the configuration, the pause flag, the fee marks. */
  predicate AdminPartsKept(w: World, w': World, step: Step) {
    var v, v' := w.vault, w'.vault;
    && v'.admin == v.admin && v'.manager == v.manager
    && (v'.config == v.config
        || (step.ConfigStep? && step.caller == v.admin && v'.config == step.config
            && step.config.performanceFeeBps <= MAX_PERFORMANCE_FEE_BPS))
    && (v'.active == v.active || (step.SetActiveStep? && step.caller == v.admin && v'.active == step.active))
    && (v'.highWaterMark == v.highWaterMark || (step.HarvestStep? && step.caller == v.admin))
    && (v'.lastFeeHarvestTs == v.lastFeeHarvestTs
        || (step.HarvestStep? && step.caller == v.admin && v'.lastFeeHarvestTs == w.now))
    && (w'.now == w.now || (step.TickStep? && w'.now == w.now + step.seconds))
  }

  /** The parts that the manager moves: the profit lock and the positions of strategies. */
  predicate ManagerPartsKept(w: World, w': World, step: Step) {
    var v, v' := w.vault, w'.vault;
    && ((v'.lockedProfit == v.lockedProfit && v'.lockedProfitTs == v.lockedProfitTs)
        || (step.ReportStep? && step.caller == v.manager && step.index < |w.strategies|
            && w.strategies[step.index].positionValue < step.newValue && v'.lockedProfitTs == w.now))
    && |w.strategies| <= |w'.strategies| <= |w.strategies| + 1
    && (|w'.strategies| == |w.strategies| + 1 ==>
          && step.AddStrategyStep? && step.caller == v.admin && |w'.strategies| <= 10
          && w'.strategies[|w.strategies|] == Strategy(0, 0, true, w.now))
    && forall i :: 0 <= i < |w.strategies| && w'.strategies[i] != w.strategies[i] ==>
         StrategyChange(w, w.strategies[i], w'.strategies[i], step, i)
  }

  predicate StrategyChange(w: World, s: Strategy, s': Strategy, step: Step, i: nat) {
    match step
    case AllocateStep(caller, index, amount) =>
      && caller == w.vault.manager && index == i && s.active && amount <= w.vault.idleAssets
      && s'.active && s'.lastUpdateTs == w.now
      && s'.positionValue == s.positionValue + amount && s'.totalAllocated == s.totalAllocated + amount
    case DeallocateStep(caller, index, amount) =>
      && caller == w.vault.manager && index == i && s.active
      && s'.positionValue == s.positionValue - amount
      && s' == s.(positionValue := s'.positionValue, lastUpdateTs := w.now)
    case ReportStep(caller, index, newValue) =>
      && caller == w.vault.manager && index == i && s' == s.(positionValue := newValue, lastUpdateTs := w.now)
    case RemoveStrategyStep(caller, index) =>
      && caller == w.vault.admin && index == i && s.positionValue == 0 && s' == s.(active := false)
    case _ => false
  }

  /** No step reaches further than its instruction is meant to, and only the admin and the manager do what is theirs. */
  lemma OnlyItsOwn(w: World, step: Step)
    ensures var w' := Apply(w, step);
            UserPartsKept(w, w', step) && AdminPartsKept(w, w', step) && ManagerPartsKept(w, w', step)
  {
    UserParts(w, step);
    AdminParts(w, step);
    ManagerParts(w, step);
  }

  lemma UserParts(w: World, step: Step)
    ensures UserPartsKept(w, Apply(w, step), step)
  {
  }

  lemma AdminParts(w: World, step: Step)
    ensures AdminPartsKept(w, Apply(w, step), step)
  {
  }

  lemma ManagerParts(w: World, step: Step)
    ensures ManagerPartsKept(w, Apply(w, step), step)
  {
  }

  // ---- When operators succeed ----

  /** What the program asks of the admin and the manager. */
  predicate Permitted(w: World, step: Step) {
    match step
    case AddStrategyStep(caller) => caller == w.vault.admin && |w.strategies| < 10
    case RemoveStrategyStep(caller, i) =>
      caller == w.vault.admin && i < |w.strategies| && w.strategies[i].positionValue == 0
    case ConfigStep(caller, config) => caller == w.vault.admin && config.performanceFeeBps <= 5000
    case SetActiveStep(caller, _) => caller == w.vault.admin
    case AllocateStep(caller, i, amount) =>
      && caller == w.vault.manager && i < |w.strategies| && w.strategies[i].active
      && 0 < amount <= w.vault.idleAssets
      && w.strategies[i].positionValue + amount < U64_LIMIT && w.strategies[i].totalAllocated + amount < U64_LIMIT
    case DeallocateStep(caller, i, amount) =>
      && caller == w.vault.manager && i < |w.strategies| && w.strategies[i].active
      && 0 < amount <= w.strategies[i].positionValue && w.vault.idleAssets + amount < U64_LIMIT
    case ReportStep(caller, i, newValue) =>
      && caller == w.vault.manager && i < |w.strategies|
      && w.vault.totalAssets + SaturatingSub(newValue, w.strategies[i].positionValue) < U64_LIMIT
      && w.vault.lockedProfit + SaturatingSub(newValue, w.strategies[i].positionValue) < U64_LIMIT
    case _ => false
  }

  predicate ByOperator(step: Step) {
    || step.AddStrategyStep? || step.RemoveStrategyStep? || step.ConfigStep? || step.SetActiveStep?
    || step.AllocateStep? || step.DeallocateStep? || step.ReportStep?
  }

  /** What the step asks for has happened. */
  predicate Done(w: World, w': World, step: Step) {
    match step
    case AddStrategyStep(_) => |w'.strategies| == |w.strategies| + 1
    case RemoveStrategyStep(_, i) => i < |w'.strategies| && !w'.strategies[i].active
    case ConfigStep(_, config) => w'.vault.config == config
    case SetActiveStep(_, active) => w'.vault.active == active
    case AllocateStep(_, i, amount) =>
      w'.vault.idleAssets == w.vault.idleAssets - amount && i < |w'.strategies| == |w.strategies|
      && w'.strategies[i].positionValue == w.strategies[i].positionValue + amount
    case DeallocateStep(_, i, amount) =>
      w'.vault.idleAssets == w.vault.idleAssets + amount && i < |w'.strategies| == |w.strategies|
      && w'.strategies[i].positionValue == w.strategies[i].positionValue - amount
    case ReportStep(_, i, newValue) => i < |w'.strategies| && w'.strategies[i].positionValue == newValue
    case _ => true
  }

  /** An operator's step succeeds if and only if it is permitted, and then does all it was asked for; never a part. */
  lemma OperatorsExactly(w: World, step: Step)
    requires ByOperator(step)
    ensures Execute(w, step).Ok? <==> Permitted(w, step)
    ensures Execute(w, step).Ok? ==> Done(w, Apply(w, step), step)
    ensures Execute(w, step).Err? ==> Apply(w, step) == w
  {
  }

  /** Taking back what was just allocated restores everything but the lifetime counter and the timestamp. */
  lemma AllocationRoundTrip(w: World, caller: nat, i: nat, amount: U64)
    requires Allocate(w, caller, i, amount).Ok?
    ensures var s := w.strategies[i];
            Deallocate(Allocate(w, caller, i, amount).value, caller, i, amount)
            == Ok(w.(strategies := w.strategies[i := s.(totalAllocated := Allocate(w, caller, i, amount).value
                                                                             .strategies[i].totalAllocated,
                                                        lastUpdateTs := w.now)]))
  {
    var w1 := Allocate(w, caller, i, amount).value;
    var back := Deallocate(w1, caller, i, amount).value;
    assert back.strategies == w.strategies[i := back.strategies[i]];
  }

  // ---- The pause ----

  function WithActive(w: World, active: bool): World {
    w.(vault := w.vault.(active := active))
  }

  /** `result'` is `result` but for the flag. */
  predicate SameButActive(result': Result<World>, result: Result<World>, active: bool) {
    && (result'.Ok? <==> result.Ok?)
    && (result.Ok? ==> result'.value == WithActive(result.value, active))
  }

  lemma PricesIgnorePause(v: Vault, now: Timestamp, shares: U64, active: bool)
    ensures QuoteWithdrawal(v.(active := active), now, shares) == QuoteWithdrawal(v, now, shares)
    ensures QuoteFees(v.(active := active), now) == QuoteFees(v, now)
  {
  }

  lemma WithdrawalIgnoresPause(w: World, user: nat, shares: U64, active: bool)
    ensures SameButActive(InstantWithdraw(WithActive(w, active), user, shares), InstantWithdraw(w, user, shares),
                          active)
  {
    PricesIgnorePause(w.vault, w.now, shares, active);
  }

  lemma HarvestIgnoresPause(w: World, caller: nat, active: bool)
    ensures SameButActive(HarvestFees(WithActive(w, active), caller), HarvestFees(w, caller), active)
  {
    PricesIgnorePause(w.vault, w.now, 0, active);
  }

  /** Pausing refuses every deposit and affects nothing else: any other step, apart from setting the flag itself,
      succeeds or fails as it would have and leaves the same state but for the flag. */
  lemma PauseStopsDepositsOnly(w: World, step: Step, active: bool)
    ensures step.DepositStep? ==> Execute(WithActive(w, false), step) == Err(VaultInactive)
    ensures !step.DepositStep? && !step.SetActiveStep? ==>
              SameButActive(Execute(WithActive(w, active), step), Execute(w, step), active)
  {
    match step
    case WithdrawStep(user, shares) => WithdrawalIgnoresPause(w, user, shares, active);
    case HarvestStep(caller) => HarvestIgnoresPause(w, caller, active);
    case _ =>
  }

  // ---- Removed strategies ----

  /** Once removed, a strategy stays removed and never takes part in an allocation or deallocation again. */
  lemma {:induction false} RemovedForever(w: World, steps: seq<Step>, i: nat)
    requires i < |w.strategies| && !w.strategies[i].active
    ensures var w' := Run(w, steps);
            && i < |w'.strategies| && !w'.strategies[i].active
            && w'.strategies[i].totalAllocated == w.strategies[i].totalAllocated
            && forall caller, amount: U64 ::
                 && Allocate(w', caller, i, amount) == Err(StrategyInactive)
                 && Deallocate(w', caller, i, amount) == Err(StrategyInactive)
    decreases |steps|
  {
    if steps == [] {
    } else {
      OnlyItsOwn(w, steps[0]);
      RemovedForever(Apply(w, steps[0]), steps[1..], i);
    }
  }

  predicate RemovedAreEmpty(strategies: seq<Strategy>) {
    forall i :: 0 <= i < |strategies| && !strategies[i].active ==> strategies[i].positionValue == 0
  }

  /** The step gives value to a removed strategy, which a yield report can. */
  predicate RevivesValue(w: World, step: Step) {
    && step.ReportStep? && Execute(w, step).Ok? && step.newValue > 0
    && !w.strategies[step.index].active
  }

  predicate NothingRevived(w: World, steps: seq<Step>)
    decreases |steps|
  {
    steps == [] || (!RevivesValue(w, steps[0]) && NothingRevived(Apply(w, steps[0]), steps[1..]))
  }

  lemma StepKeepsRemovedEmpty(w: World, step: Step)
    requires RemovedAreEmpty(w.strategies)
    ensures RemovedAreEmpty(Apply(w, step).strategies) <==> !RevivesValue(w, step)
  {
    if RevivesValue(w, step) {
      assert !Apply(w, step).strategies[step.index].active;
    }
  }

  lemma {:induction false} RunKeepsRemovedEmpty(w: World, steps: seq<Step>)
    requires RemovedAreEmpty(w.strategies) && NothingRevived(w, steps)
    ensures RemovedAreEmpty(Run(w, steps).strategies)
    decreases |steps|
  {
    if steps == [] {
    } else {
      StepKeepsRemovedEmpty(w, steps[0]);
      RunKeepsRemovedEmpty(Apply(w, steps[0]), steps[1..]);
    }
  }

  lemma {:induction false} ActiveIsAll(strategies: seq<Strategy>, i: nat)
    requires i <= |strategies| && RemovedAreEmpty(strategies)
    ensures Sum(CurrentValues(FetchFrom(strategies, i))) == Deployed(strategies[i..])
    decreases |strategies| - i
  {
    if i == |strategies| {
    } else {
      ActiveIsAll(strategies, i + 1);
      assert Positions(strategies[i..])[1..] == Positions(strategies[i + 1..]);
      var infos, rest := FetchFrom(strategies, i), FetchFrom(strategies, i + 1);
      if strategies[i].active {
        assert infos[1..] == rest;
        assert CurrentValues(infos)[1..] == CurrentValues(rest);
      }
    }
  }

  /** On every run from initialization that reports no value for a removed strategy, what the bot adds up is all that
      the vault has: idle plus deployed, and, as long as no withdrawal left a fee, its total. */
  lemma BotSeesEverything(w: World, steps: seq<Step>)
    requires Initial(w) && NothingRevived(w, steps)
    ensures var w' := Run(w, steps);
            && ActiveTotal(w') == w'.vault.idleAssets + Deployed(w'.strategies)
            && (TotalIsExact(w') ==> ActiveTotal(w') == w'.vault.totalAssets)
  {
    var w' := Run(w, steps);
    RunKeepsRemovedEmpty(w, steps);
    ActiveIsAll(w'.strategies, 0);
    assert w'.strategies[0..] == w'.strategies;
  }
}
