/** Conservation: the vault's ledger, its tokens, its shares and what was reported add up on every run. */
module Books {
  import opened Machine
  import opened Token
  import opened VaultModel
  import opened SharePrice

  // ---- Deployed assets ----

  function Positions(strategies: seq<Strategy>): seq<nat> {
    seq(|strategies|, i requires 0 <= i < |strategies| => strategies[i].positionValue as nat)
  }

  /** The position value of all strategies ever added, active or not. */
  function Deployed(strategies: seq<Strategy>): nat {
    Sum(Positions(strategies))
  }

  lemma DeployedUpdate(strategies: seq<Strategy>, i: nat, s: Strategy)
    requires i < |strategies|
    ensures Deployed(strategies[i := s]) == Deployed(strategies) - strategies[i].positionValue + s.positionValue
    ensures strategies[i].positionValue <= Deployed(strategies)
  {
    assert Positions(strategies[i := s]) == Positions(strategies)[i := s.positionValue];
    SumUpdate(Positions(strategies), i, s.positionValue);
    ElementAtMostSum(Positions(strategies), i);
  }

  lemma DeployedAppend(strategies: seq<Strategy>, s: Strategy)
    ensures Deployed(strategies + [s]) == Deployed(strategies) + s.positionValue
  {
    assert Positions(strategies + [s]) == Positions(strategies) + [s.positionValue];
    SumAppend(Positions(strategies), s.positionValue);
  }

  // ---- Totals over a run ----

  /** What has happened so far: reported profits and losses, withdrawal fees kept idle, losses that the
      saturating subtraction swallowed, tokens sent to the vault and shares burned outside the program. */
  datatype Tally = Tally(profits: nat, losses: nat, retained: nat, swallowed: nat, donated: nat, burnedOutside: nat)

  const NOTHING: Tally := Tally(0, 0, 0, 0, 0, 0)

  function Record(t: Tally, w: World, step: Step): Tally {
    if Execute(w, step).Err? then t
    else
      match step
      case WithdrawStep(_, shares) =>
        var assets := RedemptionValue(w.vault, w.now, shares).value;
        t.(retained := t.retained + BpsOf(assets, w.vault.config.withdrawalFeeBps))
      case ReportStep(_, index, newValue) =>
        var oldValue := w.strategies[index].positionValue;
        var loss := SaturatingSub(oldValue, newValue);
        t.(profits := t.profits + SaturatingSub(newValue, oldValue),
           losses := t.losses + loss,
           swallowed := t.swallowed + SaturatingSub(loss, w.vault.totalAssets))
      case AssetTransferStep(_, to, amount) =>
        if to == VAULT_ACCOUNT then t.(donated := t.donated + amount) else t
      case LpBurnStep(_, amount) => t.(burnedOutside := t.burnedOutside + amount)
      case _ => t
  }

  function RecordAll(t: Tally, w: World, steps: seq<Step>): Tally
    decreases |steps|
  {
    if steps == [] then t else RecordAll(Record(t, w, steps[0]), Apply(w, steps[0]), steps[1..])
  }

  /** The books balance: `before` is what the vault's token account held when the vault was created. */
  predicate Balance(w: World, t: Tally, before: nat) {
    && w.asset.Has(VAULT_ACCOUNT)
    && w.vault.idleAssets + Deployed(w.strategies) + t.swallowed == w.vault.totalAssets + t.retained
    && t.swallowed <= t.retained
    && w.vault.idleAssets + Deployed(w.strategies) + t.losses + before + t.donated
       == w.asset.balances[VAULT_ACCOUNT] + t.profits
    && w.vault.lockedProfit == t.profits
    && w.vault.lpSupply == w.lp.supply + t.burnedOutside
  }

  predicate LedgersBalanced(w: World) {
    w.asset.Balanced() && w.lp.Balanced()
  }

  lemma StrategyStepKeepsBalance(w: World, t: Tally, before: nat, step: Step, i: nat)
    requires Balance(w, t, before) && Execute(w, step).Ok?
    requires match step
             case AllocateStep(_, index, _) => i == index
             case DeallocateStep(_, index, _) => i == index
             case RemoveStrategyStep(_, index) => i == index
             case _ => false
    ensures Balance(Apply(w, step), Record(t, w, step), before)
  {
    DeployedUpdate(w.strategies, i, Apply(w, step).strategies[i]);
  }

  lemma ReportKeepsBalance(w: World, t: Tally, before: nat, caller: nat, i: nat, newValue: U64)
    requires Balance(w, t, before) && ReportYield(w, caller, i, newValue).Ok?
    ensures Balance(ReportYield(w, caller, i, newValue).value, Record(t, w, ReportStep(caller, i, newValue)), before)
  {
    DeployedUpdate(w.strategies, i, ReportYield(w, caller, i, newValue).value.strategies[i]);
  }

  lemma UserStepKeepsBalance(w: World, t: Tally, before: nat, step: Step)
    requires Balance(w, t, before) && Execute(w, step).Ok?
    requires step.DepositStep? || step.WithdrawStep?
    ensures Balance(Apply(w, step), Record(t, w, step), before)
  {
  }

  lemma StepKeepsBalance(w: World, t: Tally, before: nat, step: Step)
    requires Balance(w, t, before)
    ensures Balance(Apply(w, step), Record(t, w, step), before)
  {
    if Execute(w, step).Ok? {
      match step
      case DepositStep(_, _) => UserStepKeepsBalance(w, t, before, step);
      case WithdrawStep(_, _) => UserStepKeepsBalance(w, t, before, step);
      case AddStrategyStep(_) => DeployedAppend(w.strategies, Apply(w, step).strategies[|w.strategies|]);
      case AllocateStep(_, i, _) => StrategyStepKeepsBalance(w, t, before, step, i);
      case DeallocateStep(_, i, _) => StrategyStepKeepsBalance(w, t, before, step, i);
      case RemoveStrategyStep(_, i) => StrategyStepKeepsBalance(w, t, before, step, i);
      case ReportStep(caller, i, newValue) => ReportKeepsBalance(w, t, before, caller, i, newValue);
      case _ =>
    }
  }

  lemma StepKeepsLedgers(w: World, step: Step)
    requires LedgersBalanced(w)
    ensures LedgersBalanced(Apply(w, step))
  {
    if Execute(w, step).Ok? {
      var w' := Apply(w, step);
      match step
      case DepositStep(user, amount) =>
        w.asset.TransferBalanced(user, VAULT_ACCOUNT, amount);
        w.lp.MintBalanced(user, w'.lp.supply - w.lp.supply);
      case WithdrawStep(user, shares) =>
        w.asset.TransferBalanced(VAULT_ACCOUNT, user, w.vault.idleAssets - w'.vault.idleAssets);
        w.lp.BurnBalanced(user, shares);
      case HarvestStep(_) =>
        if w' != w {
          w.lp.MintBalanced(w.vault.admin, w'.lp.supply - w.lp.supply);
        }
      case AssetTransferStep(from, to, amount) => w.asset.TransferBalanced(from, to, amount);
      case LpTransferStep(from, to, amount) => w.lp.TransferBalanced(from, to, amount);
      case LpBurnStep(from, amount) => w.lp.BurnBalanced(from, amount);
      case _ =>
    }
  }

  lemma {:induction false} RunKeepsBalance(w: World, t: Tally, before: nat, steps: seq<Step>)
    requires Balance(w, t, before) && LedgersBalanced(w)
    ensures Balance(Run(w, steps), RecordAll(t, w, steps), before) && LedgersBalanced(Run(w, steps))
    decreases |steps|
  {
    if steps == [] {
    } else {
      StepKeepsBalance(w, t, before, steps[0]);
      StepKeepsLedgers(w, steps[0]);
      RunKeepsBalance(Apply(w, steps[0]), Record(t, w, steps[0]), before, steps[1..]);
    }
  }

  /** On every run from initialization: idle plus deployed assets exceed `total_assets` by exactly the withdrawal
      fees kept minus the losses swallowed, a gap that is never negative; they exceed the vault's tokens by exactly
      the net reported yield, less what was in the account or sent there; the locked profit is the sum of all
      reported profits; and the share supply is the sum of all LP balances plus shares burned outside the program. */
  lemma LedgerConservation(w: World, steps: seq<Step>)
    requires Initial(w)
    ensures var w' := Run(w, steps);
            var t := RecordAll(NOTHING, w, steps);
            && w'.asset.Has(VAULT_ACCOUNT)
            && w'.vault.idleAssets + Deployed(w'.strategies) - w'.vault.totalAssets == t.retained - t.swallowed
            && t.retained - t.swallowed >= 0
            && w'.vault.idleAssets + Deployed(w'.strategies) - w'.asset.balances[VAULT_ACCOUNT]
               == t.profits - t.losses - w.asset.balances[VAULT_ACCOUNT] - t.donated
            && w'.vault.lockedProfit == t.profits
            && w'.vault.lpSupply == Sum(w'.lp.balances) + t.burnedOutside
  {
    RunKeepsBalance(w, NOTHING, w.asset.balances[VAULT_ACCOUNT], steps);
  }

  // ---- Without withdrawal fees ----

  predicate FreeWithdrawals(w: World, steps: seq<Step>) {
    && w.vault.config.withdrawalFeeBps == 0
    && forall step <- steps :: step.ConfigStep? ==> step.config.withdrawalFeeBps == 0
  }

  lemma {:induction false} NothingRetained(w: World, t: Tally, steps: seq<Step>)
    requires FreeWithdrawals(w, steps)
    ensures RecordAll(t, w, steps).retained == t.retained
    decreases |steps|
  {
    if steps == [] {
    } else {
      assert steps[0] in steps;
      assert MulDiv(0, 0, BPS_DENOMINATOR) == 0;
      NothingRetained(Apply(w, steps[0]), Record(t, w, steps[0]), steps[1..]);
    }
  }

  /** With zero withdrawal fees throughout, `total_assets` is exactly idle plus deployed and no loss is swallowed. */
  lemma ExactLedgerWithoutFees(w: World, steps: seq<Step>)
    requires Initial(w) && FreeWithdrawals(w, steps)
    ensures var w' := Run(w, steps);
            && w'.vault.totalAssets == w'.vault.idleAssets + Deployed(w'.strategies)
            && RecordAll(NOTHING, w, steps).swallowed == 0
  {
    LedgerConservation(w, steps);
    NothingRetained(w, NOTHING, steps);
  }

  // ---- When the total is exact ----

  predicate TotalIsExact(w: World) {
    w.vault.totalAssets == w.vault.idleAssets + Deployed(w.strategies)
  }

  predicate ExactThroughout(w: World, steps: seq<Step>)
    decreases |steps|
  {
    TotalIsExact(w) && (steps == [] || ExactThroughout(Apply(w, steps[0]), steps[1..]))
  }

  /** The step is a withdrawal that goes through and leaves a fee in the vault. */
  predicate KeepsFee(w: World, step: Step) {
    && step.WithdrawStep? && Execute(w, step).Ok?
    && BpsOf(RedemptionValue(w.vault, w.now, step.shares).value, w.vault.config.withdrawalFeeBps) > 0
  }

  predicate NoFeeKept(w: World, steps: seq<Step>)
    decreases |steps|
  {
    steps == [] || (!KeepsFee(w, steps[0]) && NoFeeKept(Apply(w, steps[0]), steps[1..]))
  }

  lemma StepKeepsTotalExact(w: World, t: Tally, before: nat, step: Step)
    requires Balance(w, t, before) && TotalIsExact(w)
    ensures TotalIsExact(Apply(w, step)) <==> !KeepsFee(w, step)
  {
    StepKeepsBalance(w, t, before, step);
    if step.ReportStep? && Execute(w, step).Ok? {
      DeployedUpdate(w.strategies, step.index, w.strategies[step.index]);
    }
  }

  lemma {:induction false} ExactRun(w: World, t: Tally, before: nat, steps: seq<Step>)
    requires Balance(w, t, before) && TotalIsExact(w)
    ensures ExactThroughout(w, steps) <==> NoFeeKept(w, steps)
    decreases |steps|
  {
    if steps == [] {
    } else {
      var w1 := Apply(w, steps[0]);
      StepKeepsBalance(w, t, before, steps[0]);
      StepKeepsTotalExact(w, t, before, steps[0]);
      if TotalIsExact(w1) {
        ExactRun(w1, Record(t, w, steps[0]), before, steps[1..]);
      }
    }
  }

  /** On a run from initialization `total_assets` is idle plus deployed all the way exactly when no withdrawal that
      went through left a fee behind. */
  lemma TotalStaysExact(w: World, steps: seq<Step>)
    requires Initial(w)
    ensures ExactThroughout(w, steps) <==> NoFeeKept(w, steps)
  {
    ExactRun(w, NOTHING, w.asset.balances[VAULT_ACCOUNT], steps);
  }

  // ---- Token backing ----

  /** On every run, the idle guard alone backs every payout with tokens exactly when the net reported yield is at most
      what is still deployed plus what the token account got from elsewhere. */
  lemma IdleIsBacked(w: World, steps: seq<Step>)
    requires Initial(w)
    ensures var w' := Run(w, steps);
            var t := RecordAll(NOTHING, w, steps);
            && w'.asset.Has(VAULT_ACCOUNT)
            && (w'.vault.idleAssets <= w'.asset.balances[VAULT_ACCOUNT]
                <==> t.profits - t.losses <= Deployed(w'.strategies) + w.asset.balances[VAULT_ACCOUNT] + t.donated)
  {
    LedgerConservation(w, steps);
  }

  /** A withdrawal of `shares` may be attempted at once and pays, after a fee within its value, an idle amount. */
  predicate Payable(v: Vault, now: Timestamp, shares: U64) {
    && v.config.withdrawalWaitPeriod == 0
    && RedemptionValue(v, now, shares).Ok?
    && BpsOf(RedemptionValue(v, now, shares).value, v.config.withdrawalFeeBps) <= RedemptionValue(v, now, shares).value
    && Payout(v, now, shares) <= v.idleAssets
  }

  /** The value of `shares` less the withdrawal fee. */
  function Payout(v: Vault, now: Timestamp, shares: U64): U64
    requires RedemptionValue(v, now, shares).Ok?
  {
    var value := RedemptionValue(v, now, shares).value;
    SaturatingSub(value, BpsOf(value, v.config.withdrawalFeeBps))
  }

  /** `user` holds at least `shares` shares and has an account to be paid into. */
  predicate Holds(w: World, user: nat, shares: U64) {
    user != VAULT_ACCOUNT && w.asset.Has(user) && w.lp.Has(user) && 0 < shares <= w.lp.balances[user]
  }

  lemma WithdrawalSucceeds(w: World, t: Tally, before: nat, user: nat, shares: U64)
    requires Timely(w) && Balance(w, t, before) && LedgersBalanced(w) && Holds(w, user, shares)
    ensures RedemptionValue(w.vault, w.now, shares).Ok?
    ensures InstantWithdraw(w, user, shares).Ok?
            <==> Payable(w.vault, w.now, shares)
                 && Payout(w.vault, w.now, shares) <= w.asset.balances[VAULT_ACCOUNT]
  {
    var effective, supply := EffectiveAssets(w.vault, w.now), w.vault.lpSupply;
    ElementAtMostSum(w.lp.balances, user);
    MulLe(shares, supply, effective);
    MulDivAtMost(shares, effective, supply, effective);
    EffectiveIsUnlocked(w.vault, w.now);
    w.asset.Enough(VAULT_ACCOUNT, user, Payout(w.vault, w.now, shares));
    w.lp.Enough(user, user, shares);
  }

  /** On every run a holder's withdrawal goes through exactly when the program's guards pass and the vault's token
      account holds the payout: no other counter can fail it. */
  lemma WithdrawalsExactly(w: World, steps: seq<Step>, user: nat, shares: U64)
    requires Initial(w) && Holds(Run(w, steps), user, shares)
    ensures var w' := Run(w, steps);
            && w'.asset.Has(VAULT_ACCOUNT)
            && RedemptionValue(w'.vault, w'.now, shares).Ok?
            && (InstantWithdraw(w', user, shares).Ok?
                <==> Payable(w'.vault, w'.now, shares)
                     && Payout(w'.vault, w'.now, shares) <= w'.asset.balances[VAULT_ACCOUNT])
  {
    RunKeepsBalance(w, NOTHING, w.asset.balances[VAULT_ACCOUNT], steps);
    RunKeepsTime(w, steps);
    WithdrawalSucceeds(Run(w, steps), RecordAll(NOTHING, w, steps), w.asset.balances[VAULT_ACCOUNT], user, shares);
  }

  /** While the net reported yield is at most what is deployed plus what the token account got from elsewhere, the
      program's own guards decide: a withdrawal that passes them never lacks tokens. */
  lemma WithdrawalsAreBacked(w: World, steps: seq<Step>, user: nat, shares: U64)
    requires Initial(w) && Holds(Run(w, steps), user, shares)
    requires var t := RecordAll(NOTHING, w, steps);
             t.profits - t.losses <= Deployed(Run(w, steps).strategies) + w.asset.balances[VAULT_ACCOUNT] + t.donated
    ensures var w' := Run(w, steps);
            InstantWithdraw(w', user, shares).Ok? <==> Payable(w'.vault, w'.now, shares)
  {
    IdleIsBacked(w, steps);
    WithdrawalsExactly(w, steps, user, shares);
  }

  // ---- When a deposit works ----

  /** The vault takes a deposit of `amount`: it is not paused and has room under its cap, the shares it buys are more
      than none and cover their fee, and no counter overflows. */
  predicate Accepts(v: Vault, now: Timestamp, amount: U64) {
    && v.active && 0 < amount && v.totalAssets + amount < U64_LIMIT && v.totalAssets + amount <= v.config.maxCap
    && var effective := EffectiveAssets(v, now);
       && (v.lpSupply == 0 || effective > 0)
       && var shares := if v.lpSupply == 0 then amount else amount * v.lpSupply / effective % U64_LIMIT;
          var fee := shares * v.config.depositFeeBps / 10_000 % U64_LIMIT;
          && 0 < shares && fee <= shares
          && v.idleAssets + amount < U64_LIMIT
          && v.lpSupply + (shares - fee) < U64_LIMIT
          && v.accumulatedFees + fee < U64_LIMIT
  }

  /** On every run a deposit goes through exactly when the vault takes it and the user has the amount: the share mint
      and the vault's token account never stand in the way. */
  lemma DepositsExactly(w: World, steps: seq<Step>, user: nat, amount: U64)
    requires Initial(w) && user != VAULT_ACCOUNT
    requires Run(w, steps).asset.Has(user) && Run(w, steps).lp.Has(user)
    ensures var w' := Run(w, steps);
            Deposit(w', user, amount).Ok? <==> Accepts(w'.vault, w'.now, amount) && amount <= w'.asset.balances[user]
  {
    RunKeepsBalance(w, NOTHING, w.asset.balances[VAULT_ACCOUNT], steps);
    DepositSucceeds(Run(w, steps), RecordAll(NOTHING, w, steps), w.asset.balances[VAULT_ACCOUNT], user, amount);
  }

  lemma DepositSucceeds(w: World, t: Tally, before: nat, user: nat, amount: U64)
    requires Balance(w, t, before) && LedgersBalanced(w)
    requires user != VAULT_ACCOUNT && w.asset.Has(user) && w.lp.Has(user)
    ensures Deposit(w, user, amount).Ok? <==> Accepts(w.vault, w.now, amount) && amount <= w.asset.balances[user]
  {
    w.asset.Enough(user, VAULT_ACCOUNT, amount);
    var quote := QuoteDeposit(w.vault, w.now, amount);
    if quote.Ok? {
      w.lp.Enough(user, user, quote.value.minted);
    }
  }

  lemma {:induction false} RunKeepsTime(w: World, steps: seq<Step>)
    requires Timely(w)
    ensures Timely(Run(w, steps))
    decreases |steps|
  {
    if steps == [] {
    } else {
      StepKeepsTime(w, steps[0]);
      RunKeepsTime(Apply(w, steps[0]), steps[1..]);
    }
  }
}
