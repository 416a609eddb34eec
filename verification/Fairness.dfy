/** What a coalition of accounts can do to the other holders by trading with the vault. */
module Fairness {
  import opened Machine
  import opened Holdings
  import opened VaultModel
  import opened SharePrice
  import opened ProfitLock

  // ---- A coalition against all other holders ----

  /** The shares that nobody in `crew` holds. */
  function OtherShares(w: World, crew: set<nat>): int {
    w.vault.lpSupply - Held(w.lp, crew)
  }

  /** Wallets plus pro-rata claims of `crew`, as a numerator over the share supply. */
  function Wealth(w: World, crew: set<nat>): nat {
    Held(w.asset, crew) * w.vault.lpSupply + EffectiveAssets(w.vault, w.now) * Held(w.lp, crew)
  }

  /** `crew` is no richer in `w'` than in `w`, counting its wallets and its claims on the vault. */
  predicate NoRicher(w': World, w: World, crew: set<nat>) {
    RatioAtLeast(Wealth(w, crew), w.vault.lpSupply, Wealth(w', crew), w'.vault.lpSupply)
  }

  /** What a coalition and the vault's operators can do at one clock reading: any trade, transfer or burn signed by a
      member, and anything the manager and the admin do short of changing the configuration, as long as profits unlock
      over time and fee shares go to an outsider. */
  predicate Play(v: Vault, crew: set<nat>, step: Step) {
    match step
    case DepositStep(user, _) => user in crew
    case WithdrawStep(user, _) => user in crew
    case AssetTransferStep(from, _, _) => from in crew
    case LpTransferStep(from, _, _) => from in crew
    case LpBurnStep(from, _) => from in crew
    case ReportStep(_, _, _) => v.config.lockedProfitDegradation > 0
    case HarvestStep(_) => v.admin !in crew
    case ConfigStep(_, _) => false
    case TickStep(_) => false
    case _ => true
  }

  lemma TradeMovesValue(w: World, crew: set<nat>, step: Step)
    requires Timely(w) && w.vault.lpSupply > 0 && VAULT_ACCOUNT !in crew
    requires (step.DepositStep? || step.WithdrawStep?) && step.user in crew
    ensures var w' := Apply(w, step);
            && OtherShares(w', crew) == OtherShares(w, crew)
            && Held(w'.asset, crew) + EffectiveAssets(w'.vault, w.now)
               <= Held(w.asset, crew) + EffectiveAssets(w.vault, w.now)
  {
    if Execute(w, step).Ok? {
      var w' := Apply(w, step);
      match step
      case DepositStep(user, amount) =>
        DepositEffect(w, user, amount);
        TransferHeld(w.asset, crew, user, VAULT_ACCOUNT, amount);
        MintHeld(w.lp, crew, user, w'.vault.lpSupply - w.vault.lpSupply);
      case WithdrawStep(user, shares) =>
        WithdrawEffect(w, user, shares);
        TransferHeld(w.asset, crew, VAULT_ACCOUNT, user, w.vault.idleAssets - w'.vault.idleAssets);
        BurnHeld(w.lp, crew, user, shares);
    }
  }

  lemma TradeGainsNothing(w: World, crew: set<nat>, step: Step)
    requires Timely(w) && OtherShares(w, crew) > 0 && VAULT_ACCOUNT !in crew
    requires (step.DepositStep? || step.WithdrawStep?) && step.user in crew
    ensures NoRicher(Apply(w, step), w, crew)
  {
    var w', others := Apply(w, step), OtherShares(w, crew);
    TradeMovesValue(w, crew, step);
    StepKeepsPrice(w, step);
    RatioScales(others, EffectiveAssets(w.vault, w.now), w.vault.lpSupply,
                others, EffectiveAssets(w'.vault, w'.now), w'.vault.lpSupply);
    MoreForOthers(Held(w.asset, crew), EffectiveAssets(w.vault, w.now), Held(w.lp, crew), others,
                  Held(w'.asset, crew), EffectiveAssets(w'.vault, w'.now), Held(w'.lp, crew), others);
  }

  /** What every step of play other than a trade does to the coalition: it can only lose tokens, shares or value. */
  lemma OthersStepTakes(w: World, crew: set<nat>, step: Step)
    requires Timely(w) && Play(w.vault, crew, step) && !step.DepositStep? && !step.WithdrawStep?
    ensures var w' := Apply(w, step);
            && Held(w'.asset, crew) <= Held(w.asset, crew)
            && Held(w'.lp, crew) <= Held(w.lp, crew)
            && w.vault.lpSupply <= w'.vault.lpSupply
            && EffectiveAssets(w'.vault, w.now) <= EffectiveAssets(w.vault, w.now)
  {
    if Execute(w, step).Ok? {
      var w' := Apply(w, step);
      match step
      case AssetTransferStep(from, to, amount) => TransferHeld(w.asset, crew, from, to, amount);
      case LpTransferStep(from, to, amount) => TransferHeld(w.lp, crew, from, to, amount);
      case LpBurnStep(from, amount) => BurnHeld(w.lp, crew, from, amount);
      case ReportStep(caller, index, newValue) => ReportDoesNotRaiseEffective(w, caller, index, newValue);
      case HarvestStep(_) =>
        if w' != w {
          MintHeld(w.lp, crew, w.vault.admin, w'.vault.lpSupply - w.vault.lpSupply);
        }
      case _ =>
    }
  }

  lemma LessOfEverything(wallet: nat, assets: nat, own: nat, shares: nat,
                         wallet': nat, assets': nat, own': nat, shares': nat)
    requires wallet' <= wallet && assets' <= assets && own' <= own && shares <= shares'
    ensures RatioAtLeast(wallet * shares + assets * own, shares, wallet' * shares' + assets' * own', shares')
  {
    MulLe(wallet', wallet, shares');
    MulLe(wallet' * shares', wallet * shares', shares);
    MulLe(assets', assets, own');
    MulLe(own', own, assets);
    MulLe(assets' * own', assets * own, shares);
    MulLe(shares, shares', assets * own);
    assert (wallet * shares + assets * own) * shares' == wallet * shares' * shares + assets * own * shares';
    assert (wallet' * shares' + assets' * own') * shares == wallet' * shares' * shares + assets' * own' * shares;
  }

  lemma PlayGainsNothing(w: World, crew: set<nat>, step: Step)
    requires Timely(w) && OtherShares(w, crew) > 0 && VAULT_ACCOUNT !in crew && Play(w.vault, crew, step)
    ensures var w' := Apply(w, step);
            && Timely(w')
            && w'.vault.config == w.vault.config && w'.vault.admin == w.vault.admin
            && OtherShares(w', crew) >= OtherShares(w, crew)
            && NoRicher(w', w, crew)
  {
    var w' := Apply(w, step);
    if step.DepositStep? || step.WithdrawStep? {
      TradeMovesValue(w, crew, step);
      TradeGainsNothing(w, crew, step);
    } else {
      OthersStepTakes(w, crew, step);
      LessOfEverything(Held(w.asset, crew), EffectiveAssets(w.vault, w.now), Held(w.lp, crew), w.vault.lpSupply,
                       Held(w'.asset, crew), EffectiveAssets(w'.vault, w.now), Held(w'.lp, crew), w'.vault.lpSupply);
    }
  }

  lemma PlayGoesOn(v: Vault, v': Vault, crew: set<nat>, steps: seq<Step>)
    requires v'.config == v.config && v'.admin == v.admin && steps != []
    requires forall step <- steps :: Play(v, crew, step)
    ensures forall step <- steps[1..] :: Play(v', crew, step)
  {
    forall step <- steps[1..]
      ensures Play(v', crew, step)
    {
      assert step in steps;
    }
  }

  /** Whatever the members of a coalition trade with the vault, pass among themselves or give away, and whatever yield
      is reported and fees are taken meanwhile, all at one clock reading, their wallets plus claims never rise. */
  lemma {:induction false} CoalitionNeverGains(w: World, crew: set<nat>, steps: seq<Step>)
    requires Timely(w) && OtherShares(w, crew) > 0 && VAULT_ACCOUNT !in crew
    requires forall step <- steps :: Play(w.vault, crew, step)
    ensures NoRicher(Run(w, steps), w, crew)
    ensures OtherShares(Run(w, steps), crew) >= OtherShares(w, crew)
    decreases |steps|
  {
    if steps == [] {
    } else {
      assert steps[0] in steps;
      var w1 := Apply(w, steps[0]);
      PlayGainsNothing(w, crew, steps[0]);
      PlayGoesOn(w.vault, w1.vault, crew, steps);
      CoalitionNeverGains(w1, crew, steps[1..]);
      var w2 := Run(w1, steps[1..]);
      RatioTransitive(Wealth(w2, crew), w2.vault.lpSupply, Wealth(w1, crew), w1.vault.lpSupply,
                      Wealth(w, crew), w.vault.lpSupply);
    }
  }

  /** Accounts that together enter without shares and leave without shares around any yield reports, all at one clock
      reading, end with at most the tokens they started with, if profits unlock over time. */
  lemma AntiSandwich(w: World, crew: set<nat>, steps: seq<Step>)
    requires Timely(w) && w.vault.lpSupply > 0 && VAULT_ACCOUNT !in crew
    requires forall step <- steps :: Play(w.vault, crew, step)
    requires Held(w.lp, crew) == 0 == Held(Run(w, steps).lp, crew)
    ensures Held(Run(w, steps).asset, crew) <= Held(w.asset, crew)
  {
    CoalitionNeverGains(w, crew, steps);
    WalletsCompare(Held(w.asset, crew), w.vault.lpSupply,
                   Held(Run(w, steps).asset, crew), Run(w, steps).vault.lpSupply);
  }

  /** The claim of everyone outside `crew` on the vault, as a numerator over the share supply. */
  function OthersClaim(w: World, crew: set<nat>): nat
    requires OtherShares(w, crew) >= 0
  {
    var others: nat := OtherShares(w, crew);
    others * EffectiveAssets(w.vault, w.now)
  }

  /** That claim is in `w'` at least what it is in `w`. */
  predicate OthersKeepClaim(w': World, w: World, crew: set<nat>)
    requires OtherShares(w, crew) >= 0 && OtherShares(w', crew) >= 0
  {
    RatioAtLeast(OthersClaim(w', crew), w'.vault.lpSupply, OthersClaim(w, crew), w.vault.lpSupply)
  }

  lemma KeptClaimsChain(w: World, w1: World, w2: World, crew: set<nat>)
    requires 0 < OtherShares(w, crew) <= OtherShares(w1, crew) <= OtherShares(w2, crew)
    requires OthersKeepClaim(w1, w, crew) && OthersKeepClaim(w2, w1, crew)
    ensures OthersKeepClaim(w2, w, crew)
  {
    RatioTransitive(OthersClaim(w, crew), w.vault.lpSupply, OthersClaim(w1, crew), w1.vault.lpSupply,
                    OthersClaim(w2, crew), w2.vault.lpSupply);
  }

  lemma StepKeepsOthersClaim(w: World, crew: set<nat>, step: Step)
    requires Timely(w) && OtherShares(w, crew) > 0 && VAULT_ACCOUNT !in crew
    requires PriceNeutral(step) && Play(w.vault, crew, step)
    ensures OtherShares(Apply(w, step), crew) >= OtherShares(w, crew)
    ensures OthersKeepClaim(Apply(w, step), w, crew)
  {
    var w' := Apply(w, step);
    PlayGainsNothing(w, crew, step);
    StepKeepsPrice(w, step);
    RatioScales(OtherShares(w, crew), EffectiveAssets(w.vault, w.now), w.vault.lpSupply,
                OtherShares(w', crew), EffectiveAssets(w'.vault, w'.now), w'.vault.lpSupply);
  }

  /** As long as nothing is reported and no fee is harvested, the pro-rata claim of everyone else never falls. */
  lemma {:induction false} OthersNeverLose(w: World, crew: set<nat>, steps: seq<Step>)
    requires Timely(w) && OtherShares(w, crew) > 0 && VAULT_ACCOUNT !in crew
    requires forall step <- steps :: PriceNeutral(step) && Play(w.vault, crew, step)
    ensures OtherShares(Run(w, steps), crew) >= OtherShares(w, crew)
    ensures OthersKeepClaim(Run(w, steps), w, crew)
    decreases |steps|
  {
    if steps == [] {
    } else {
      assert steps[0] in steps;
      var w1 := Apply(w, steps[0]);
      PlayGainsNothing(w, crew, steps[0]);
      StepKeepsOthersClaim(w, crew, steps[0]);
      PlayGoesOn(w.vault, w1.vault, crew, steps);
      OthersNeverLose(w1, crew, steps[1..]);
      KeptClaimsChain(w, w1, Run(w1, steps[1..]), crew);
    }
  }

  // ---- Deposit, then redeem ----

  /** What redeeming the shares of a deposit just made is worth. */
  lemma RedemptionAfterDeposit(w: World, user: nat, amount: U64)
    requires Timely(w) && w.vault.lpSupply > 0 && Deposit(w, user, amount).Ok?
    ensures var w1 := Deposit(w, user, amount).value;
            var minted := w1.vault.lpSupply - w.vault.lpSupply;
            var assets := EffectiveAssets(w.vault, w.now);
            var value := MulDiv(minted, assets + amount, w1.vault.lpSupply);
            && minted >= 0 && assets > 0
            && RedemptionValue(w1.vault, w.now, minted) == Ok(value)
            && value <= amount <= w1.vault.idleAssets
            && value <= w1.vault.totalAssets
            && (minted == MulDiv(amount, w.vault.lpSupply, assets) ==>
                  (amount - value - 1) * w1.vault.lpSupply < assets)
  {
    var w1 := Deposit(w, user, amount).value;
    var minted: U64 := w1.vault.lpSupply - w.vault.lpSupply;
    DepositEffect(w, user, amount);
    RoundTripBounds(EffectiveAssets(w.vault, w.now), w.vault.lpSupply, amount, minted);
  }

  /** A depositor can redeem at once exactly when some shares were minted, the vault has no waiting period and the
      withdrawal fee does not exceed the value redeemed; there is always enough idle money and enough tokens. */
  lemma RoundTripSucceeds(w: World, user: nat, amount: U64)
    requires Timely(w) && w.vault.lpSupply > 0 && w.lp.Balanced() && w.asset.Balanced()
    requires Deposit(w, user, amount).Ok?
    ensures var w1 := Deposit(w, user, amount).value;
            var minted := w1.vault.lpSupply - w.vault.lpSupply;
            InstantWithdraw(w1, user, minted).Ok? <==>
              && minted > 0
              && w.vault.config.withdrawalWaitPeriod == 0
              && BpsOf(RedemptionValue(w1.vault, w.now, minted).value, w.vault.config.withdrawalFeeBps)
                 <= RedemptionValue(w1.vault, w.now, minted).value
  {
    var w1 := Deposit(w, user, amount).value;
    var minted: U64 := w1.vault.lpSupply - w.vault.lpSupply;
    RedemptionAfterDeposit(w, user, amount);
    w.lp.MintBalanced(user, minted);
    w.asset.TransferBalanced(user, VAULT_ACCOUNT, amount);
    var value := RedemptionValue(w1.vault, w.now, minted).value;
    w1.lp.Enough(user, user, minted);
    w1.asset.Enough(VAULT_ACCOUNT, user, SaturatingSub(value, BpsOf(value, w.vault.config.withdrawalFeeBps)));
  }

  /** A depositor who at once redeems the shares just minted never ends with more than before. Without fees, and when
      the share count was not truncated, the loss is below one share price plus one unit. */
  lemma RoundTripIsTight(w: World, user: nat, amount: U64)
    requires Timely(w) && w.vault.lpSupply > 0
    requires Deposit(w, user, amount).Ok?
    requires var w1 := Deposit(w, user, amount).value;
             InstantWithdraw(w1, user, w1.vault.lpSupply - w.vault.lpSupply).Ok?
    ensures var w1 := Deposit(w, user, amount).value;
            var w2 := InstantWithdraw(w1, user, w1.vault.lpSupply - w.vault.lpSupply).value;
            var loss := w.asset.BalanceOf(user) - w2.asset.BalanceOf(user);
            && 0 <= loss
            && (w.vault.config.depositFeeBps == 0 == w.vault.config.withdrawalFeeBps
                && MulDiv(amount, w.vault.lpSupply, EffectiveAssets(w.vault, w.now)) < U64_LIMIT ==>
                (loss - 1) * w1.vault.lpSupply < EffectiveAssets(w.vault, w.now))
  {
    var w1 := Deposit(w, user, amount).value;
    var minted: U64 := w1.vault.lpSupply - w.vault.lpSupply;
    RedemptionAfterDeposit(w, user, amount);
    ZeroBps(DepositShares(w.vault, w.now, amount).value);
    ZeroBps(RedemptionValue(w1.vault, w.now, minted).value);
  }

  lemma ZeroBps(amount: U64)
    ensures BpsOf(amount, 0) == 0
  {
  }
}
