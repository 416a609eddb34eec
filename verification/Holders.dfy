/** What a holder who stays in the vault can count on, and that all claims together are covered. */
module Holders {
  import opened Machine
  import opened Token
  import opened VaultModel
  import opened SharePrice
  import opened Books

  // ---- A holder who does nothing ----

  /** The LP mint never has more shares than the vault counts. */
  predicate SharesCounted(w: World) {
    w.asset.Balanced() && w.lp.Balanced() && w.lp.supply <= w.vault.lpSupply
  }

  lemma StepKeepsShareCount(w: World, step: Step)
    requires SharesCounted(w)
    ensures SharesCounted(Apply(w, step))
  {
    StepKeepsLedgers(w, step);
  }

  /** Every state reached from initialization has no timestamp in the future, bounded fees, a mark of at least one
      and all its shares counted: the hypotheses of the other theorems hold there. */
  lemma ReachableIsSound(w: World, steps: seq<Step>)
    requires Initial(w)
    ensures var w' := Run(w, steps);
            Timely(w') && FeesBounded(w') && SharesCounted(w')
  {
    RunKeepsTime(w, steps);
    RunKeepsFeeBounds(w, steps);
    RunKeepsBalance(w, NOTHING, w.asset.balances[VAULT_ACCOUNT], steps);
  }

  lemma {:induction false} RunKeepsFeeBounds(w: World, steps: seq<Step>)
    requires FeesBounded(w)
    ensures FeesBounded(Run(w, steps)) && w.vault.highWaterMark <= Run(w, steps).vault.highWaterMark
    decreases |steps|
  {
    if steps == [] {
    } else {
      StepKeepsFeeBounds(w, steps[0]);
      RunKeepsFeeBounds(Apply(w, steps[0]), steps[1..]);
    }
  }

  /** The step is signed by `holder` and takes shares from it. */
  predicate TakesShares(step: Step, holder: nat) {
    match step
    case WithdrawStep(user, _) => user == holder
    case LpTransferStep(from, _, _) => from == holder
    case LpBurnStep(from, _) => from == holder
    case _ => false
  }

  lemma SharesStay(w: World, step: Step, holder: nat)
    requires !TakesShares(step, holder)
    ensures w.lp.BalanceOf(holder) <= Apply(w, step).lp.BalanceOf(holder)
  {
  }

  lemma HoldersShareExists(w: World, holder: nat)
    requires SharesCounted(w) && w.lp.BalanceOf(holder) > 0
    ensures w.vault.lpSupply > 0
  {
    ElementAtMostSum(w.lp.balances, holder);
  }

  lemma {:induction false} HolderRun(w: World, steps: seq<Step>, holder: nat)
    requires Timely(w) && SharesCounted(w) && w.lp.BalanceOf(holder) > 0
    requires forall step <- steps :: PriceNeutral(step) && !TakesShares(step, holder)
    ensures var w' := Run(w, steps);
            && w.lp.BalanceOf(holder) <= w'.lp.BalanceOf(holder)
            && 0 < w'.vault.lpSupply
            && PriceAtLeast(w', w)
    decreases |steps|
  {
    HoldersShareExists(w, holder);
    if steps == [] {
    } else {
      assert steps[0] in steps;
      var w1 := Apply(w, steps[0]);
      StepKeepsTime(w, steps[0]);
      StepKeepsShareCount(w, steps[0]);
      SharesStay(w, steps[0], holder);
      StepKeepsPrice(w, steps[0]);
      HoldersShareExists(w1, holder);
      HolderRun(w1, steps[1..], holder);
      var w2 := Run(w1, steps[1..]);
      RatioTransitive(EffectiveAssets(w.vault, w.now), w.vault.lpSupply,
                      EffectiveAssets(w1.vault, w1.now), w1.vault.lpSupply,
                      EffectiveAssets(w2.vault, w2.now), w2.vault.lpSupply);
    }
  }

  /** A holder who keeps its shares never sees their value fall, whatever everyone else does short of yield reports,
      harvests and configuration changes, and however much time passes. */
  lemma PassiveHolderNeverLoses(w: World, steps: seq<Step>, holder: nat)
    requires Timely(w) && SharesCounted(w) && w.lp.BalanceOf(holder) > 0
    requires forall step <- steps :: PriceNeutral(step) && !TakesShares(step, holder)
    ensures var w' := Run(w, steps);
            RatioAtLeast(w'.lp.BalanceOf(holder) * EffectiveAssets(w'.vault, w'.now), w'.vault.lpSupply,
                         w.lp.BalanceOf(holder) * EffectiveAssets(w.vault, w.now), w.vault.lpSupply)
  {
    HolderRun(w, steps, holder);
    var w' := Run(w, steps);
    RatioScales(w.lp.BalanceOf(holder), EffectiveAssets(w.vault, w.now), w.vault.lpSupply,
                w'.lp.BalanceOf(holder), EffectiveAssets(w'.vault, w'.now), w'.vault.lpSupply);
  }

  // ---- All claims together ----

  /** What each account's shares redeem for. */
  function Claims(balances: seq<nat>, assets: nat, shares: nat): seq<nat>
    requires shares > 0
  {
    seq(|balances|, i requires 0 <= i < |balances| => MulDiv(balances[i], assets, shares))
  }

  lemma {:induction false} ClaimsAdd(balances: seq<nat>, assets: nat, shares: nat)
    requires shares > 0
    ensures Sum(Claims(balances, assets, shares)) * shares <= Sum(balances) * assets
  {
    if balances == [] {
    } else {
      var head, rest := MulDiv(balances[0], assets, shares), Claims(balances[1..], assets, shares);
      assert Claims(balances, assets, shares)[1..] == rest;
      ClaimsAdd(balances[1..], assets, shares);
      MulDivBounds(balances[0], assets, shares);
      assert (head + Sum(rest)) * shares == head * shares + Sum(rest) * shares;
      assert (balances[0] + Sum(balances[1..])) * assets == balances[0] * assets + Sum(balances[1..]) * assets;
    }
  }

  /** On every run, what all holders could redeem at once never exceeds the idle and deployed assets together. */
  lemma AllClaimsCovered(w: World, steps: seq<Step>)
    requires Initial(w) && Run(w, steps).vault.lpSupply > 0
    ensures var w' := Run(w, steps);
            Sum(Claims(w'.lp.balances, EffectiveAssets(w'.vault, w'.now), w'.vault.lpSupply))
            <= w'.vault.idleAssets + Deployed(w'.strategies)
  {
    var w' := Run(w, steps);
    var effective, shares := EffectiveAssets(w'.vault, w'.now), w'.vault.lpSupply;
    LedgerConservation(w, steps);
    RunKeepsTime(w, steps);
    EffectiveIsUnlocked(w'.vault, w'.now);
    ClaimsAdd(w'.lp.balances, effective, shares);
    MulLe(Sum(w'.lp.balances), shares, effective);
    MulCancel(Sum(Claims(w'.lp.balances, effective, shares)), effective, shares);
  }
}
