/** The share price: effective assets divided by the share supply. */
module SharePrice {
  import opened Machine
  import opened VaultModel

  // ---- How effective assets move ----

  /** The locked profit that effective assets leave out. */
  function Locked(v: Vault, now: Timestamp): nat
    requires v.lockedProfitTs <= now
  {
    StillLocked(v.lockedProfit, v.config.lockedProfitDegradation, now - v.lockedProfitTs)
  }

  lemma EffectiveIsUnlocked(v: Vault, now: Timestamp)
    requires v.lockedProfitTs <= now
    ensures EffectiveAssets(v, now) == SaturatingSub(v.totalAssets, Locked(v, now))
  {
    if v.lockedProfit == 0 && now - v.lockedProfitTs < v.config.lockedProfitDegradation {
      MulDivAtMost(0, v.config.lockedProfitDegradation - (now - v.lockedProfitTs), v.config.lockedProfitDegradation, 0);
    }
  }

  /** Profit unlocks linearly: what is held back after `elapsed` of `d` seconds is the floor of `lockedProfit` times
      the rest of the period over the period, as far as there are assets to hold back. */
  lemma ProfitUnlocksLinearly(v: Vault, elapsed: nat)
    requires v.lockedProfitTs + elapsed < I64_LIMIT
    ensures var d, effective := v.config.lockedProfitDegradation, EffectiveAssets(v, v.lockedProfitTs + elapsed);
            var held := v.totalAssets - effective;
            && 0 <= held
            && (elapsed >= d ==> held == 0)
            && (elapsed < d ==>
                  && held * d <= v.lockedProfit * (d - elapsed)
                  && (effective > 0 || v.totalAssets >= v.lockedProfit ==>
                        v.lockedProfit * (d - elapsed) < (held + 1) * d))
  {
    var d := v.config.lockedProfitDegradation;
    EffectiveIsUnlocked(v, v.lockedProfitTs + elapsed);
    if elapsed < d {
      LockIsLinear(v.lockedProfit, d, elapsed, v.totalAssets - EffectiveAssets(v, v.lockedProfitTs + elapsed));
    }
  }

  lemma LockIsLinear(locked: nat, d: nat, elapsed: nat, held: nat)
    requires elapsed < d && held <= StillLocked(locked, d, elapsed)
    ensures held * d <= locked * (d - elapsed)
    ensures held == StillLocked(locked, d, elapsed) ==> locked * (d - elapsed) < (held + 1) * d
  {
    MulDivBounds(locked, d - elapsed, d);
    MulLe(held, StillLocked(locked, d, elapsed), d);
    assert (held + 1) * d == held * d + d;
  }

  /** A lock decays: the longer ago it was set, the less of it is left. */
  lemma LockDecays(locked: nat, degradation: nat, earlier: nat, later: nat)
    requires earlier <= later
    ensures StillLocked(locked, degradation, later) <= StillLocked(locked, degradation, earlier)
  {
    if later < degradation {
      MulDivBounds(locked, degradation - later, degradation);
      MulLe(degradation - later, degradation - earlier, locked);
      MulDivAtLeast(locked, degradation - earlier, degradation, StillLocked(locked, degradation, later));
    }
  }

  /** A larger lock keeps at least as much locked. */
  lemma LockMonotone(smaller: nat, larger: nat, degradation: nat, elapsed: nat)
    requires smaller <= larger
    ensures StillLocked(smaller, degradation, elapsed) <= StillLocked(larger, degradation, elapsed)
  {
    if elapsed < degradation {
      MulDivBounds(smaller, degradation - elapsed, degradation);
      MulLe(smaller, larger, degradation - elapsed);
      MulDivAtLeast(larger, degradation - elapsed, degradation, StillLocked(smaller, degradation, elapsed));
    }
  }

  lemma EffectiveGrowsWithTime(v: Vault, now: Timestamp, later: Timestamp)
    requires v.lockedProfitTs <= now <= later
    ensures EffectiveAssets(v, now) <= EffectiveAssets(v, later)
  {
    EffectiveIsUnlocked(v, now);
    EffectiveIsUnlocked(v, later);
    LockDecays(v.lockedProfit, v.config.lockedProfitDegradation, now - v.lockedProfitTs, later - v.lockedProfitTs);
  }

  /** A deposit into a vault with shares moves exactly its amount from the user into effective assets, and mints the
      user at most the proportional shares, less the fee. */
  lemma DepositEffect(w: World, user: nat, amount: U64)
    requires Timely(w) && w.vault.lpSupply > 0 && Deposit(w, user, amount).Ok?
    ensures var w' := Deposit(w, user, amount).value;
            var minted := w'.vault.lpSupply - w.vault.lpSupply;
            var shares := Truncate(MulDiv(amount, w.vault.lpSupply, EffectiveAssets(w.vault, w.now)));
            && 0 < EffectiveAssets(w.vault, w.now)
            && EffectiveAssets(w'.vault, w.now) == EffectiveAssets(w.vault, w.now) + amount
            && w'.asset.BalanceOf(user) == w.asset.BalanceOf(user) - amount
            && w'.lp.BalanceOf(user) == w.lp.BalanceOf(user) + minted
            && 0 <= minted == shares - BpsOf(shares, w.vault.config.depositFeeBps)
            && minted * EffectiveAssets(w.vault, w.now) <= amount * w.vault.lpSupply
  {
    var w' := Deposit(w, user, amount).value;
    var effective := EffectiveAssets(w.vault, w.now);
    EffectiveIsUnlocked(w.vault, w.now);
    EffectiveIsUnlocked(w'.vault, w.now);
    MulDivBounds(amount, w.vault.lpSupply, effective);
    MulLe(w'.vault.lpSupply - w.vault.lpSupply, MulDiv(amount, w.vault.lpSupply, effective), effective);
  }

  /** A withdrawal takes exactly the floored value of its shares out of effective assets and pays the user that value
      less the fee; nothing is truncated. */
  lemma WithdrawEffect(w: World, user: nat, shares: U64)
    requires Timely(w) && InstantWithdraw(w, user, shares).Ok?
    ensures var w' := InstantWithdraw(w, user, shares).value;
            var value := MulDiv(shares, EffectiveAssets(w.vault, w.now), w.vault.lpSupply);
            && RedemptionValue(w.vault, w.now, shares) == Ok(value)
            && EffectiveAssets(w'.vault, w.now) == EffectiveAssets(w.vault, w.now) - value
            && w'.vault.lpSupply == w.vault.lpSupply - shares
            && w'.lp.BalanceOf(user) == w.lp.BalanceOf(user) - shares
            && w'.asset.BalanceOf(user)
               == w.asset.BalanceOf(user) + value - BpsOf(value, w.vault.config.withdrawalFeeBps)
            && value * w.vault.lpSupply <= shares * EffectiveAssets(w.vault, w.now)
  {
    var w' := InstantWithdraw(w, user, shares).value;
    var effective, supply := EffectiveAssets(w.vault, w.now), w.vault.lpSupply;
    EffectiveIsUnlocked(w.vault, w.now);
    EffectiveIsUnlocked(w'.vault, w.now);
    MulDivBounds(shares, effective, supply);
    MulLe(shares, supply, effective);
    MulDivAtMost(shares, effective, supply, effective);
  }

  // ---- The price never falls ----

  /** Steps that neither report yield nor take fees nor change the configuration. */
  predicate PriceNeutral(step: Step) {
    !step.ReportStep? && !step.HarvestStep? && !step.ConfigStep?
  }

  /** Effective assets over shares in `w'` is at least what it is in `w`. */
  predicate PriceAtLeast(w': World, w: World) {
    RatioAtLeast(EffectiveAssets(w'.vault, w'.now), w'.vault.lpSupply,
                 EffectiveAssets(w.vault, w.now), w.vault.lpSupply)
  }

  lemma DepositKeepsPrice(w: World, user: nat, amount: U64)
    requires Timely(w) && w.vault.lpSupply > 0 && Deposit(w, user, amount).Ok?
    ensures PriceAtLeast(Deposit(w, user, amount).value, w)
  {
    DepositEffect(w, user, amount);
    RatioGrows(EffectiveAssets(w.vault, w.now), w.vault.lpSupply, amount,
               Deposit(w, user, amount).value.vault.lpSupply - w.vault.lpSupply);
  }

  lemma WithdrawKeepsPrice(w: World, user: nat, shares: U64)
    requires Timely(w) && InstantWithdraw(w, user, shares).Ok?
    ensures PriceAtLeast(InstantWithdraw(w, user, shares).value, w)
  {
    WithdrawEffect(w, user, shares);
    RatioShrinks(EffectiveAssets(w.vault, w.now), w.vault.lpSupply,
                 EffectiveAssets(w.vault, w.now) - EffectiveAssets(InstantWithdraw(w, user, shares).value.vault, w.now),
                 shares);
  }

  lemma StepKeepsPrice(w: World, step: Step)
    requires Timely(w) && w.vault.lpSupply > 0 && PriceNeutral(step)
    ensures PriceAtLeast(Apply(w, step), w)
  {
    if Execute(w, step).Ok? {
      match step
      case DepositStep(user, amount) => DepositKeepsPrice(w, user, amount);
      case WithdrawStep(user, shares) => WithdrawKeepsPrice(w, user, shares);
      case TickStep(seconds) =>
        EffectiveGrowsWithTime(w.vault, w.now, w.now + seconds);
        MulLe(EffectiveAssets(w.vault, w.now), EffectiveAssets(w.vault, w.now + seconds), w.vault.lpSupply);
      case _ =>
    }
  }

  /** Shares are outstanding before every step. */
  predicate SharesThroughout(w: World, steps: seq<Step>)
    decreases |steps|
  {
    steps == [] || (w.vault.lpSupply > 0 && SharesThroughout(Apply(w, steps[0]), steps[1..]))
  }

  /** Over any run without yield reports, harvests and configuration changes the share price never falls
      while shares are outstanding. */
  lemma {:induction false} SharePriceNeverFalls(w: World, steps: seq<Step>)
    requires Timely(w)
    requires forall step <- steps :: PriceNeutral(step)
    requires SharesThroughout(w, steps)
    ensures PriceAtLeast(Run(w, steps), w)
    decreases |steps|
  {
    if steps == [] {
    } else {
      var w1 := Apply(w, steps[0]);
      StepKeepsTime(w, steps[0]);
      StepKeepsPrice(w, steps[0]);
      SharePriceNeverFalls(w1, steps[1..]);
      var w2 := Run(w1, steps[1..]);
      if steps[1..] != [] {
        RatioTransitive(EffectiveAssets(w.vault, w.now), w.vault.lpSupply,
                        EffectiveAssets(w1.vault, w1.now), w1.vault.lpSupply,
                        EffectiveAssets(w2.vault, w2.now), w2.vault.lpSupply);
      }
    }
  }
}
