/** What deposits, withdrawals and harvests cost to the last unit, bounded on both sides. */
module Pricing {
  import opened Machine
  import opened Token
  import opened VaultModel
  import opened SharePrice
  import opened Fees

  // ---- Fees in basis points ----

  /** `fee` is `bps` ten-thousandths of `amount`, rounded down. */
  predicate FlooredBps(fee: nat, amount: nat, bps: nat) {
    fee * 10_000 <= amount * bps < (fee + 1) * 10_000
  }

  lemma BpsAreFloored(amount: U64, bps: U16)
    ensures BpsOf(amount, bps) <= amount * bps / 10_000
    ensures amount * bps < 10_000 * U64_LIMIT ==> FlooredBps(BpsOf(amount, bps), amount, bps)
  {
    MulDivBounds(amount, bps, BPS_DENOMINATOR);
  }

  // ---- Deposits ----

  /** A deposit that goes through, whatever the vault held before: the shares it buys are the whole amount when none are
      outstanding and the floored proportional number otherwise; of these the floored fee is withheld and exactly the
      rest minted to the user. The vault's four counters, the user's wallet and the vault's tokens move by exactly these
      amounts, and nothing else in the vault changes. Only a paused vault or a full one refuses for its own sake. */
  lemma DepositIsTight(w: World, user: nat, amount: U64)
    requires Timely(w) && Deposit(w, user, amount).Ok?
    ensures var w' := Deposit(w, user, amount).value;
            var v, v' := w.vault, w'.vault;
            var effective := EffectiveAssets(v, w.now);
            var minted, withheld := v'.lpSupply - v.lpSupply, v'.accumulatedFees - v.accumulatedFees;
            var shares := minted + withheld;
            && 0 <= minted && 0 <= withheld && 0 < shares && v.active
            && (v.lpSupply == 0 ==> shares == amount)
            && (v.lpSupply > 0 ==> shares * effective <= amount * v.lpSupply)
            && (0 < v.lpSupply && amount * v.lpSupply < U64_LIMIT * effective ==>
                  amount * v.lpSupply < (shares + 1) * effective)
            && (shares * v.config.depositFeeBps < 10_000 * U64_LIMIT ==>
                  FlooredBps(withheld, shares, v.config.depositFeeBps))
            && v' == v.(totalAssets := v.totalAssets + amount, idleAssets := v.idleAssets + amount,
                        lpSupply := v'.lpSupply, accumulatedFees := v'.accumulatedFees)
            && v'.totalAssets <= v.config.maxCap
            && w' == w.(vault := v', asset := w'.asset, lp := w'.lp)
            && w.asset.Transfer(user, VAULT_ACCOUNT, amount) == Some(w'.asset)
            && w'.lp.BalanceOf(user) == w.lp.BalanceOf(user) + minted
            && w'.lp.supply == w.lp.supply + minted
  {
    var v, effective := w.vault, EffectiveAssets(w.vault, w.now);
    var shares := DepositShares(v, w.now, amount).value;
    BpsAreFloored(shares, v.config.depositFeeBps);
    if v.lpSupply > 0 {
      SharesAreFloored(amount, v.lpSupply, effective);
    }
  }

  // ---- Withdrawals ----

  /** A withdrawal that goes through burns exactly `shares`; it takes their floored value off the total, pays the user
      that value less the floored fee out of the idle assets and the vault's tokens, and changes nothing else. */
  lemma WithdrawalIsTight(w: World, user: nat, shares: U64)
    requires Timely(w) && InstantWithdraw(w, user, shares).Ok?
    ensures var w' := InstantWithdraw(w, user, shares).value;
            var v, v' := w.vault, w'.vault;
            var effective := EffectiveAssets(v, w.now);
            var value, payout := v.totalAssets - v'.totalAssets, v.idleAssets - v'.idleAssets;
            && 0 < shares && v.config.withdrawalWaitPeriod == 0
            && 0 <= payout <= value
            && value * v.lpSupply <= shares * effective < (value + 1) * v.lpSupply
            && (value * v.config.withdrawalFeeBps < 10_000 * U64_LIMIT ==>
                  FlooredBps(value - payout, value, v.config.withdrawalFeeBps))
            && v' == v.(totalAssets := v'.totalAssets, idleAssets := v'.idleAssets, lpSupply := v.lpSupply - shares)
            && w' == w.(vault := v', asset := w'.asset, lp := w'.lp)
            && w.asset.Transfer(VAULT_ACCOUNT, user, payout) == Some(w'.asset)
            && w.lp.Burn(user, shares) == Some(w'.lp)
  {
    var effective, supply := EffectiveAssets(w.vault, w.now), w.vault.lpSupply;
    WithdrawEffect(w, user, shares);
    var value := RedemptionValue(w.vault, w.now, shares).value;
    SharesAreFloored(shares, effective, supply);
    MulLe(shares, supply, effective);
    MulLe(effective, U64_LIMIT - 1, supply);
    BpsAreFloored(value, w.vault.config.withdrawalFeeBps);
    assert w.vault.totalAssets - InstantWithdraw(w, user, shares).value.vault.totalAssets == value;
  }

  // ---- Harvests ----

  /** The share price scaled by 10^18 is floored, and one where there are no shares. */
  lemma RatioIsFloored(v: Vault, now: Timestamp)
    ensures v.lpSupply == 0 ==> AssetPerShare(v, now) == 1_000_000_000_000_000_000
    ensures v.lpSupply > 0 ==>
              AssetPerShare(v, now) * v.lpSupply <= EffectiveAssets(v, now) * 1_000_000_000_000_000_000
              < (AssetPerShare(v, now) + 1) * v.lpSupply
  {
    if v.lpSupply > 0 {
      MulDivBounds(EffectiveAssets(v, now), PRECISION, v.lpSupply);
      assert (AssetPerShare(v, now) + 1) * v.lpSupply == AssetPerShare(v, now) * v.lpSupply + v.lpSupply;
    }
  }

  /** Flooring `a * b / c` and then `* d / e` loses less than one unit of the result and `d` units of the first
      quotient. */
  lemma FlooredTwice(a: nat, b: nat, c: nat, d: nat, e: nat)
    requires c > 0 && e > 0
    ensures var q := MulDiv(MulDiv(a, b, c), d, e);
            a * b * d <= ((q + 1) * e + d) * c
  {
    var p := MulDiv(a, b, c);
    var q := MulDiv(p, d, e);
    MulDivBounds(a, b, c);
    MulDivBounds(p, d, e);
    assert (q + 1) * e == q * e + e;
    LossOfTwo(a * b, p, c, d, (q + 1) * e);
  }

  lemma LossOfTwo(x: nat, p: nat, c: nat, d: nat, y: nat)
    requires x <= p * c + c && p * d <= y
    ensures x * d <= (y + d) * c
  {
    MulLe(x, p * c + c, d);
    MulLe(p * d, y, c);
    assert (p * c + c) * d == p * d * c + d * c;
    assert (y + d) * c == y * c + d * c;
  }

  /** The management fee is the yearly rate on effective assets for the time since the last harvest, up to two
      roundings, and never more. */
  lemma ManagementFeeIsTight(v: Vault, now: Timestamp)
    requires v.lastFeeHarvestTs <= now && ManagementFee(v, now).Ok?
    ensures var fee, elapsed := ManagementFee(v, now).value, now - v.lastFeeHarvestTs;
            var due := EffectiveAssets(v, now) * v.config.managementFeeBps * elapsed;
            && fee * 10_000 * 31_536_000 <= due
            && (due < U64_LIMIT * 10_000 * 31_536_000 ==> due <= ((fee + 1) * 31_536_000 + elapsed) * 10_000)
  {
    var effective, bps, elapsed := EffectiveAssets(v, now), v.config.managementFeeBps, now - v.lastFeeHarvestTs;
    var fee := MulDiv(MulDiv(effective, bps, BPS_DENOMINATOR), elapsed, SECONDS_PER_YEAR);
    FeeOnSlice(effective, bps, BPS_DENOMINATOR, SECONDS_PER_YEAR, elapsed);
    Reorder(elapsed, bps, effective);
    FlooredTwice(effective, bps, BPS_DENOMINATOR, elapsed, SECONDS_PER_YEAR);
    assert ManagementFee(v, now).value == Truncate(fee);
  }

  lemma Reorder(a: int, b: int, c: int)
    ensures a * b * c == c * b * a
  {
  }

  /** The performance fee is the rate on the growth of the share price beyond the mark for all shares, up to two
      roundings, and never more; there is none without such growth. */
  lemma PerformanceFeeIsTight(v: Vault, now: Timestamp)
    requires v.config.performanceFeeBps <= MAX_PERFORMANCE_FEE_BPS
    ensures var fee, bps := PerformanceFee(v, now), v.config.performanceFeeBps;
            && (AssetPerShare(v, now) <= v.highWaterMark ==> fee == 0)
            && (v.lpSupply > 0 && AssetPerShare(v, now) > v.highWaterMark ==>
                  var due := (AssetPerShare(v, now) - v.highWaterMark) * v.lpSupply * bps;
                  && fee * 10_000 * PRECISION <= due
                  && due <= ((fee + 1) * 10_000 + bps) * PRECISION)
  {
    if v.lpSupply > 0 && AssetPerShare(v, now) > v.highWaterMark {
      var growth, bps := AssetPerShare(v, now) - v.highWaterMark, v.config.performanceFeeBps;
      PerformanceFeeIsSmall(v, now);
      FeeOnSlice(growth, v.lpSupply, PRECISION, BPS_DENOMINATOR, bps);
      Reorder(bps, v.lpSupply, growth);
      FlooredTwice(growth, v.lpSupply, PRECISION, bps, BPS_DENOMINATOR);
    }
  }

  /** A harvest that goes through is the admin's. When no fee is due it changes nothing. Otherwise it counts both fees,
      mints the admin exactly the floored proportional shares, or one share per unit where there is no share price,
      raises the mark to the share price and starts the next period, and changes nothing else. */
  lemma HarvestIsTight(w: World, caller: nat)
    requires Timely(w) && HarvestFees(w, caller).Ok?
    ensures ManagementFee(w.vault, w.now).Ok? && caller == w.vault.admin
    ensures var w' := HarvestFees(w, caller).value;
            var v, v' := w.vault, w'.vault;
            var fee, effective := ManagementFee(v, w.now).value + PerformanceFee(v, w.now), EffectiveAssets(v, w.now);
            var minted := v'.lpSupply - v.lpSupply;
            if fee == 0 then w' == w
            else
              && v' == v.(lpSupply := v'.lpSupply, lastFeeHarvestTs := w.now, highWaterMark := v'.highWaterMark,
                          accumulatedFees := v'.accumulatedFees)
              && v'.accumulatedFees == v.accumulatedFees + fee
              && v.highWaterMark <= v'.highWaterMark && AssetPerShare(v, w.now) <= v'.highWaterMark
              && (v'.highWaterMark == v.highWaterMark || v'.highWaterMark == AssetPerShare(v, w.now))
              && (v.lpSupply == 0 || effective == 0 ==> minted == fee)
              && (v.lpSupply > 0 && effective > 0 ==>
                    && 0 <= minted && minted * effective <= fee * v.lpSupply
                    && (fee * v.lpSupply < U64_LIMIT * effective ==> fee * v.lpSupply < (minted + 1) * effective))
              && w' == w.(vault := v', lp := w'.lp)
              && 0 <= minted && w.lp.MintTo(v.admin, minted) == Some(w'.lp)
  {
    var v, effective := w.vault, EffectiveAssets(w.vault, w.now);
    if v.lpSupply > 0 && effective > 0 {
      SharesAreFloored(ManagementFee(v, w.now).value + PerformanceFee(v, w.now), v.lpSupply, effective);
    }
  }
}
