/** Management and performance fees: what a harvest can take, once and over a run. */
module Fees {
  import opened Machine
  import opened VaultModel

  // ---- Performance fees over a run ----

  lemma FeeOnSlice(excess: nat, supply: nat, precision: nat, denominator: nat, bps: nat)
    requires precision > 0 && denominator > 0
    ensures MulDiv(MulDiv(excess, supply, precision), bps, denominator) * precision * denominator
            <= bps * supply * excess
  {
    var profit := MulDiv(excess, supply, precision);
    var fee := MulDiv(profit, bps, denominator);
    MulDivBounds(excess, supply, precision);
    MulDivBounds(profit, bps, denominator);
    calc {
      fee * precision * denominator;
      (fee * denominator) * precision;
    <= { MulLe(fee * denominator, profit * bps, precision); }
      (profit * bps) * precision;
      (profit * precision) * bps;
    <= { MulLe(profit * precision, excess * supply, bps); }
      (excess * supply) * bps;
      bps * supply * excess;
    }
  }

  /** The performance fee that `step` takes. */
  function PerformanceTaken(w: World, step: Step): nat {
    if step.HarvestStep? && Execute(w, step).Ok? then PerformanceFee(w.vault, w.now) else 0
  }

  /** `fee` is at most the maximal performance fee on share price growth from `low` to `high` with `most` shares. */
  predicate WithinSlice(fee: nat, most: nat, low: nat, high: nat) {
    low <= high && fee * PRECISION * BPS_DENOMINATOR <= MAX_PERFORMANCE_FEE_BPS * most * (high - low)
  }

  lemma SlicesAdd(fee0: nat, fee1: nat, most: nat, low: nat, middle: nat, high: nat)
    requires WithinSlice(fee0, most, low, middle) && WithinSlice(fee1, most, middle, high)
    ensures WithinSlice(fee0 + fee1, most, low, high)
  {
    var rate := MAX_PERFORMANCE_FEE_BPS * most;
    assert rate * (high - low) == rate * (middle - low) + rate * (high - middle);
  }

  /** A harvest charges the price growth between the old and the new mark, and nothing else. */
  lemma HarvestChargesItsSlice(w: World, step: Step, most: nat)
    requires FeesBounded(w)
    requires step.HarvestStep? ==> w.vault.lpSupply <= most
    ensures WithinSlice(PerformanceTaken(w, step), most, w.vault.highWaterMark, Apply(w, step).vault.highWaterMark)
  {
    StepKeepsFeeBounds(w, step);
    var growth := Apply(w, step).vault.highWaterMark - w.vault.highWaterMark;
    if PerformanceTaken(w, step) > 0 {
      var bps := w.vault.config.performanceFeeBps;
      assert growth == AssetPerShare(w.vault, w.now) - w.vault.highWaterMark;
      FeeOnSlice(growth, w.vault.lpSupply, PRECISION, BPS_DENOMINATOR, bps);
      WidenBound(PerformanceTaken(w, step),
                 MulDiv(MulDiv(growth, w.vault.lpSupply, PRECISION), bps, BPS_DENOMINATOR),
                 bps, w.vault.lpSupply, most, growth);
    } else {
      MulLe(0, MAX_PERFORMANCE_FEE_BPS * most, growth);
    }
  }

  lemma WidenBound(taken: nat, fee: nat, bps: nat, supply: nat, most: nat, growth: nat)
    requires taken <= fee && bps <= MAX_PERFORMANCE_FEE_BPS && supply <= most
    requires fee * PRECISION * BPS_DENOMINATOR <= bps * supply * growth
    ensures taken * PRECISION * BPS_DENOMINATOR <= MAX_PERFORMANCE_FEE_BPS * most * growth
  {
    MulLe(bps, MAX_PERFORMANCE_FEE_BPS, supply);
    MulLe(supply, most, MAX_PERFORMANCE_FEE_BPS);
    MulLe(bps * supply, MAX_PERFORMANCE_FEE_BPS * most, growth);
  }

  function TotalPerformance(w: World, steps: seq<Step>): nat
    decreases |steps|
  {
    if steps == [] then 0
    else PerformanceTaken(w, steps[0]) + TotalPerformance(Apply(w, steps[0]), steps[1..])
  }

  /** No harvest of the run happens with more than `most` shares outstanding. */
  predicate SupplyAtHarvests(w: World, steps: seq<Step>, most: nat)
    decreases |steps|
  {
    steps == []
    || ((steps[0].HarvestStep? ==> w.vault.lpSupply <= most) && SupplyAtHarvests(Apply(w, steps[0]), steps[1..], most))
  }

  /** Over any run the performance fees add up to at most half the growth of the high water mark, on the largest
      share supply at a harvest: each slice of share price growth is charged at most once. */
  lemma {:induction false} EachSliceChargedOnce(w: World, steps: seq<Step>, most: nat)
    requires FeesBounded(w) && SupplyAtHarvests(w, steps, most)
    ensures WithinSlice(TotalPerformance(w, steps), most, w.vault.highWaterMark, Run(w, steps).vault.highWaterMark)
    decreases |steps|
  {
    if steps == [] {
    } else {
      var w1 := Apply(w, steps[0]);
      StepKeepsFeeBounds(w, steps[0]);
      HarvestChargesItsSlice(w, steps[0], most);
      EachSliceChargedOnce(w1, steps[1..], most);
      SlicesAdd(PerformanceTaken(w, steps[0]), TotalPerformance(w1, steps[1..]), most,
                w.vault.highWaterMark, w1.vault.highWaterMark, Run(w, steps).vault.highWaterMark);
    }
  }

  // ---- Management fees over a run ----

  /** The management fee that `step` takes. */
  function ManagementTaken(w: World, step: Step): nat {
    if step.HarvestStep? && Execute(w, step).Ok? then ManagementFee(w.vault, w.now).value else 0
  }

  /** `fee` is at most what `bps` of `most` assets a year come to between the two timestamps. */
  predicate WithinPeriod(fee: nat, bps: nat, most: nat, earlier: nat, later: nat) {
    earlier <= later && fee * BPS_DENOMINATOR * SECONDS_PER_YEAR <= bps * most * (later - earlier)
  }

  lemma PeriodsAdd(fee0: nat, fee1: nat, bps: nat, most: nat, earlier: nat, middle: nat, later: nat)
    requires WithinPeriod(fee0, bps, most, earlier, middle) && WithinPeriod(fee1, bps, most, middle, later)
    ensures WithinPeriod(fee0 + fee1, bps, most, earlier, later)
  {
    var rate := bps * most;
    assert rate * (later - earlier) == rate * (middle - earlier) + rate * (later - middle);
  }

  /** A harvest takes at most `bps` of effective assets of at most `most`. */
  predicate HarvestBounded(w: World, step: Step, bps: nat, most: nat) {
    step.HarvestStep? ==> w.vault.config.managementFeeBps <= bps && EffectiveAssets(w.vault, w.now) <= most
  }

  lemma ManagementFeeWithinPeriod(v: Vault, now: Timestamp, bps: nat, most: nat)
    requires v.lastFeeHarvestTs <= now && ManagementFee(v, now).Ok?
    requires v.config.managementFeeBps <= bps && EffectiveAssets(v, now) <= most
    ensures WithinPeriod(ManagementFee(v, now).value, bps, most, v.lastFeeHarvestTs, now)
  {
    var effective, rate, elapsed := EffectiveAssets(v, now), v.config.managementFeeBps, now - v.lastFeeHarvestTs;
    var fee := MulDiv(MulDiv(effective, rate, BPS_DENOMINATOR), elapsed, SECONDS_PER_YEAR);
    FeeOnSlice(effective, rate, BPS_DENOMINATOR, SECONDS_PER_YEAR, elapsed);
    assert ManagementFee(v, now).value == Truncate(fee);
    WidenPeriod(ManagementFee(v, now).value, fee, rate, bps, effective, most, elapsed);
  }

  lemma WidenPeriod(taken: nat, fee: nat, rate: nat, bps: nat, effective: nat, most: nat, elapsed: nat)
    requires taken <= fee && rate <= bps && effective <= most
    requires fee * BPS_DENOMINATOR * SECONDS_PER_YEAR <= elapsed * rate * effective
    ensures taken * BPS_DENOMINATOR * SECONDS_PER_YEAR <= bps * most * elapsed
  {
    calc {
      elapsed * rate * effective;
      rate * effective * elapsed;
    <= { MulLe(rate, bps, effective); MulLe(rate * effective, bps * effective, elapsed); }
      bps * effective * elapsed;
    <= { MulLe(effective, most, bps); MulLe(bps * effective, bps * most, elapsed); }
      bps * most * elapsed;
    }
  }

  lemma NoFeeWithinPeriod(bps: nat, most: nat, earlier: nat, later: nat)
    requires earlier <= later
    ensures WithinPeriod(0, bps, most, earlier, later)
  {
    MulLe(0, bps * most, later - earlier);
  }

  /** A harvest charges the time since the last one and starts the next period, or takes nothing. */
  lemma HarvestChargesItsPeriod(w: World, step: Step, bps: nat, most: nat)
    requires Timely(w) && HarvestBounded(w, step, bps, most)
    ensures WithinPeriod(ManagementTaken(w, step), bps, most,
                         w.vault.lastFeeHarvestTs, Apply(w, step).vault.lastFeeHarvestTs)
  {
    if ManagementTaken(w, step) > 0 {
      ManagementFeeWithinPeriod(w.vault, w.now, bps, most);
    } else {
      NoFeeWithinPeriod(bps, most, w.vault.lastFeeHarvestTs, Apply(w, step).vault.lastFeeHarvestTs);
    }
  }

  function TotalManagement(w: World, steps: seq<Step>): nat
    decreases |steps|
  {
    if steps == [] then 0
    else ManagementTaken(w, steps[0]) + TotalManagement(Apply(w, steps[0]), steps[1..])
  }

  predicate HarvestsBounded(w: World, steps: seq<Step>, bps: nat, most: nat)
    decreases |steps|
  {
    steps == []
    || (HarvestBounded(w, steps[0], bps, most) && HarvestsBounded(Apply(w, steps[0]), steps[1..], bps, most))
  }

  /** Over any run the management fees add up to at most the highest rate on the most assets at a harvest, for the
      time between the last harvest before the run and the last one on it: each second is charged at most once. */
  lemma {:induction false} EachSecondChargedOnce(w: World, steps: seq<Step>, bps: nat, most: nat)
    requires Timely(w) && HarvestsBounded(w, steps, bps, most)
    ensures WithinPeriod(TotalManagement(w, steps), bps, most,
                         w.vault.lastFeeHarvestTs, Run(w, steps).vault.lastFeeHarvestTs)
    decreases |steps|
  {
    if steps == [] {
    } else {
      var w1 := Apply(w, steps[0]);
      StepKeepsTime(w, steps[0]);
      HarvestChargesItsPeriod(w, steps[0], bps, most);
      EachSecondChargedOnce(w1, steps[1..], bps, most);
      PeriodsAdd(ManagementTaken(w, steps[0]), TotalManagement(w1, steps[1..]), bps, most,
                 w.vault.lastFeeHarvestTs, w1.vault.lastFeeHarvestTs, Run(w, steps).vault.lastFeeHarvestTs);
    }
  }

  // ---- Harvesting twice ----

  lemma MoreSharesCheaper(assets: nat, precision: nat, shares: nat, more: nat)
    requires 0 < shares <= more
    ensures MulDiv(assets, precision, more) <= MulDiv(assets, precision, shares)
  {
    MulDivBounds(assets, precision, more);
    MulLe(shares, more, MulDiv(assets, precision, more));
    MulDivAtLeast(assets, precision, shares, MulDiv(assets, precision, more));
  }

  lemma NothingElapsed(v: Vault, now: Timestamp)
    requires v.lastFeeHarvestTs == now
    ensures ManagementFee(v, now) == Ok(0)
  {
    var annual := MulDiv(EffectiveAssets(v, now), v.config.managementFeeBps, BPS_DENOMINATOR);
    assert annual * 0 == 0;
  }

  /** While shares are outstanding, a second harvest at the same clock reading changes nothing. */
  lemma HarvestTwiceIsOnce(w: World, caller: nat)
    requires Timely(w) && w.vault.lpSupply > 0
    ensures var w1 := Apply(w, HarvestStep(caller));
            && Apply(w1, HarvestStep(caller)) == w1
            && (HarvestFees(w, caller).Ok? ==> HarvestFees(w1, caller) == Ok(w1))
  {
    var w1 := Apply(w, HarvestStep(caller));
    if w1 != w {
      NothingElapsed(w1.vault, w1.now);
      MoreSharesCheaper(EffectiveAssets(w.vault, w.now), PRECISION, w.vault.lpSupply, w1.vault.lpSupply);
      assert PerformanceFee(w1.vault, w1.now) == 0;
    }
  }

  /** A first harvest leaves nothing for a second one: there are shares, or no fee is due, or the shares minted for
      the management fee are not priced above the mark by enough for a performance fee. */
  predicate NothingLeftToHarvest(v: Vault, now: Timestamp)
    requires ManagementFee(v, now).Ok?
  {
    var management := ManagementFee(v, now).value;
    v.lpSupply > 0 || management == 0 || PerformanceFee(v.(lpSupply := management), now) == 0
  }

  /** In general, a harvest that went through makes a second one at the same clock reading a successful no-op exactly
      when it leaves nothing to harvest. */
  lemma HarvestTwiceExactly(w: World, caller: nat)
    requires Timely(w) && FeesBounded(w) && HarvestFees(w, caller).Ok?
    ensures ManagementFee(w.vault, w.now).Ok?
    ensures var w1 := HarvestFees(w, caller).value;
            HarvestFees(w1, caller) == Ok(w1) <==> NothingLeftToHarvest(w.vault, w.now)
  {
    var w1 := HarvestFees(w, caller).value;
    var management := ManagementFee(w.vault, w.now).value;
    if w.vault.lpSupply > 0 {
      HarvestTwiceIsOnce(w, caller);
    } else if management > 0 {
      assert PerformanceFee(w.vault, w.now) == 0;
      assert w1.vault.lpSupply == management;
      NothingElapsed(w1.vault, w1.now);
      assert PerformanceFee(w1.vault, w1.now) == PerformanceFee(w.vault.(lpSupply := management), w.now);
    }
  }

  // ---- Dilution ----

  /** The fee of a harvest, in assets. */
  function HarvestFee(w: World): nat
    requires ManagementFee(w.vault, w.now).Ok?
  {
    ManagementFee(w.vault, w.now).value + PerformanceFee(w.vault, w.now)
  }

  /** A harvest dilutes holders by the fee and no more: the new supply is at most what the fee is worth at the old
      share price, the shares minted redeem for at most the fee, and one more share would be worth more than the fee,
      unless the number of shares does not fit in a u64. */
  lemma DilutionIsBounded(w: World, caller: nat)
    requires Timely(w) && w.vault.lpSupply > 0 && EffectiveAssets(w.vault, w.now) > 0
    requires HarvestFees(w, caller).Ok?
    ensures var w' := HarvestFees(w, caller).value;
            var effective := EffectiveAssets(w.vault, w.now);
            var minted := w'.vault.lpSupply - w.vault.lpSupply;
            && minted >= 0
            && EffectiveAssets(w'.vault, w'.now) == effective
            && w'.vault.lpSupply * effective <= w.vault.lpSupply * (effective + HarvestFee(w))
            && MulDiv(minted, effective, w'.vault.lpSupply) <= HarvestFee(w)
            && (HarvestFee(w) * w.vault.lpSupply < U64_LIMIT * effective ==>
                  HarvestFee(w) * w.vault.lpSupply < (minted + 1) * effective)
  {
    var w' := HarvestFees(w, caller).value;
    var effective, fee := EffectiveAssets(w.vault, w.now), HarvestFee(w);
    assert EffectiveAssets(w'.vault, w'.now) == effective;
    var minted := w'.vault.lpSupply - w.vault.lpSupply;
    SharesAreFloored(fee, w.vault.lpSupply, effective);
    Dilution(minted, w.vault.lpSupply, effective, fee);
  }

  lemma Dilution(minted: nat, shares: nat, effective: nat, fee: nat)
    requires shares > 0
    requires minted * effective <= fee * shares
    ensures (shares + minted) * effective <= shares * (effective + fee)
    ensures MulDiv(minted, effective, shares + minted) <= fee
  {
    assert (shares + minted) * effective == shares * effective + minted * effective;
    assert shares * (effective + fee) == shares * effective + fee * shares;
    MulLe(shares, shares + minted, fee);
    MulDivAtMost(minted, effective, shares + minted, fee);
  }

  lemma ManagementFeeIsSmall(v: Vault, now: Timestamp)
    requires v.lastFeeHarvestTs <= now <= v.lastFeeHarvestTs + 5 * SECONDS_PER_YEAR
    requires v.config.managementFeeBps <= MAX_MANAGEMENT_FEE_BPS
    ensures var effective := EffectiveAssets(v, now);
            var annual := MulDiv(effective, v.config.managementFeeBps, BPS_DENOMINATOR);
            && ManagementFee(v, now) == Ok(MulDiv(annual, now - v.lastFeeHarvestTs, SECONDS_PER_YEAR))
            && 2 * ManagementFee(v, now).value <= effective
  {
    var effective := EffectiveAssets(v, now);
    var annual := MulDiv(effective, v.config.managementFeeBps, BPS_DENOMINATOR);
    var elapsed := now - v.lastFeeHarvestTs;
    MulDivBounds(effective, v.config.managementFeeBps, BPS_DENOMINATOR);
    MulLe(v.config.managementFeeBps, MAX_MANAGEMENT_FEE_BPS, effective);
    assert 10 * annual <= effective;
    MulLe(elapsed, 5 * SECONDS_PER_YEAR, annual);
    MulDivAtMost(annual, elapsed, SECONDS_PER_YEAR, 5 * annual);
  }

  lemma PerformanceFeeIsSmall(v: Vault, now: Timestamp)
    requires v.config.performanceFeeBps <= MAX_PERFORMANCE_FEE_BPS && v.lpSupply > 0
    ensures var effective := EffectiveAssets(v, now);
            var ratio := AssetPerShare(v, now);
            && (ratio > v.highWaterMark ==>
                  PerformanceFee(v, now) == MulDiv(MulDiv(ratio - v.highWaterMark, v.lpSupply, PRECISION),
                                                   v.config.performanceFeeBps, BPS_DENOMINATOR))
            && 2 * PerformanceFee(v, now) <= effective
  {
    var effective, ratio := EffectiveAssets(v, now), AssetPerShare(v, now);
    if ratio > v.highWaterMark {
      var excess: nat := ratio - v.highWaterMark;
      var profit := MulDiv(excess, v.lpSupply, PRECISION);
      MulDivBounds(effective, PRECISION, v.lpSupply);
      MulLe(excess, ratio, v.lpSupply);
      MulDivAtMost(excess, v.lpSupply, PRECISION, effective);
      MulDivBounds(profit, v.config.performanceFeeBps, BPS_DENOMINATOR);
      MulLe(v.config.performanceFeeBps, MAX_PERFORMANCE_FEE_BPS, profit);
      assert 2 * MulDiv(profit, v.config.performanceFeeBps, BPS_DENOMINATOR) <= profit;
    }
  }

  /** With the initial fee limits and at most five years between harvests no fee or share count is truncated,
      the fee is at most the effective assets and the supply at most doubles. */
  lemma HarvestAtMostDoubles(w: World, caller: nat)
    requires Timely(w) && w.now <= w.vault.lastFeeHarvestTs + 5 * SECONDS_PER_YEAR
    requires w.vault.config.managementFeeBps <= MAX_MANAGEMENT_FEE_BPS
    requires w.vault.config.performanceFeeBps <= MAX_PERFORMANCE_FEE_BPS
    requires w.vault.lpSupply > 0 && EffectiveAssets(w.vault, w.now) > 0
    ensures ManagementFee(w.vault, w.now).Ok?
    ensures HarvestFee(w) <= EffectiveAssets(w.vault, w.now)
    ensures FeeShares(w.vault, w.now, HarvestFee(w))
            == MulDiv(HarvestFee(w), w.vault.lpSupply, EffectiveAssets(w.vault, w.now))
    ensures Apply(w, HarvestStep(caller)).vault.lpSupply <= 2 * w.vault.lpSupply
  {
    ManagementFeeIsSmall(w.vault, w.now);
    PerformanceFeeIsSmall(w.vault, w.now);
    var effective, fee := EffectiveAssets(w.vault, w.now), HarvestFee(w);
    MulLe(fee, effective, w.vault.lpSupply);
    MulDivAtMost(fee, w.vault.lpSupply, effective, w.vault.lpSupply);
  }
}
