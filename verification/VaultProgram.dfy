/** The vault program's instruction handlers over mutable accounts, each proved to commit or roll back exactly as
    the state machine says. */
module VaultProgram {
  import opened Machine
  import opened Token
  import opened VaultModel
  import opened SharePrice
  import opened Fairness

  class StrategyAccount {
    var positionValue: U64
    var totalAllocated: U64
    var active: bool
    var lastUpdateTs: Timestamp

    constructor (now: Timestamp)
      ensures Value() == Strategy(0, 0, true, now)
    {
      positionValue := 0;
      totalAllocated := 0;
      active := true;
      lastUpdateTs := now;
    }

    function Value(): Strategy
      reads this
    {
      Strategy(positionValue, totalAllocated, active, lastUpdateTs)
    }
  }

  function Values(accounts: seq<StrategyAccount>): seq<Strategy>
    reads accounts
  {
    seq(|accounts|, i requires 0 <= i < |accounts| reads accounts => accounts[i].Value())
  }

  /** What a transaction reports to its sender. */
  function Status(result: Result<World>): Result<()> {
    if result.Ok? then Ok(()) else Err(result.error)
  }

  const NAME_LENGTH: nat := 32

  lemma UnlockedSoFar(v: Vault, now: Timestamp)
    ensures v.lockedProfitTs <= now ==> EffectiveAssets(v, now) == SaturatingSub(v.totalAssets, Locked(v, now))
    ensures v.lockedProfitTs <= now < v.lockedProfitTs + v.config.lockedProfitDegradation
            && v.lockedProfit <= v.totalAssets ==>
              var d, held := v.config.lockedProfitDegradation, v.totalAssets - EffectiveAssets(v, now);
              held * d <= v.lockedProfit * (v.lockedProfitTs + d - now) < (held + 1) * d
  {
    if v.lockedProfitTs <= now {
      EffectiveIsUnlocked(v, now);
      ProfitUnlocksLinearly(v, now - v.lockedProfitTs);
    }
  }

  class VaultAccount {
    const name: seq<bv8>
    const asset: Mint
    const lp: Mint
    var admin: nat
    var manager: nat
    var config: Config
    var totalAssets: U64
    var idleAssets: U64
    var lpSupply: U64
    var highWaterMark: U128
    var lastFeeHarvestTs: Timestamp
    var lockedProfit: U64
    var lockedProfitTs: Timestamp
    var accumulatedFees: U64
    var active: bool
    var strategies: seq<StrategyAccount>

    predicate Valid()
      reads this
    {
      && asset != lp
      && forall i, j :: 0 <= i < j < |strategies| ==> strategies[i] != strategies[j]
    }

    function State(): Vault
      reads this
    {
      Vault(admin, manager, config, totalAssets, idleAssets, lpSupply, highWaterMark, lastFeeHarvestTs,
            lockedProfit, lockedProfitTs, accumulatedFees, active)
    }

    function Snapshot(now: Timestamp): World
      reads this, asset, lp, strategies
    {
      World(State(), Values(strategies), asset.ledger, lp.ledger, now)
    }

    constructor (name: seq<bv8>, admin: nat, manager: nat, config: Config, now: Timestamp, asset: Mint, lp: Mint)
      ensures this.name == name && this.asset == asset && this.lp == lp && strategies == []
      ensures State() == Vault(admin, manager, config, 0, 0, 0, PRECISION, now, 0, now, 0, true)
    {
      this.name := name;
      this.asset := asset;
      this.lp := lp;
      this.admin := admin;
      this.manager := manager;
      this.config := config;
      totalAssets := 0;
      idleAssets := 0;
      lpSupply := 0;
      highWaterMark := PRECISION;
      lastFeeHarvestTs := now;
      lockedProfit := 0;
      lockedProfitTs := now;
      accumulatedFees := 0;
      active := true;
      strategies := [];
    }

    /** Creates a vault over an unused LP mint, its name padded with zeros; what it creates is where every run
        starts. */
    static method Initialize(name: seq<bv8>, admin: nat, manager: nat, config: Config, now: Timestamp,
                             asset: Mint, lp: Mint)
      returns (r: Result<VaultAccount>)
      ensures r.Ok? <==> && lp.ledger.supply == 0
                         && |name| <= NAME_LENGTH
                         && config.performanceFeeBps <= MAX_PERFORMANCE_FEE_BPS
                         && config.managementFeeBps <= MAX_MANAGEMENT_FEE_BPS
      ensures r.Err? ==> r.error == if lp.ledger.supply != 0 then InvalidLpMint
                                    else if |name| > NAME_LENGTH then NameTooLong
                                    else FeeTooHigh
      ensures r.Ok? ==> fresh(r.value) && r.value.asset == asset && r.value.lp == lp && r.value.strategies == []
      ensures r.Ok? ==> r.value.State() == Vault(admin, manager, config, 0, 0, 0, PRECISION, now, 0, now, 0, true)
      ensures r.Ok? ==> && |r.value.name| == NAME_LENGTH
                        && r.value.name[..|name|] == name
                        && forall i :: |name| <= i < NAME_LENGTH ==> r.value.name[i] == 0
      ensures r.Ok? && asset != lp && asset.ledger.Balanced() && asset.ledger.Has(VAULT_ACCOUNT) && lp.ledger.Balanced()
              ==> r.value.Valid() && Initial(r.value.Snapshot(now))
    {
      if lp.ledger.supply != 0 {
        return Err(InvalidLpMint);
      }
      if |name| > NAME_LENGTH {
        return Err(NameTooLong);
      }
      if config.performanceFeeBps > MAX_PERFORMANCE_FEE_BPS {
        return Err(FeeTooHigh);
      }
      if config.managementFeeBps > MAX_MANAGEMENT_FEE_BPS {
        return Err(FeeTooHigh);
      }
      var nameBytes := name + seq(NAME_LENGTH - |name|, _ => 0 as bv8);
      var vault := new VaultAccount(nameBytes, admin, manager, config, now, asset, lp);
      assert InitialVault(admin, manager, config, now) == Ok(vault.State());
      return Ok(vault);
    }

    /** What the shares are worth: the total less the profit still locked. */
    function EffectiveTotalAssets(now: Timestamp): (r: U64)
      reads this
      ensures r <= totalAssets
      ensures lockedProfitTs <= now ==> r == SaturatingSub(totalAssets, Locked(State(), now))
      ensures lockedProfitTs <= now < lockedProfitTs + config.lockedProfitDegradation && lockedProfit <= totalAssets ==>
                var d, rest := config.lockedProfitDegradation, lockedProfitTs + config.lockedProfitDegradation - now;
                (totalAssets - r) * d <= lockedProfit * rest < (totalAssets - r + 1) * d
    {
      UnlockedSoFar(State(), now);
      if lockedProfit == 0 || config.lockedProfitDegradation == 0 then totalAssets
      else
        var elapsed := Elapsed(now, lockedProfitTs);
        if elapsed >= config.lockedProfitDegradation then totalAssets
        else
          var remaining := Truncate(MulDiv(lockedProfit, config.lockedProfitDegradation - elapsed,
                                           config.lockedProfitDegradation));
          SaturatingSub(totalAssets, remaining)
    }

    /** The checks and the share arithmetic of a deposit. */
    method PriceDeposit(now: Timestamp, amount: U64) returns (r: Result<DepositQuote>)
      ensures r == QuoteDeposit(State(), now, amount)
    {
      if amount == 0 {
        return Err(ZeroAmount);
      }
      if totalAssets + amount >= U64_LIMIT {
        return Err(Panic);
      }
      if totalAssets + amount > config.maxCap {
        return Err(MaxCapExceeded);
      }

      var lpToMint: U64 := amount;
      if lpSupply != 0 {
        var effective := EffectiveTotalAssets(now);
        if effective == 0 {
          return Err(Panic);
        }
        lpToMint := Truncate(MulDiv(amount, lpSupply, effective));
      }
      if lpToMint == 0 {
        return Err(ZeroLpTokens);
      }

      var feeLp: U64 := 0;
      if config.depositFeeBps > 0 {
        feeLp := BpsOf(lpToMint, config.depositFeeBps);
      } else {
        ZeroBps(lpToMint);
      }
      if feeLp > lpToMint {
        return Err(Panic);
      }
      return Ok(DepositQuote(lpToMint - feeLp, feeLp));
    }

    /** Takes `amount` assets from the user and mints the user `minted` shares, or does neither. */
    method PayIn(user: nat, amount: U64, minted: U64) returns (ok: bool)
      requires asset != lp
      modifies asset, lp
      ensures var paid := old(asset.ledger).Transfer(user, VAULT_ACCOUNT, amount);
              var credited := old(lp.ledger).MintTo(user, minted);
              && ok == (paid.Some? && credited.Some?)
              && asset.ledger == (if ok then paid.value else old(asset.ledger))
              && lp.ledger == (if ok then credited.value else old(lp.ledger))
    {
      var assetBefore := asset.ledger;
      ok := asset.Transfer(user, VAULT_ACCOUNT, amount);
      if ok {
        ok := lp.MintTo(user, minted);
        if !ok {
          asset.ledger := assetBefore;
        }
      }
    }

    /** Burns `burned` shares of the user and pays the user `payout` assets, or does neither. */
    method PayOut(user: nat, burned: U64, payout: U64) returns (ok: bool)
      requires asset != lp
      modifies asset, lp
      ensures var debited := old(lp.ledger).Burn(user, burned);
              var paid := old(asset.ledger).Transfer(VAULT_ACCOUNT, user, payout);
              && ok == (debited.Some? && paid.Some?)
              && asset.ledger == (if ok then paid.value else old(asset.ledger))
              && lp.ledger == (if ok then debited.value else old(lp.ledger))
    {
      var lpBefore := lp.ledger;
      ok := lp.Burn(user, burned);
      if ok {
        ok := asset.Transfer(VAULT_ACCOUNT, user, payout);
        if !ok {
          lp.ledger := lpBefore;
        }
      }
    }

    method SettleDeposit(now: Timestamp, user: nat, amount: U64, quote: DepositQuote) returns (r: Result<()>)
      requires Valid()
      modifies this, asset, lp
      ensures Valid() && strategies == old(strategies)
      ensures var result := VaultModel.SettleDeposit(old(Snapshot(now)), user, amount, quote);
              r == Status(result) && Snapshot(now) == Commit(old(Snapshot(now)), result)
    {
      var assetBefore, lpBefore := asset.ledger, lp.ledger;
      var ok := PayIn(user, amount, quote.minted);
      if !ok {
        return Err(TokenFailure);
      }
      if totalAssets + amount >= U64_LIMIT || idleAssets + amount >= U64_LIMIT
         || lpSupply + quote.minted >= U64_LIMIT || accumulatedFees + quote.fee >= U64_LIMIT {
        asset.ledger := assetBefore;
        lp.ledger := lpBefore;
        return Err(Panic);
      }
      totalAssets := totalAssets + amount;
      idleAssets := idleAssets + amount;
      lpSupply := lpSupply + quote.minted;
      accumulatedFees := accumulatedFees + quote.fee;
      return Ok(());
    }

    method Deposit(now: Timestamp, user: nat, amount: U64) returns (r: Result<()>)
      requires Valid()
      modifies this, asset, lp
      ensures Valid() && strategies == old(strategies)
      ensures r == Status(VaultModel.Deposit(old(Snapshot(now)), user, amount))
      ensures Snapshot(now) == Commit(old(Snapshot(now)), VaultModel.Deposit(old(Snapshot(now)), user, amount))
    {
      if !active {
        return Err(VaultInactive);
      }
      if user == VAULT_ACCOUNT || !asset.ledger.Has(user) || !lp.ledger.Has(user) {
        return Err(InvalidAccount);
      }
      var quote :- PriceDeposit(now, amount);
      r := SettleDeposit(now, user, amount, quote);
    }

    /** The checks and the asset arithmetic of a withdrawal. */
    method PriceWithdrawal(now: Timestamp, lpAmount: U64) returns (r: Result<WithdrawQuote>)
      ensures r == QuoteWithdrawal(State(), now, lpAmount)
    {
      if config.withdrawalWaitPeriod != 0 {
        return Err(InstantWithdrawNotAllowed);
      }
      if lpAmount == 0 {
        return Err(ZeroAmount);
      }

      var effective := EffectiveTotalAssets(now);
      if lpSupply == 0 {
        return Err(Panic);
      }
      var assetsToReturn := Truncate(MulDiv(lpAmount, effective, lpSupply));

      var fee: U64 := 0;
      if config.withdrawalFeeBps > 0 {
        fee := BpsOf(assetsToReturn, config.withdrawalFeeBps);
      } else {
        ZeroBps(assetsToReturn);
      }
      if fee > assetsToReturn {
        return Err(Panic);
      }
      var assetsAfterFee: U64 := assetsToReturn - fee;
      if assetsAfterFee > idleAssets {
        return Err(InsufficientIdle);
      }
      return Ok(WithdrawQuote(assetsToReturn, assetsAfterFee));
    }

    method SettleWithdrawal(now: Timestamp, user: nat, lpAmount: U64, quote: WithdrawQuote) returns (r: Result<()>)
      requires Valid()
      modifies this, asset, lp
      ensures Valid() && strategies == old(strategies)
      ensures var result := VaultModel.SettleWithdrawal(old(Snapshot(now)), user, lpAmount, quote);
              r == Status(result) && Snapshot(now) == Commit(old(Snapshot(now)), result)
    {
      var assetBefore, lpBefore := asset.ledger, lp.ledger;
      var ok := PayOut(user, lpAmount, quote.payout);
      if !ok {
        return Err(TokenFailure);
      }
      if quote.assets > totalAssets || quote.payout > idleAssets || lpAmount > lpSupply {
        asset.ledger := assetBefore;
        lp.ledger := lpBefore;
        return Err(Panic);
      }
      totalAssets := totalAssets - quote.assets;
      idleAssets := idleAssets - quote.payout;
      lpSupply := lpSupply - lpAmount;
      return Ok(());
    }

    method InstantWithdraw(now: Timestamp, user: nat, lpAmount: U64) returns (r: Result<()>)
      requires Valid()
      modifies this, asset, lp
      ensures Valid() && strategies == old(strategies)
      ensures r == Status(VaultModel.InstantWithdraw(old(Snapshot(now)), user, lpAmount))
      ensures Snapshot(now) == Commit(old(Snapshot(now)),
                                      VaultModel.InstantWithdraw(old(Snapshot(now)), user, lpAmount))
    {
      if user == VAULT_ACCOUNT || !asset.ledger.Has(user) || !lp.ledger.Has(user) {
        return Err(InvalidAccount);
      }
      var quote :- PriceWithdrawal(now, lpAmount);
      r := SettleWithdrawal(now, user, lpAmount, quote);
    }

    method AddStrategy(now: Timestamp, caller: nat) returns (r: Result<()>)
      requires Valid()
      modifies this
      ensures Valid()
      ensures r == Status(VaultModel.AddStrategy(old(Snapshot(now)), caller))
      ensures Snapshot(now) == Commit(old(Snapshot(now)), VaultModel.AddStrategy(old(Snapshot(now)), caller))
      ensures old(strategies) <= strategies && fresh(strategies[|old(strategies)|..])
    {
      if caller != admin {
        return Err(Unauthorized);
      }
      if |strategies| >= MAX_STRATEGIES {
        return Err(MaxStrategies);
      }
      var strategy := new StrategyAccount(now);
      strategies := strategies + [strategy];
      return Ok(());
    }

    method Allocate(now: Timestamp, caller: nat, index: nat, amount: U64) returns (r: Result<()>)
      requires Valid()
      modifies this, strategies
      ensures Valid() && strategies == old(strategies)
      ensures r == Status(VaultModel.Allocate(old(Snapshot(now)), caller, index, amount))
      ensures Snapshot(now) == Commit(old(Snapshot(now)),
                                      VaultModel.Allocate(old(Snapshot(now)), caller, index, amount))
    {
      if index >= |strategies| {
        return Err(InvalidStrategy);
      }
      var strategy := strategies[index];
      if !strategy.active {
        return Err(StrategyInactive);
      }
      if caller != manager {
        return Err(Unauthorized);
      }
      if amount == 0 {
        return Err(ZeroAmount);
      }
      if amount > idleAssets {
        return Err(InsufficientIdle);
      }
      if strategy.positionValue + amount >= U64_LIMIT || strategy.totalAllocated + amount >= U64_LIMIT {
        return Err(Panic);
      }
      idleAssets := idleAssets - amount;
      strategy.positionValue := strategy.positionValue + amount;
      strategy.totalAllocated := strategy.totalAllocated + amount;
      strategy.lastUpdateTs := now;
      return Ok(());
    }

    method Deallocate(now: Timestamp, caller: nat, index: nat, amount: U64) returns (r: Result<()>)
      requires Valid()
      modifies this, strategies
      ensures Valid() && strategies == old(strategies)
      ensures r == Status(VaultModel.Deallocate(old(Snapshot(now)), caller, index, amount))
      ensures Snapshot(now) == Commit(old(Snapshot(now)),
                                      VaultModel.Deallocate(old(Snapshot(now)), caller, index, amount))
    {
      if index >= |strategies| {
        return Err(InvalidStrategy);
      }
      var strategy := strategies[index];
      if !strategy.active {
        return Err(StrategyInactive);
      }
      if caller != manager {
        return Err(Unauthorized);
      }
      if amount == 0 {
        return Err(ZeroAmount);
      }
      if amount > strategy.positionValue {
        return Err(InsufficientStrategyBalance);
      }
      if idleAssets + amount >= U64_LIMIT {
        return Err(Panic);
      }
      strategy.positionValue := strategy.positionValue - amount;
      strategy.lastUpdateTs := now;
      idleAssets := idleAssets + amount;
      return Ok(());
    }

    method ReportYield(now: Timestamp, caller: nat, index: nat, newPositionValue: U64) returns (r: Result<()>)
      requires Valid()
      modifies this, strategies
      ensures Valid() && strategies == old(strategies)
      ensures r == Status(VaultModel.ReportYield(old(Snapshot(now)), caller, index, newPositionValue))
      ensures Snapshot(now)
              == Commit(old(Snapshot(now)), VaultModel.ReportYield(old(Snapshot(now)), caller, index, newPositionValue))
    {
      if index >= |strategies| {
        return Err(InvalidStrategy);
      }
      if caller != manager {
        return Err(Unauthorized);
      }
      var strategy := strategies[index];
      var oldValue := strategy.positionValue;
      if newPositionValue > oldValue {
        var profit := newPositionValue - oldValue;
        if totalAssets + profit >= U64_LIMIT || lockedProfit + profit >= U64_LIMIT {
          return Err(Panic);
        }
        totalAssets := totalAssets + profit;
        lockedProfit := lockedProfit + profit;
        lockedProfitTs := now;
      } else if newPositionValue < oldValue {
        totalAssets := SaturatingSub(totalAssets, oldValue - newPositionValue);
      }
      strategy.positionValue := newPositionValue;
      strategy.lastUpdateTs := now;
      return Ok(());
    }

    /** The management and performance fees due, and the shares they are worth. */
    method PriceFees(now: Timestamp) returns (r: Result<FeeQuote>)
      ensures r == QuoteFees(State(), now)
    {
      var elapsed := Elapsed(now, lastFeeHarvestTs);
      var effective := EffectiveTotalAssets(now);

      var managementFee: U64 := 0;
      var annualFee := MulDiv(effective, config.managementFeeBps, BPS_DENOMINATOR);
      if config.managementFeeBps > 0 && elapsed > 0 {
        if annualFee * elapsed >= U128_LIMIT {
          return Err(Panic);
        }
        managementFee := Truncate(MulDiv(annualFee, elapsed, SECONDS_PER_YEAR));
      } else {
        NoManagementFee(effective, annualFee, elapsed);
      }

      var currentRatio := AssetPerShare(State(), now);
      var performanceFee: U64 := 0;
      if currentRatio > highWaterMark {
        var excess := currentRatio - highWaterMark;
        var profitValue := MulDiv(excess, lpSupply, PRECISION);
        if config.performanceFeeBps > 0 {
          performanceFee := Truncate(MulDiv(profitValue, config.performanceFeeBps, BPS_DENOMINATOR));
        } else {
          assert MulDiv(profitValue, 0, BPS_DENOMINATOR) == 0;
        }
      }

      if managementFee + performanceFee >= U64_LIMIT {
        return Err(Panic);
      }
      var totalFee: U64 := managementFee + performanceFee;
      var feeLp := totalFee;
      if lpSupply > 0 && effective > 0 {
        feeLp := Truncate(MulDiv(totalFee, lpSupply, effective));
      }
      return Ok(FeeQuote(totalFee, feeLp, currentRatio));
    }

    method SettleFees(now: Timestamp, quote: FeeQuote) returns (r: Result<()>)
      requires Valid()
      modifies this, lp
      ensures Valid() && strategies == old(strategies)
      ensures var result := VaultModel.SettleFees(old(Snapshot(now)), quote);
              r == Status(result) && Snapshot(now) == Commit(old(Snapshot(now)), result)
    {
      var lpBefore := lp.ledger;
      var ok := lp.MintTo(admin, quote.shares);
      if !ok {
        return Err(TokenFailure);
      }
      if lpSupply + quote.shares >= U64_LIMIT || accumulatedFees + quote.fee >= U64_LIMIT {
        lp.ledger := lpBefore;
        return Err(Panic);
      }
      lpSupply := lpSupply + quote.shares;
      lastFeeHarvestTs := now;
      accumulatedFees := accumulatedFees + quote.fee;
      if quote.ratio > highWaterMark {
        highWaterMark := quote.ratio;
      }
      return Ok(());
    }

    method HarvestFees(now: Timestamp, caller: nat) returns (r: Result<()>)
      requires Valid()
      modifies this, lp
      ensures Valid() && strategies == old(strategies)
      ensures r == Status(VaultModel.HarvestFees(old(Snapshot(now)), caller))
      ensures Snapshot(now) == Commit(old(Snapshot(now)), VaultModel.HarvestFees(old(Snapshot(now)), caller))
    {
      if !lp.ledger.Has(caller) {
        return Err(InvalidAccount);
      }
      if caller != admin {
        return Err(Unauthorized);
      }
      var quote :- PriceFees(now);
      if quote.fee == 0 {
        return Ok(());
      }
      r := SettleFees(now, quote);
    }

    method RemoveStrategy(now: Timestamp, caller: nat, index: nat) returns (r: Result<()>)
      requires Valid()
      modifies strategies
      ensures Valid() && strategies == old(strategies)
      ensures r == Status(VaultModel.RemoveStrategy(old(Snapshot(now)), caller, index))
      ensures Snapshot(now) == Commit(old(Snapshot(now)), VaultModel.RemoveStrategy(old(Snapshot(now)), caller, index))
    {
      if caller != admin {
        return Err(Unauthorized);
      }
      if index >= |strategies| {
        return Err(InvalidStrategy);
      }
      if strategies[index].positionValue != 0 {
        return Err(StrategyNotEmpty);
      }
      strategies[index].active := false;
      return Ok(());
    }

    method UpdateConfig(now: Timestamp, caller: nat, newConfig: Config) returns (r: Result<()>)
      requires Valid()
      modifies this
      ensures Valid() && strategies == old(strategies)
      ensures r == Status(VaultModel.UpdateConfig(old(Snapshot(now)), caller, newConfig))
      ensures Snapshot(now) == Commit(old(Snapshot(now)),
                                      VaultModel.UpdateConfig(old(Snapshot(now)), caller, newConfig))
    {
      if caller != admin {
        return Err(Unauthorized);
      }
      if newConfig.performanceFeeBps > MAX_PERFORMANCE_FEE_BPS {
        return Err(FeeTooHigh);
      }
      config := newConfig;
      return Ok(());
    }

    method SetActive(now: Timestamp, caller: nat, isActive: bool) returns (r: Result<()>)
      requires Valid()
      modifies this
      ensures Valid() && strategies == old(strategies)
      ensures r == Status(VaultModel.SetActive(old(Snapshot(now)), caller, isActive))
      ensures Snapshot(now) == Commit(old(Snapshot(now)), VaultModel.SetActive(old(Snapshot(now)), caller, isActive))
    {
      if caller != admin {
        return Err(Unauthorized);
      }
      active := isActive;
      return Ok(());
    }
  }

  lemma NoManagementFee(effective: nat, annual: nat, elapsed: nat)
    ensures MulDiv(effective, 0, BPS_DENOMINATOR) == 0
    ensures annual * 0 == 0 && 0 * elapsed == 0
    ensures MulDiv(annual, 0, SECONDS_PER_YEAR) == 0 == MulDiv(0, elapsed, SECONDS_PER_YEAR)
  {
  }
}
