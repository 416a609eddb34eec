/** The vault program as a state machine: what each instruction does to the accounts it names. */
module VaultModel {
  import opened Machine
  import opened Token

  const PRECISION: nat := 1_000_000_000_000_000_000
  const BPS_DENOMINATOR: nat := 10_000
  const MAX_STRATEGIES: nat := 10
  const SECONDS_PER_YEAR: nat := 31_536_000
  const MAX_PERFORMANCE_FEE_BPS: nat := 5000
  const MAX_MANAGEMENT_FEE_BPS: nat := 1000

  /** Account 0 of the asset mint is the vault's own token account; its owner is a PDA and never signs. */
  const VAULT_ACCOUNT: nat := 0

  datatype Error =
    | NameTooLong
    | FeeTooHigh
    | VaultInactive
    | ZeroAmount
    | MaxCapExceeded
    | ZeroLpTokens
    | InsufficientIdle
    | InstantWithdrawNotAllowed
    | Unauthorized
    | MaxStrategies
    | StrategyInactive
    | InvalidAccount
    | InvalidLpMint
    | InvalidStrategy
    | StrategyNotEmpty
    | InsufficientStrategyBalance
    | TokenFailure
    | Panic

  datatype Result<+T> = Ok(value: T) | Err(error: Error) {
    predicate IsFailure() {
      Err?
    }

    function PropagateFailure<U>(): Result<U>
      requires Err?
    {
      Err(error)
    }

    function Extract(): T
      requires Ok?
    {
      value
    }
  }

  datatype Config = Config(
    maxCap: U64,
    performanceFeeBps: U16,
    managementFeeBps: U16,
    depositFeeBps: U16,
    withdrawalFeeBps: U16,
    lockedProfitDegradation: U64,
    withdrawalWaitPeriod: U64)

  datatype Strategy = Strategy(positionValue: U64, totalAllocated: U64, active: bool, lastUpdateTs: Timestamp)

  datatype Vault = Vault(
    admin: nat,
    manager: nat,
    config: Config,
    totalAssets: U64,
    idleAssets: U64,
    lpSupply: U64,
    highWaterMark: U128,
    lastFeeHarvestTs: Timestamp,
    lockedProfit: U64,
    lockedProfitTs: Timestamp,
    accumulatedFees: U64,
    active: bool)

  /** Everything an instruction can read or write: the vault, its strategies, both mints and the clock. */
  datatype World = World(vault: Vault, strategies: seq<Strategy>, asset: Ledger, lp: Ledger, now: Timestamp)

  function InitialVault(admin: nat, manager: nat, config: Config, now: Timestamp): Result<Vault> {
    if config.performanceFeeBps > MAX_PERFORMANCE_FEE_BPS then Err(FeeTooHigh)
    else if config.managementFeeBps > MAX_MANAGEMENT_FEE_BPS then Err(FeeTooHigh)
    else Ok(Vault(admin, manager, config, 0, 0, 0, PRECISION, now, 0, now, 0, true))
  }

  // ---- Share price ----

  /** The part of `locked` that is still locked after `elapsed` of `degradation` seconds. */
  function StillLocked(locked: nat, degradation: nat, elapsed: nat): (r: nat)
    ensures r <= locked
  {
    if elapsed >= degradation then 0
    else
      MulDivAtMost(locked, degradation - elapsed, degradation, locked);
      MulDiv(locked, degradation - elapsed, degradation)
  }

  function EffectiveAssets(v: Vault, now: Timestamp): U64 {
    if v.lockedProfit == 0 || v.config.lockedProfitDegradation == 0 then v.totalAssets
    else
      var elapsed := Elapsed(now, v.lockedProfitTs);
      if elapsed >= v.config.lockedProfitDegradation then v.totalAssets
      else SaturatingSub(v.totalAssets,
                         Truncate(MulDiv(v.lockedProfit, v.config.lockedProfitDegradation - elapsed,
                                         v.config.lockedProfitDegradation)))
  }

  function BpsOf(amount: U64, bps: U16): U64 {
    Truncate(MulDiv(amount, bps, BPS_DENOMINATOR))
  }

  // ---- Users ----

  /** The shares a deposit is worth before the deposit fee. */
  function DepositShares(v: Vault, now: Timestamp, amount: U64): Result<U64> {
    if v.lpSupply == 0 then Ok(amount)
    else
      var effective := EffectiveAssets(v, now);
      if effective == 0 then Err(Panic)
      else Ok(Truncate(MulDiv(amount, v.lpSupply, effective)))
  }

  datatype DepositQuote = DepositQuote(minted: U64, fee: U64)

  /** What a deposit mints to the user, and the shares withheld as a fee. */
  function QuoteDeposit(v: Vault, now: Timestamp, amount: U64): Result<DepositQuote> {
    if amount == 0 then Err(ZeroAmount)
    else if v.totalAssets + amount >= U64_LIMIT then Err(Panic)
    else if v.totalAssets + amount > v.config.maxCap then Err(MaxCapExceeded)
    else
      var shares :- DepositShares(v, now, amount);
      if shares == 0 then Err(ZeroLpTokens)
      else
        var fee := BpsOf(shares, v.config.depositFeeBps);
        if fee > shares then Err(Panic) else Ok(DepositQuote(shares - fee, fee))
  }

  /** Moves the tokens of a priced deposit and books it. */
  function SettleDeposit(w: World, user: nat, amount: U64, quote: DepositQuote): Result<World> {
    var v := w.vault;
    var asset := w.asset.Transfer(user, VAULT_ACCOUNT, amount);
    var lp := w.lp.MintTo(user, quote.minted);
    if asset.None? || lp.None? then Err(TokenFailure)
    else if v.totalAssets + amount >= U64_LIMIT || v.idleAssets + amount >= U64_LIMIT
            || v.lpSupply + quote.minted >= U64_LIMIT || v.accumulatedFees + quote.fee >= U64_LIMIT then Err(Panic)
    else Ok(w.(asset := asset.value, lp := lp.value, vault := v.(
               totalAssets := v.totalAssets + amount,
               idleAssets := v.idleAssets + amount,
               lpSupply := v.lpSupply + quote.minted,
               accumulatedFees := v.accumulatedFees + quote.fee)))
  }

  function Deposit(w: World, user: nat, amount: U64): Result<World> {
    if !w.vault.active then Err(VaultInactive)
    else if user == VAULT_ACCOUNT || !w.asset.Has(user) || !w.lp.Has(user) then Err(InvalidAccount)
    else
      var quote :- QuoteDeposit(w.vault, w.now, amount);
      SettleDeposit(w, user, amount, quote)
  }

  /** The assets that `shares` are worth before the withdrawal fee. */
  function RedemptionValue(v: Vault, now: Timestamp, shares: U64): Result<U64> {
    if v.lpSupply == 0 then Err(Panic)
    else Ok(Truncate(MulDiv(shares, EffectiveAssets(v, now), v.lpSupply)))
  }

  datatype WithdrawQuote = WithdrawQuote(assets: U64, payout: U64)

  /** What a withdrawal takes off the books, and what of it is paid out after the fee. */
  function QuoteWithdrawal(v: Vault, now: Timestamp, shares: U64): Result<WithdrawQuote> {
    if v.config.withdrawalWaitPeriod != 0 then Err(InstantWithdrawNotAllowed)
    else if shares == 0 then Err(ZeroAmount)
    else
      var assets :- RedemptionValue(v, now, shares);
      var fee := BpsOf(assets, v.config.withdrawalFeeBps);
      if fee > assets then Err(Panic)
      else if assets - fee > v.idleAssets then Err(InsufficientIdle)
      else Ok(WithdrawQuote(assets, assets - fee))
  }

  /** Moves the tokens of a priced withdrawal and books it. */
  function SettleWithdrawal(w: World, user: nat, shares: U64, quote: WithdrawQuote): Result<World> {
    var v := w.vault;
    var lp := w.lp.Burn(user, shares);
    var asset := w.asset.Transfer(VAULT_ACCOUNT, user, quote.payout);
    if lp.None? || asset.None? then Err(TokenFailure)
    else if quote.assets > v.totalAssets || quote.payout > v.idleAssets || shares > v.lpSupply then Err(Panic)
    else Ok(w.(asset := asset.value, lp := lp.value, vault := v.(
               totalAssets := v.totalAssets - quote.assets,
               idleAssets := v.idleAssets - quote.payout,
               lpSupply := v.lpSupply - shares)))
  }

  function InstantWithdraw(w: World, user: nat, shares: U64): Result<World> {
    if user == VAULT_ACCOUNT || !w.asset.Has(user) || !w.lp.Has(user) then Err(InvalidAccount)
    else
      var quote :- QuoteWithdrawal(w.vault, w.now, shares);
      SettleWithdrawal(w, user, shares, quote)
  }

  // ---- Strategies ----

  function AddStrategy(w: World, caller: nat): Result<World> {
    if caller != w.vault.admin then Err(Unauthorized)
    else if |w.strategies| >= MAX_STRATEGIES then Err(MaxStrategies)
    else Ok(w.(strategies := w.strategies + [Strategy(0, 0, true, w.now)]))
  }

  function Allocate(w: World, caller: nat, index: nat, amount: U64): Result<World> {
    if index >= |w.strategies| then Err(InvalidStrategy)
    else
      var v, s := w.vault, w.strategies[index];
      if !s.active then Err(StrategyInactive)
      else if caller != v.manager then Err(Unauthorized)
      else if amount == 0 then Err(ZeroAmount)
      else if amount > v.idleAssets then Err(InsufficientIdle)
      else if s.positionValue + amount >= U64_LIMIT || s.totalAllocated + amount >= U64_LIMIT then Err(Panic)
      else Ok(w.(
              vault := v.(idleAssets := v.idleAssets - amount),
              strategies := w.strategies[index :=
                Strategy(s.positionValue + amount, s.totalAllocated + amount, true, w.now)]))
  }

  function Deallocate(w: World, caller: nat, index: nat, amount: U64): Result<World> {
    if index >= |w.strategies| then Err(InvalidStrategy)
    else
      var v, s := w.vault, w.strategies[index];
      if !s.active then Err(StrategyInactive)
      else if caller != v.manager then Err(Unauthorized)
      else if amount == 0 then Err(ZeroAmount)
      else if amount > s.positionValue then Err(InsufficientStrategyBalance)
      else if v.idleAssets + amount >= U64_LIMIT then Err(Panic)
      else Ok(w.(
              vault := v.(idleAssets := v.idleAssets + amount),
              strategies := w.strategies[index :=
                s.(positionValue := s.positionValue - amount, lastUpdateTs := w.now)]))
  }

  function ReportYield(w: World, caller: nat, index: nat, newValue: U64): Result<World> {
    if index >= |w.strategies| then Err(InvalidStrategy)
    else if caller != w.vault.manager then Err(Unauthorized)
    else
      var v, s := w.vault, w.strategies[index];
      var strategies := w.strategies[index := s.(positionValue := newValue, lastUpdateTs := w.now)];
      if newValue > s.positionValue then
        var profit := newValue - s.positionValue;
        if v.totalAssets + profit >= U64_LIMIT || v.lockedProfit + profit >= U64_LIMIT then Err(Panic)
        else Ok(w.(strategies := strategies, vault := v.(
                   totalAssets := v.totalAssets + profit,
                   lockedProfit := v.lockedProfit + profit,
                   lockedProfitTs := w.now)))
      else
        var loss := s.positionValue - newValue;
        Ok(w.(strategies := strategies, vault := v.(totalAssets := SaturatingSub(v.totalAssets, loss))))
  }

  function RemoveStrategy(w: World, caller: nat, index: nat): Result<World> {
    if caller != w.vault.admin then Err(Unauthorized)
    else if index >= |w.strategies| then Err(InvalidStrategy)
    else if w.strategies[index].positionValue != 0 then Err(StrategyNotEmpty)
    else Ok(w.(strategies := w.strategies[index := w.strategies[index].(active := false)]))
  }

  // ---- Fees ----

  /** The annual fee on effective assets for the time since the last harvest. */
  function ManagementFee(v: Vault, now: Timestamp): Result<U64> {
    var elapsed := Elapsed(now, v.lastFeeHarvestTs);
    var annual := MulDiv(EffectiveAssets(v, now), v.config.managementFeeBps, BPS_DENOMINATOR);
    if annual * elapsed >= U128_LIMIT then Err(Panic)
    else Ok(Truncate(MulDiv(annual, elapsed, SECONDS_PER_YEAR)))
  }

  lemma ScaledFits(assets: U64, shares: nat)
    requires shares > 0
    ensures MulDiv(assets, PRECISION, shares) < U128_LIMIT
  {
    MulLe(1, shares, assets * PRECISION);
    MulDivAtMost(assets, PRECISION, shares, assets * PRECISION);
  }

  /** Effective assets for one share, scaled by PRECISION. */
  function AssetPerShare(v: Vault, now: Timestamp): U128 {
    if v.lpSupply == 0 then PRECISION
    else
      ScaledFits(EffectiveAssets(v, now), v.lpSupply);
      MulDiv(EffectiveAssets(v, now), PRECISION, v.lpSupply)
  }

  /** The fee on the value by which the share price exceeds the high water mark. */
  function PerformanceFee(v: Vault, now: Timestamp): U64 {
    var ratio := AssetPerShare(v, now);
    if ratio > v.highWaterMark then
      var profit := MulDiv(ratio - v.highWaterMark, v.lpSupply, PRECISION);
      Truncate(MulDiv(profit, v.config.performanceFeeBps, BPS_DENOMINATOR))
    else 0
  }

  /** The shares minted to the admin for a fee of `fee` assets. */
  function FeeShares(v: Vault, now: Timestamp, fee: U64): U64 {
    var effective := EffectiveAssets(v, now);
    if v.lpSupply > 0 && effective > 0 then Truncate(MulDiv(fee, v.lpSupply, effective)) else fee
  }

  datatype FeeQuote = FeeQuote(fee: U64, shares: U64, ratio: U128)

  /** The fee due in assets, the shares minted for it and the share price it was computed at. */
  function QuoteFees(v: Vault, now: Timestamp): Result<FeeQuote> {
    var management :- ManagementFee(v, now);
    var fee := management + PerformanceFee(v, now);
    if fee >= U64_LIMIT then Err(Panic) else Ok(FeeQuote(fee, FeeShares(v, now, fee), AssetPerShare(v, now)))
  }

  /** Mints the shares of a nonzero fee and books it. */
  function SettleFees(w: World, quote: FeeQuote): Result<World> {
    var v := w.vault;
    var lp := w.lp.MintTo(v.admin, quote.shares);
    if lp.None? then Err(TokenFailure)
    else if v.lpSupply + quote.shares >= U64_LIMIT || v.accumulatedFees + quote.fee >= U64_LIMIT then Err(Panic)
    else Ok(w.(lp := lp.value, vault := v.(
               lpSupply := v.lpSupply + quote.shares,
               lastFeeHarvestTs := w.now,
               accumulatedFees := v.accumulatedFees + quote.fee,
               highWaterMark := if quote.ratio > v.highWaterMark then quote.ratio else v.highWaterMark)))
  }

  function HarvestFees(w: World, caller: nat): Result<World> {
    if !w.lp.Has(caller) then Err(InvalidAccount)
    else if caller != w.vault.admin then Err(Unauthorized)
    else
      var quote :- QuoteFees(w.vault, w.now);
      if quote.fee == 0 then Ok(w) else SettleFees(w, quote)
  }

  // ---- Configuration ----

  function UpdateConfig(w: World, caller: nat, config: Config): Result<World> {
    if caller != w.vault.admin then Err(Unauthorized)
    else if config.performanceFeeBps > MAX_PERFORMANCE_FEE_BPS then Err(FeeTooHigh)
    else Ok(w.(vault := w.vault.(config := config)))
  }

  function SetActive(w: World, caller: nat, active: bool): Result<World> {
    if caller != w.vault.admin then Err(Unauthorized)
    else Ok(w.(vault := w.vault.(active := active)))
  }

  // ---- Runs ----

  /** One transaction of the vault program, one token transaction outside it, or the passing of time. */
  datatype Step =
    | DepositStep(user: nat, amount: U64)
    | WithdrawStep(user: nat, shares: U64)
    | AddStrategyStep(caller: nat)
    | AllocateStep(caller: nat, index: nat, amount: U64)
    | DeallocateStep(caller: nat, index: nat, amount: U64)
    | ReportStep(caller: nat, index: nat, newValue: U64)
    | RemoveStrategyStep(caller: nat, index: nat)
    | HarvestStep(caller: nat)
    | ConfigStep(caller: nat, config: Config)
    | SetActiveStep(caller: nat, active: bool)
    | TickStep(seconds: nat)
    | AssetTransferStep(from: nat, to: nat, amount: U64)
    | LpTransferStep(from: nat, to: nat, amount: U64)
    | LpBurnStep(from: nat, amount: U64)

  function Execute(w: World, step: Step): Result<World> {
    match step
    case DepositStep(user, amount) => Deposit(w, user, amount)
    case WithdrawStep(user, shares) => InstantWithdraw(w, user, shares)
    case AddStrategyStep(caller) => AddStrategy(w, caller)
    case AllocateStep(caller, index, amount) => Allocate(w, caller, index, amount)
    case DeallocateStep(caller, index, amount) => Deallocate(w, caller, index, amount)
    case ReportStep(caller, index, newValue) => ReportYield(w, caller, index, newValue)
    case RemoveStrategyStep(caller, index) => RemoveStrategy(w, caller, index)
    case HarvestStep(caller) => HarvestFees(w, caller)
    case ConfigStep(caller, config) => UpdateConfig(w, caller, config)
    case SetActiveStep(caller, active) => SetActive(w, caller, active)
    case TickStep(seconds) =>
      if w.now + seconds < I64_LIMIT then Ok(w.(now := w.now + seconds)) else Err(Panic)
    case AssetTransferStep(from, to, amount) =>
      if from == VAULT_ACCOUNT then Err(Unauthorized)
      else
        var asset := w.asset.Transfer(from, to, amount);
        if asset.None? then Err(TokenFailure) else Ok(w.(asset := asset.value))
    case LpTransferStep(from, to, amount) =>
      var lp := w.lp.Transfer(from, to, amount);
      if lp.None? then Err(TokenFailure) else Ok(w.(lp := lp.value))
    case LpBurnStep(from, amount) =>
      var lp := w.lp.Burn(from, amount);
      if lp.None? then Err(TokenFailure) else Ok(w.(lp := lp.value))
  }

  /** A transaction that fails leaves every account as it was. */
  function Commit(w: World, result: Result<World>): World {
    if result.Ok? then result.value else w
  }

  function Apply(w: World, step: Step): World {
    Commit(w, Execute(w, step))
  }

  function Run(w: World, steps: seq<Step>): World
    decreases |steps|
  {
    if steps == [] then w else Run(Apply(w, steps[0]), steps[1..])
  }

  /** A vault just initialized over any balanced mints; its LP mint has no supply yet. */
  ghost predicate Initial(w: World) {
    && (exists config :: InitialVault(w.vault.admin, w.vault.manager, config, w.now) == Ok(w.vault))
    && w.strategies == []
    && w.asset.Balanced() && w.asset.Has(VAULT_ACCOUNT)
    && w.lp.Balanced() && w.lp.supply == 0
  }

  /** What every reachable vault satisfies, besides its ledger: no timestamp lies in the future. */
  predicate Timely(w: World) {
    w.vault.lockedProfitTs <= w.now && w.vault.lastFeeHarvestTs <= w.now
  }

  /** Fee and mark bounds that initialization and every instruction keep. */
  predicate FeesBounded(w: World) {
    w.vault.config.performanceFeeBps <= MAX_PERFORMANCE_FEE_BPS && w.vault.highWaterMark >= PRECISION
  }

  lemma StepKeepsTime(w: World, step: Step)
    requires Timely(w)
    ensures Timely(Apply(w, step)) && w.now <= Apply(w, step).now
  {
  }

  lemma StepKeepsFeeBounds(w: World, step: Step)
    requires FeesBounded(w)
    ensures FeesBounded(Apply(w, step)) && w.vault.highWaterMark <= Apply(w, step).vault.highWaterMark
  {
  }
}
