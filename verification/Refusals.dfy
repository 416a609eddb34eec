/** Which error a refused instruction reports: the first of its checks that fails, in the order of the program. */
module Refusals {
  import opened Machine
  import opened Token
  import opened VaultModel

  function DepositRefusal(w: World, user: nat, amount: U64): Error {
    var v, effective := w.vault, EffectiveAssets(w.vault, w.now);
    if !v.active then VaultInactive
    else if user == VAULT_ACCOUNT || !w.asset.Has(user) || !w.lp.Has(user) then InvalidAccount
    else if amount == 0 then ZeroAmount
    else if v.totalAssets + amount >= U64_LIMIT then Panic
    else if v.totalAssets + amount > v.config.maxCap then MaxCapExceeded
    else if v.lpSupply > 0 && effective == 0 then Panic
    else
      var shares := if v.lpSupply == 0 then amount else amount * v.lpSupply / effective % U64_LIMIT;
      var fee := shares * v.config.depositFeeBps / 10_000 % U64_LIMIT;
      if shares == 0 then ZeroLpTokens
      else if fee > shares then Panic
      else if w.asset.balances[user] < amount then TokenFailure
      else if w.asset.BalanceOf(VAULT_ACCOUNT) + amount >= U64_LIMIT || !w.asset.Has(VAULT_ACCOUNT) then TokenFailure
      else if w.lp.supply + (shares - fee) >= U64_LIMIT || w.lp.balances[user] + (shares - fee) >= U64_LIMIT then
        TokenFailure
      else Panic
  }

  function WithdrawalRefusal(w: World, user: nat, shares: U64): Error {
    var v := w.vault;
    if user == VAULT_ACCOUNT || !w.asset.Has(user) || !w.lp.Has(user) then InvalidAccount
    else if v.config.withdrawalWaitPeriod != 0 then InstantWithdrawNotAllowed
    else if shares == 0 then ZeroAmount
    else if v.lpSupply == 0 then Panic
    else
      var value := shares * EffectiveAssets(v, w.now) / v.lpSupply % U64_LIMIT;
      var fee := value * v.config.withdrawalFeeBps / 10_000 % U64_LIMIT;
      if fee > value then Panic
      else if value - fee > v.idleAssets then InsufficientIdle
      else if w.lp.balances[user] < shares || w.lp.supply < shares then TokenFailure
      else if w.asset.BalanceOf(VAULT_ACCOUNT) < value - fee || !w.asset.Has(VAULT_ACCOUNT)
              || w.asset.balances[user] + (value - fee) >= U64_LIMIT then TokenFailure
      else Panic
  }

  function HarvestRefusal(w: World, caller: nat): Error {
    if !w.lp.Has(caller) then InvalidAccount
    else if caller != w.vault.admin then Unauthorized
    else
      match QuoteFees(w.vault, w.now)
      case Err(_) => Panic
      case Ok(quote) => if w.lp.MintTo(caller, quote.shares).None? then TokenFailure else Panic
  }

  function OperatorRefusal(w: World, step: Step): Error {
    match step
    case AddStrategyStep(caller) => if caller != w.vault.admin then Unauthorized else MaxStrategies
    case AllocateStep(caller, i, amount) =>
      if i >= |w.strategies| then InvalidStrategy
      else if !w.strategies[i].active then StrategyInactive
      else if caller != w.vault.manager then Unauthorized
      else if amount == 0 then ZeroAmount
      else if amount > w.vault.idleAssets then InsufficientIdle
      else Panic
    case DeallocateStep(caller, i, amount) =>
      if i >= |w.strategies| then InvalidStrategy
      else if !w.strategies[i].active then StrategyInactive
      else if caller != w.vault.manager then Unauthorized
      else if amount == 0 then ZeroAmount
      else if amount > w.strategies[i].positionValue then InsufficientStrategyBalance
      else Panic
    case ReportStep(caller, i, _) =>
      if i >= |w.strategies| then InvalidStrategy
      else if caller != w.vault.manager then Unauthorized
      else Panic
    case RemoveStrategyStep(caller, i) =>
      if caller != w.vault.admin then Unauthorized
      else if i >= |w.strategies| then InvalidStrategy
      else StrategyNotEmpty
    case ConfigStep(caller, _) => if caller != w.vault.admin then Unauthorized else FeeTooHigh
    case SetActiveStep(_, _) => Unauthorized
    case _ => Panic
  }

  function Refusal(w: World, step: Step): Error {
    match step
    case DepositStep(user, amount) => DepositRefusal(w, user, amount)
    case WithdrawStep(user, shares) => WithdrawalRefusal(w, user, shares)
    case HarvestStep(caller) => HarvestRefusal(w, caller)
    case AssetTransferStep(from, _, _) => if from == VAULT_ACCOUNT then Unauthorized else TokenFailure
    case LpTransferStep(_, _, _) => TokenFailure
    case LpBurnStep(_, _) => TokenFailure
    case _ => OperatorRefusal(w, step)
  }

  lemma DepositRefused(w: World, user: nat, amount: U64)
    requires Deposit(w, user, amount).Err?
    ensures Deposit(w, user, amount).error == DepositRefusal(w, user, amount)
  {
  }

  lemma WithdrawalRefused(w: World, user: nat, shares: U64)
    requires InstantWithdraw(w, user, shares).Err?
    ensures InstantWithdraw(w, user, shares).error == WithdrawalRefusal(w, user, shares)
  {
  }

  lemma HarvestRefused(w: World, caller: nat)
    requires HarvestFees(w, caller).Err?
    ensures HarvestFees(w, caller).error == HarvestRefusal(w, caller)
  {
  }

  /** Every refused step changes nothing and reports the first check that it fails. */
  lemma RefusedStep(w: World, step: Step)
    requires Execute(w, step).Err?
    ensures Apply(w, step) == w && Execute(w, step).error == Refusal(w, step)
  {
    match step
    case DepositStep(user, amount) => DepositRefused(w, user, amount);
    case WithdrawStep(user, shares) => WithdrawalRefused(w, user, shares);
    case HarvestStep(caller) => HarvestRefused(w, caller);
    case _ =>
  }
}
