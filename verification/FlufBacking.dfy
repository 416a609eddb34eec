/** fT is backed by T on every run, and each flash loan makes it better backed. */
module FlufBacking {
  import opened Machine
  import opened Token
  import opened Fluf

  // ---- Invariants ----

  /** Outside a loan every fT is backed by at least one T; all tokens lie in some account. */
  predicate Backed(p: Pool) {
    p.Created() && p.token.Balanced() && p.fluf.Balanced() && p.fluf.supply <= p.Reserve()
  }

  lemma DepositKeepsBacking(p: Pool, user: nat, amount: U64)
    requires Backed(p) && Deposit(p, user, amount).Ok?
    ensures var p' := Deposit(p, user, amount).value;
            var minted := SharesFor(p, amount);
            && Backed(p')
            && p'.Reserve() == p.Reserve() + amount
            && p'.fluf.supply == p.fluf.supply + minted
            && minted * p.Reserve() <= amount * p.fluf.supply
            && minted <= amount
  {
    p.token.TransferBalanced(user, POOL, amount);
    p.fluf.MintBalanced(user, SharesFor(p, amount));
    if p.Reserve() > 0 {
      MulDivBounds(amount, p.fluf.supply, p.Reserve());
      MulLe(p.fluf.supply, p.Reserve(), amount);
      MulDivAtMost(amount, p.fluf.supply, p.Reserve(), amount);
    }
  }

  lemma WithdrawKeepsBacking(p: Pool, user: nat)
    requires Backed(p) && Withdraw(p, user).Ok?
    ensures var p' := Withdraw(p, user).value;
            var shares := p.fluf.balances[user];
            var paid := TokensFor(p, shares);
            && Backed(p')
            && p'.fluf.supply == p.fluf.supply - shares
            && p'.Reserve() == p.Reserve() - paid
            && (p.fluf.supply > 0 ==> paid == MulDiv(shares, p.Reserve(), p.fluf.supply))
            && paid * p.fluf.supply <= shares * p.Reserve()
  {
    var shares := p.fluf.balances[user];
    var reserve, supply := p.Reserve(), p.fluf.supply;
    p.fluf.BurnBalanced(user, shares);
    p.token.TransferBalanced(POOL, user, TokensFor(p, shares));
    ElementAtMostSum(p.fluf.balances, user);
    if supply > 0 {
      MulDivBounds(shares, reserve, supply);
      MulLe(shares, supply, reserve);
      MulDivAtMost(shares, reserve, supply, reserve);
      StaysBacked(reserve, supply, MulDiv(shares, reserve, supply), shares);
    }
  }

  /** Redeeming shares at the floored rate leaves at least one token for each remaining share. */
  lemma StaysBacked(reserve: nat, supply: nat, paid: nat, shares: nat)
    requires 0 < supply <= reserve && shares <= supply
    requires paid * supply <= shares * reserve
    ensures supply - shares <= reserve - paid
  {
    assert (reserve - paid) * supply == reserve * supply - paid * supply;
    assert reserve * (supply - shares) == reserve * supply - shares * reserve;
    MulLe(supply, reserve, supply - shares);
    MulCancel(supply - shares, reserve - paid, supply);
  }

  // ---- Callbacks ----

  /** What no callback can do: debit the pool's accounts or create fT. */
  predicate Harmless(before: Ledger, after: Ledger) {
    && (before.Balanced() ==> after.Balanced())
    && |after.balances| == |before.balances|
    && after.supply <= before.supply
    && (forall i :: 0 <= i < |before.balances| && PoolOwned(i) ==> before.balances[i] <= after.balances[i])
  }

  lemma PerformIsHarmless(fluf: Ledger, instruction: Instruction)
    requires Perform(fluf, instruction).Ok?
    ensures Harmless(fluf, Perform(fluf, instruction).value)
  {
    if fluf.Balanced() {
      match instruction
      case TransferFluf(from, to, amount) => fluf.TransferBalanced(from, to, amount);
      case BurnFluf(from, amount) => fluf.BurnBalanced(from, amount);
    }
  }

  lemma {:induction false} PerformAllIsHarmless(fluf: Ledger, instructions: seq<Instruction>)
    requires PerformAll(fluf, instructions).Ok?
    ensures Harmless(fluf, PerformAll(fluf, instructions).value)
    decreases |instructions|
  {
    if instructions == [] {
    } else {
      PerformIsHarmless(fluf, instructions[0]);
      PerformAllIsHarmless(Perform(fluf, instructions[0]).value, instructions[1..]);
    }
  }

  lemma CallIsHarmless(build: Arithmetic, borrower: Borrower, fluf: Ledger, account: nat, amount: U64)
    requires Call(build, borrower, fluf, account, amount).Ok?
    ensures Harmless(fluf, Call(build, borrower, fluf, account, amount).value)
  {
    match borrower
    case Sample =>
      if fluf.Balanced() {
        fluf.TransferBalanced(account, POOL, RepaymentOf(build, amount).value);
      }
    case Program(instructions) => PerformAllIsHarmless(fluf, instructions);
  }

  // ---- Settling a loan ----

  /** What makes a settlement succeed when `collected` fT were paid back. */
  predicate Settles(build: Arithmetic, amount: U64, collected: U64) {
    && RequiredFor(build, amount).Ok?
    && RequiredFor(build, amount).value <= collected
    && ProtocolFee(build, collected, amount).Ok?
    && ProtocolFee(build, collected, amount).value <= collected
  }

  lemma SettlesExactly(build: Arithmetic, fluf: Ledger, amount: U64)
    requires fluf.Balanced() && fluf.Has(POOL) && fluf.Has(FEES)
    ensures Settle(build, fluf, amount).Ok? <==> Settles(build, amount, fluf.balances[POOL])
  {
    var collected := fluf.balances[POOL];
    var fee := ProtocolFee(build, collected, amount);
    if fee.Ok? {
      fluf.Enough(POOL, FEES, fee.value);
      if fee.value <= collected {
        fluf.TransferBalanced(POOL, FEES, fee.value);
        fluf.Transfer(POOL, FEES, fee.value).value.Enough(POOL, FEES, collected - fee.value);
      }
    }
  }

  /** A settlement pays the protocol its fee, burns the rest of what was collected and empties the pool's fT account. */
  lemma SettleEffect(build: Arithmetic, fluf: Ledger, amount: U64)
    requires fluf.Balanced() && fluf.Has(POOL) && fluf.Has(FEES) && Settle(build, fluf, amount).Ok?
    ensures var after := Settle(build, fluf, amount).value;
            var collected := fluf.balances[POOL];
            && Settles(build, amount, collected)
            && var fee := ProtocolFee(build, collected, amount).value;
               && after.Balanced()
               && after.balances == fluf.balances[POOL := 0][FEES := fluf.balances[FEES] + fee]
               && after.supply == fluf.supply - (collected - fee)
  {
    var collected := fluf.balances[POOL];
    SettlesExactly(build, fluf, amount);
    var fee := ProtocolFee(build, collected, amount).value;
    fluf.TransferBalanced(POOL, FEES, fee);
    fluf.Transfer(POOL, FEES, fee).value.BurnBalanced(POOL, collected - fee);
  }

  /** A settlement burns at least the loan if and only if at least the loan was collected. */
  lemma BurnCoversLoan(build: Arithmetic, amount: U64, collected: U64)
    requires Settles(build, amount, collected)
    ensures collected - ProtocolFee(build, collected, amount).value >= amount <==> collected >= amount
    ensures collected >= amount ==> ProtocolFee(build, collected, amount).value == (collected - amount) / 200
  {
  }

  /** Amounts of which no loan can settle with less than the loan collected: all of them in a checked build; in a
      wrapping one those that the wrapped check still demands in full, and those too small for the wrapped surplus to
      leave an affordable fee. */
  predicate SafeAmount(build: Arithmetic, amount: U64) {
    || build.Checked?
    || amount <= (amount * 1025 % U64_LIMIT) / 1000
    || amount <= (U64_LIMIT - 1) / 200
  }

  lemma SafeAmountIsCollected(build: Arithmetic, amount: U64, collected: U64)
    requires SafeAmount(build, amount) && Settles(build, amount, collected)
    ensures collected >= amount
  {
  }

  /** Amounts for which the sample borrower never repays less than the loan: those whose repayment does not wrap. */
  predicate SafeSampleAmount(build: Arithmetic, amount: U64) {
    build.Checked? || amount + (amount * 25 % U64_LIMIT) / 1000 < U64_LIMIT
  }

  lemma SafeSampleAmountIsRepaid(build: Arithmetic, amount: U64)
    requires SafeSampleAmount(build, amount) && RepaymentOf(build, amount).Ok?
    ensures RepaymentOf(build, amount).value >= amount
  {
  }

  predicate SafeLoan(build: Arithmetic, borrower: Borrower, amount: U64) {
    match borrower
    case Sample => SafeSampleAmount(build, amount)
    case Program(_) => SafeAmount(build, amount)
  }

  // ---- Flash loans ----

  /** The fT ledger after the borrower was called. */
  function AfterCall(build: Arithmetic, p: Pool, borrower: Borrower, account: nat, amount: U64): Ledger
    requires LendAndCall(build, p, borrower, account, amount).Ok?
  {
    Call(build, borrower, p.fluf.MintTo(account, amount).value, account, amount).value
  }

  /** A committed flash loan leaves the T balance alone, moves exactly the protocol's fee to the fee account, empties
      the pool's fT account and cuts the supply by exactly the rest, plus whatever the borrower burned itself; nobody
      else's balance changes after the call. It leaves no more fT than before, beyond what the borrower burned, if and
      only if at least the loan was collected, and then the fee is a two-hundredth of the surplus. */
  lemma LoanEffect(build: Arithmetic, p: Pool, borrower: Borrower, account: nat, amount: U64)
    requires Backed(p) && LendAndCall(build, p, borrower, account, amount).Ok?
    ensures var p' := LendAndCall(build, p, borrower, account, amount).value;
            var called := AfterCall(build, p, borrower, account, amount);
            var collected := called.BalanceOf(POOL);
            var burned := p.fluf.supply + amount - called.supply;
            && p'.token == p.token && p'.Created() && p'.fluf.Balanced()
            && burned >= 0
            && called.Has(POOL) && called.Has(FEES)
            && Settles(build, amount, collected)
            && var fee := ProtocolFee(build, collected, amount).value;
               && p'.fluf.balances == called.balances[POOL := 0][FEES := called.balances[FEES] + fee]
               && p'.fluf.supply == p.fluf.supply + amount - burned - (collected - fee)
               && (p'.fluf.supply + burned <= p.fluf.supply <==> collected >= amount)
               && (collected >= amount ==> fee == (collected - amount) / 200 && Backed(p'))
               && (amount * 1025 < U64_LIMIT ==> collected - amount >= amount * 25 / 1000)
  {
    var minted := p.fluf.MintTo(account, amount).value;
    p.fluf.MintBalanced(account, amount);
    CallIsHarmless(build, borrower, minted, account, amount);
    var called := AfterCall(build, p, borrower, account, amount);
    SettleEffect(build, called, amount);
    BurnCoversLoan(build, amount, called.BalanceOf(POOL));
  }

  /** A committed safe loan leaves the pool backed and its supply no larger. */
  lemma SafeLoanKeepsBacking(build: Arithmetic, p: Pool, borrower: Borrower, account: nat, amount: U64)
    requires Backed(p) && SafeLoan(build, borrower, amount)
    requires LendAndCall(build, p, borrower, account, amount).Ok?
    ensures var p' := LendAndCall(build, p, borrower, account, amount).value;
            Backed(p') && p'.token == p.token && p'.fluf.supply <= p.fluf.supply
  {
    LoanEffect(build, p, borrower, account, amount);
    match borrower
    case Sample => SafeSampleAmountIsRepaid(build, amount);
    case Program(_) =>
      SafeAmountIsCollected(build, amount, AfterCall(build, p, borrower, account, amount).BalanceOf(POOL));
  }

  // ---- Every run ----

  /** The loan that the step takes, if any, is safe. */
  predicate SafeStep(build: Arithmetic, step: Step) {
    step.LendStep? ==> SafeLoan(build, step.borrower, step.amount)
  }

  lemma StepKeepsBacking(build: Arithmetic, p: Pool, step: Step)
    requires Backed(p) && SafeStep(build, step)
    ensures Backed(Apply(build, p, step))
  {
    if Execute(build, p, step).Ok? {
      match step
      case DepositStep(user, amount) => DepositKeepsBacking(p, user, amount);
      case WithdrawStep(user) => WithdrawKeepsBacking(p, user);
      case LendStep(borrower, account, amount) => SafeLoanKeepsBacking(build, p, borrower, account, amount);
      case TokenStep(from, to, amount) => p.token.TransferBalanced(from, to, amount);
      case FlufStep(instruction) => PerformIsHarmless(p.fluf, instruction);
    }
  }

  lemma {:induction false} RunKeepsBacking(build: Arithmetic, p: Pool, steps: seq<Step>)
    requires Backed(p)
    requires forall step <- steps :: SafeStep(build, step)
    ensures Backed(Run(build, p, steps))
    decreases |steps|
  {
    if steps == [] {
    } else {
      assert steps[0] in steps;
      StepKeepsBacking(build, p, steps[0]);
      RunKeepsBacking(build, Apply(build, p, steps[0]), steps[1..]);
    }
  }

  /** On every run from creation whose loans are safe, which in a checked build are all, with any borrowers
      and any outside transfers: fT is backed one to one, an empty pool means that no fT exists, and neither share
      computation is truncated. */
  lemma AlwaysBacked(build: Arithmetic, p: Pool, steps: seq<Step>, amount: U64, user: nat)
    requires Initial(p)
    requires forall step <- steps :: SafeStep(build, step)
    ensures var p' := Run(build, p, steps);
            && p'.fluf.supply == Sum(p'.fluf.balances) <= p'.Reserve()
            && (p'.Reserve() == 0 ==> p'.fluf.supply == 0)
            && (p'.Reserve() > 0 ==> SharesFor(p', amount) == MulDiv(amount, p'.fluf.supply, p'.Reserve()))
            && (p'.fluf.supply > 0 ==>
                  TokensFor(p', p'.fluf.BalanceOf(user))
                  == MulDiv(p'.fluf.BalanceOf(user), p'.Reserve(), p'.fluf.supply))
  {
    RunKeepsBacking(build, p, steps);
    var p' := Run(build, p, steps);
    if p'.Reserve() > 0 {
      MulLe(p'.fluf.supply, p'.Reserve(), amount);
      MulDivAtMost(amount, p'.fluf.supply, p'.Reserve(), amount);
    }
    if p'.fluf.supply > 0 {
      if p'.fluf.Has(user) {
        ElementAtMostSum(p'.fluf.balances, user);
      }
      MulLe(p'.fluf.BalanceOf(user), p'.fluf.supply, p'.Reserve());
      MulDivAtMost(p'.fluf.BalanceOf(user), p'.Reserve(), p'.fluf.supply, p'.Reserve());
    }
  }

  // ---- The redemption rate ----

  /** T per fT in `p'` is at least what it is in `p`. */
  predicate RateAtLeast(p': Pool, p: Pool) {
    RatioAtLeast(p'.Reserve(), p'.fluf.supply, p.Reserve(), p.fluf.supply)
  }

  lemma StepKeepsRate(build: Arithmetic, p: Pool, step: Step)
    requires Backed(p) && SafeStep(build, step)
    ensures RateAtLeast(Apply(build, p, step), p)
  {
    var p' := Apply(build, p, step);
    if Execute(build, p, step).Ok? {
      match step
      case DepositStep(user, amount) =>
        DepositKeepsBacking(p, user, amount);
        RatioGrows(p.Reserve(), p.fluf.supply, amount, SharesFor(p, amount));
      case WithdrawStep(user) =>
        WithdrawKeepsBacking(p, user);
        RatioShrinks(p.Reserve(), p.fluf.supply, p.Reserve() - p'.Reserve(), p.fluf.balances[user]);
      case LendStep(borrower, account, amount) =>
        SafeLoanKeepsBacking(build, p, borrower, account, amount);
        MulLe(p'.fluf.supply, p.fluf.supply, p.Reserve());
      case TokenStep(from, to, amount) =>
        MulLe(p.Reserve(), p'.Reserve(), p.fluf.supply);
      case FlufStep(instruction) =>
        PerformIsHarmless(p.fluf, instruction);
        MulLe(p'.fluf.supply, p.fluf.supply, p.Reserve());
    }
  }

  predicate SharesThroughout(build: Arithmetic, p: Pool, steps: seq<Step>)
    decreases |steps|
  {
    steps == [] || (p.fluf.supply > 0 && SharesThroughout(build, Apply(build, p, steps[0]), steps[1..]))
  }

  /** The redemption rate never falls over any run of safe loans and anything else while shares are outstanding. */
  lemma {:induction false} RateNeverFalls(build: Arithmetic, p: Pool, steps: seq<Step>)
    requires Backed(p) && SharesThroughout(build, p, steps)
    requires forall step <- steps :: SafeStep(build, step)
    ensures RateAtLeast(Run(build, p, steps), p)
    decreases |steps|
  {
    if steps == [] {
    } else {
      assert steps[0] in steps;
      var p1 := Apply(build, p, steps[0]);
      StepKeepsBacking(build, p, steps[0]);
      StepKeepsRate(build, p, steps[0]);
      RateNeverFalls(build, p1, steps[1..]);
      if steps[1..] != [] {
        var p2 := Run(build, p1, steps[1..]);
        RatioTransitive(p.Reserve(), p.fluf.supply, p1.Reserve(), p1.fluf.supply, p2.Reserve(), p2.fluf.supply);
      }
    }
  }

  // ---- A holder who stays ----

  /** The instruction takes fT from `holder`. */
  predicate Debits(instruction: Instruction, holder: nat) {
    instruction.from == holder
  }

  predicate StepDebits(step: Step, holder: nat) {
    match step
    case WithdrawStep(user) => user == holder
    case LendStep(Sample, account, _) => account == holder
    case LendStep(Program(instructions), _, _) => exists k :: 0 <= k < |instructions| && Debits(instructions[k], holder)
    case FlufStep(instruction) => Debits(instruction, holder)
    case _ => false
  }

  lemma {:induction false} InstructionsSpare(fluf: Ledger, instructions: seq<Instruction>, holder: nat)
    requires PerformAll(fluf, instructions).Ok?
    requires forall k :: 0 <= k < |instructions| ==> !Debits(instructions[k], holder)
    ensures fluf.BalanceOf(holder) <= PerformAll(fluf, instructions).value.BalanceOf(holder)
    decreases |instructions|
  {
    if instructions == [] {
    } else {
      InstructionsSpare(Perform(fluf, instructions[0]).value, instructions[1..], holder);
    }
  }

  lemma StepSpares(build: Arithmetic, p: Pool, step: Step, holder: nat)
    requires Backed(p) && !PoolOwned(holder) && !StepDebits(step, holder)
    ensures p.fluf.BalanceOf(holder) <= Apply(build, p, step).fluf.BalanceOf(holder)
  {
    if step.LendStep? && Execute(build, p, step).Ok? {
      LoanEffect(build, p, step.borrower, step.account, step.amount);
      var minted := p.fluf.MintTo(step.account, step.amount).value;
      assert p.fluf.BalanceOf(holder) <= minted.BalanceOf(holder);
      match step.borrower
      case Sample =>
      case Program(instructions) => InstructionsSpare(minted, instructions, holder);
    }
  }

  lemma {:induction false} HolderRun(build: Arithmetic, p: Pool, steps: seq<Step>, holder: nat)
    requires Backed(p) && !PoolOwned(holder) && p.fluf.BalanceOf(holder) > 0
    requires forall step <- steps :: SafeStep(build, step) && !StepDebits(step, holder)
    ensures var p' := Run(build, p, steps);
            && p.fluf.BalanceOf(holder) <= p'.fluf.BalanceOf(holder)
            && 0 < p'.fluf.supply
            && RateAtLeast(p', p)
    decreases |steps|
  {
    ElementAtMostSum(p.fluf.balances, holder);
    if steps == [] {
    } else {
      assert steps[0] in steps;
      var p1 := Apply(build, p, steps[0]);
      StepKeepsBacking(build, p, steps[0]);
      StepKeepsRate(build, p, steps[0]);
      StepSpares(build, p, steps[0], holder);
      ElementAtMostSum(p1.fluf.balances, holder);
      HolderRun(build, p1, steps[1..], holder);
      var p2 := Run(build, p1, steps[1..]);
      RatioTransitive(p.Reserve(), p.fluf.supply, p1.Reserve(), p1.fluf.supply, p2.Reserve(), p2.fluf.supply);
    }
  }

  /** The T that the fT of a holder who signs nothing away redeem for never falls, over any run of deposits,
      withdrawals, flash loans of safe amounts to any borrowers and outside transfers. */
  lemma PassiveHolderNeverLoses(build: Arithmetic, p: Pool, steps: seq<Step>, holder: nat)
    requires Backed(p) && !PoolOwned(holder) && p.fluf.BalanceOf(holder) > 0
    requires forall step <- steps :: SafeStep(build, step) && !StepDebits(step, holder)
    ensures var p' := Run(build, p, steps);
            RatioAtLeast(p'.fluf.BalanceOf(holder) * p'.Reserve(), p'.fluf.supply,
                         p.fluf.BalanceOf(holder) * p.Reserve(), p.fluf.supply)
  {
    HolderRun(build, p, steps, holder);
    var p' := Run(build, p, steps);
    RatioScales(p.fluf.BalanceOf(holder), p.Reserve(), p.fluf.supply,
                p'.fluf.BalanceOf(holder), p'.Reserve(), p'.fluf.supply);
  }

  // ---- The sample borrower ----

  /** The sample borrower repays exactly what the pool checks for whenever the check does not overflow. In a wrapping
      build they agree on precisely the amounts for which the two products wrap alike; a checked build refuses every
      amount for which the check overflows. */
  lemma RepaymentsAgree(build: Arithmetic, amount: U64)
    ensures amount * 1025 < U64_LIMIT ==>
              RepaymentOf(build, amount) == RequiredFor(build, amount) == Ok(amount * 1025 / 1000)
    ensures build.Wrapping? ==>
              (RepaymentOf(build, amount) == RequiredFor(build, amount)
               <==> var wrapped := amount * 1000 + amount * 25 % U64_LIMIT;
                    wrapped < U64_LIMIT || wrapped >= 1000 * U64_LIMIT)
    ensures build.Checked? && amount * 1025 >= U64_LIMIT ==> RequiredFor(build, amount) == Err(Panic)
  {
    if amount * 1025 < U64_LIMIT {
      FittingRepayment(build, amount);
    }
    WrappedProducts(amount);
    WrapsAlike(amount * 1000 + amount * 25 % U64_LIMIT);
  }

  lemma FittingRepayment(build: Arithmetic, amount: U64)
    requires amount * 1025 < U64_LIMIT
    ensures RepaymentOf(build, amount) == RequiredFor(build, amount) == Ok(amount * 1025 / 1000)
  {
    RepaymentParts(amount, amount * 25);
  }

  lemma FitWraps(x: nat)
    ensures Fit(Wrapping, x) == Ok(x % U64_LIMIT)
  {
  }

  /** Both amounts come from one number: the product with only its smaller part wrapped. */
  lemma WrappedProducts(amount: U64)
    ensures var wrapped := amount * 1000 + amount * 25 % U64_LIMIT;
            && RepaymentOf(Wrapping, amount) == Ok(wrapped / 1000 % U64_LIMIT)
            && RequiredFor(Wrapping, amount) == Ok(wrapped % U64_LIMIT / 1000)
  {
    WrappedRepaymentOf(amount, amount * 25 % U64_LIMIT);
    WrappedRequirement(amount, amount * 25 % U64_LIMIT);
  }

  lemma WrappedRepaymentOf(amount: U64, rest: nat)
    requires rest == amount * 25 % U64_LIMIT
    ensures RepaymentOf(Wrapping, amount) == Ok((amount * 1000 + rest) / 1000 % U64_LIMIT)
  {
    FitWraps(amount * 25);
    FitWraps(amount + rest / 1000);
    RepaymentParts(amount, rest);
  }

  lemma WrappedRequirement(amount: U64, rest: nat)
    requires rest == amount * 25 % U64_LIMIT
    ensures RequiredFor(Wrapping, amount) == Ok((amount * 1000 + rest) % U64_LIMIT / 1000)
  {
    FitWraps(amount * 1025);
    SmallerPartWraps(amount * 1000, amount * 25);
  }

  lemma SmallerPartWraps(a: nat, b: nat)
    ensures (a + b) % U64_LIMIT == (a + b % U64_LIMIT) % U64_LIMIT
  {
  }

  lemma RepaymentParts(amount: nat, rest: nat)
    ensures amount + rest / 1000 == (amount * 1000 + rest) / 1000
  {
  }

  lemma WrapsAlike(x: nat)
    requires x < 1001 * U64_LIMIT
    ensures x / 1000 % U64_LIMIT == x % U64_LIMIT / 1000 <==> x < U64_LIMIT || x >= 1000 * U64_LIMIT
  {
  }

  /** The sample borrower is one of the programs the pool can face. */
  lemma SampleIsAProgram(build: Arithmetic, fluf: Ledger, account: nat, amount: U64)
    requires Call(build, Sample, fluf, account, amount).Ok?
    ensures RepaymentOf(build, amount).Ok?
    ensures Call(build, Sample, fluf, account, amount)
            == Call(build, Program([TransferFluf(account, POOL, RepaymentOf(build, amount).value)]),
                    fluf, account, amount)
  {
    var repayment := RepaymentOf(build, amount).value;
    var instructions := [TransferFluf(account, POOL, repayment)];
    assert instructions[1..] == [];
    assert PerformAll(fluf.Transfer(account, POOL, repayment).value, instructions[1..]).Ok?;
  }

  /** A loan to the sample borrower commits exactly when the pool is not empty, the loan can be minted, the borrower's
      account then holds the repayment, and the repayment on top of what the pool's account held already settles. */
  lemma SampleLoanCommits(build: Arithmetic, p: Pool, account: nat, amount: U64)
    requires Backed(p) && p.fluf.Has(account) && !PoolOwned(account)
    ensures LendAndCall(build, p, Sample, account, amount).Ok?
            <==> && p.Reserve() > 0
                 && p.fluf.supply + amount < U64_LIMIT
                 && RepaymentOf(build, amount).Ok?
                 && var repayment := RepaymentOf(build, amount).value;
                    && repayment <= p.fluf.balances[account] + amount
                    && p.fluf.balances[POOL] + repayment < U64_LIMIT
                    && Settles(build, amount, p.fluf.balances[POOL] + repayment)
  {
    p.fluf.Enough(account, account, amount);
    if p.fluf.supply + amount < U64_LIMIT && RepaymentOf(build, amount).Ok? {
      p.fluf.MintBalanced(account, amount);
      RepaymentSettles(build, p.fluf.MintTo(account, amount).value, account, amount, RepaymentOf(build, amount).value);
    }
  }

  lemma RepaymentSettles(build: Arithmetic, minted: Ledger, account: nat, amount: U64, repayment: U64)
    requires minted.Balanced() && minted.Has(account) && account > FEES
    ensures minted.Transfer(account, POOL, repayment).Some? <==> repayment <= minted.balances[account]
    ensures repayment <= minted.balances[account] ==>
              && minted.balances[POOL] + repayment < U64_LIMIT
              && (Settle(build, minted.Transfer(account, POOL, repayment).value, amount).Ok?
                  <==> Settles(build, amount, minted.balances[POOL] + repayment))
  {
    minted.Enough(account, POOL, repayment);
    if repayment <= minted.balances[account] {
      minted.TransferBalanced(account, POOL, repayment);
      SettlesExactly(build, minted.Transfer(account, POOL, repayment).value, amount);
    }
  }

  /** In either build, an amount that the check can multiply without overflow is lent exactly when the pool is not
      empty, the loan can be minted and the borrower's account then holds the loan and its fee. */
  lemma FittingSampleLoanCommits(build: Arithmetic, p: Pool, account: nat, amount: U64)
    requires Backed(p) && p.fluf.Has(account) && !PoolOwned(account) && amount * 1025 < U64_LIMIT
    ensures LendAndCall(build, p, Sample, account, amount).Ok?
            <==> && p.Reserve() > 0
                 && p.fluf.supply + amount < U64_LIMIT
                 && amount * 1025 / 1000 <= p.fluf.balances[account] + amount
  {
    SampleLoanCommits(build, p, account, amount);
    FittingRepayment(build, amount);
    TwoAccounts(p.fluf, account);
  }

  lemma TwoAccounts(fluf: Ledger, account: nat)
    requires fluf.Balanced() && fluf.Has(account) && account > POOL
    ensures fluf.balances[POOL] + fluf.balances[account] <= fluf.supply
  {
    TwoElementsAtMostSum(fluf.balances, POOL, account);
  }
}
