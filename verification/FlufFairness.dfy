/** What the pool's depositors, and coalitions of them with borrowers, can win and lose. */
module FlufFairness {
  import opened Machine
  import opened Token
  import opened Holdings
  import opened Fluf
  import opened FlufBacking
  import opened FlufOverflow

  // ---- A deposit alone ----

  /** A deposit goes through exactly when the user has both accounts and the amount and the new fT can be minted. It
      buys one fT per T from an empty pool and the floored proportional number otherwise. */
  lemma DepositExactly(p: Pool, user: nat, amount: U64)
    requires Backed(p) && IsUser(p, user)
    ensures var result := Deposit(p, user, amount);
            && (result.Ok? <==> && amount <= p.token.balances[user]
                                && p.fluf.supply + SharesFor(p, amount) < U64_LIMIT)
            && (result.Ok? ==>
                  var p' := result.value;
                  var minted := p'.fluf.supply - p.fluf.supply;
                  && (p.Reserve() == 0 ==> minted == amount)
                  && (p.Reserve() > 0 ==>
                        minted * p.Reserve() <= amount * p.fluf.supply < (minted + 1) * p.Reserve())
                  && p'.fluf.BalanceOf(user) == p.fluf.BalanceOf(user) + minted
                  && p'.token.BalanceOf(user) == p.token.BalanceOf(user) - amount
                  && p'.Reserve() == p.Reserve() + amount)
  {
    p.token.Enough(user, POOL, amount);
    p.fluf.Enough(user, user, SharesFor(p, amount));
    if Deposit(p, user, amount).Ok? {
      DepositKeepsBacking(p, user, amount);
      if p.Reserve() > 0 {
        FitsThePool(amount, p.fluf.supply, p.Reserve());
      }
    }
  }

  /** Shares of `c` units at a price of at most one are floored and not truncated. */
  lemma FitsThePool(amount: U64, b: nat, c: nat)
    requires b <= c && 0 < c
    ensures var q := Truncate(MulDiv(amount, b, c));
            q * c <= amount * b < (q + 1) * c
  {
    SharesAreFloored(amount, b, c);
    MulLe(b, c, amount);
    MulLe(amount, U64_LIMIT - 1, c);
  }

  /** A user can always leave a backed pool: a withdrawal never fails, takes all of the user's fT and pays their floored
      share of the reserve. */
  lemma WithdrawExactly(p: Pool, user: nat)
    requires Backed(p) && IsUser(p, user)
    ensures Withdraw(p, user).Ok?
    ensures var p' := Withdraw(p, user).value;
            var shares, paid := p.fluf.BalanceOf(user), p.Reserve() - p'.Reserve();
            && p'.fluf.BalanceOf(user) == 0 && p'.fluf.supply == p.fluf.supply - shares
            && p'.token.BalanceOf(user) == p.token.BalanceOf(user) + paid
            && 0 <= paid && (shares == 0 ==> paid == 0)
            && (shares > 0 ==> paid * p.fluf.supply <= shares * p.Reserve() < (paid + 1) * p.fluf.supply)
  {
    PaidIsFloored(p, user);
    p.fluf.Enough(user, user, p.fluf.BalanceOf(user));
    p.token.Enough(POOL, user, TokensFor(p, p.fluf.BalanceOf(user)));
  }

  lemma PaidIsFloored(p: Pool, user: nat)
    requires Backed(p) && IsUser(p, user)
    ensures var shares := p.fluf.BalanceOf(user);
            var paid := TokensFor(p, shares);
            && shares <= p.fluf.supply && paid <= p.Reserve() && (shares == 0 ==> paid == 0)
            && (shares > 0 ==> paid * p.fluf.supply <= shares * p.Reserve() < (paid + 1) * p.fluf.supply)
  {
    var shares, reserve, supply := p.fluf.BalanceOf(user), p.Reserve(), p.fluf.supply;
    ElementAtMostSum(p.fluf.balances, user);
    if supply > 0 {
      SharesAreFloored(shares, reserve, supply);
      MulLe(shares, supply, reserve);
      MulLe(reserve, U64_LIMIT - 1, supply);
      MulDivAtMost(shares, reserve, supply, reserve);
    }
  }

  /** A deposit buys nothing exactly when it is zero or worth less than one fT. */
  lemma DepositBuysNothing(p: Pool, user: nat, amount: U64)
    requires Backed(p) && Deposit(p, user, amount).Ok?
    ensures Deposit(p, user, amount).value.fluf == p.fluf <==> amount == 0 || amount * p.fluf.supply < p.Reserve()
  {
    DepositKeepsBacking(p, user, amount);
    NoSharesFor(p, amount);
    if SharesFor(p, amount) == 0 {
      assert p.fluf.balances[user := p.fluf.balances[user] + 0] == p.fluf.balances;
    }
  }

  lemma NoSharesFor(p: Pool, amount: U64)
    requires Backed(p)
    ensures SharesFor(p, amount) == 0 <==> amount == 0 || amount * p.fluf.supply < p.Reserve()
  {
    if p.Reserve() > 0 {
      MulLe(p.fluf.supply, p.Reserve(), amount);
      MulDivAtMost(amount, p.fluf.supply, p.Reserve(), amount);
      FlooredToZero(amount, p.fluf.supply, p.Reserve());
    }
  }

  lemma FlooredToZero(a: nat, b: nat, c: nat)
    requires c > 0
    ensures MulDiv(a, b, c) == 0 <==> a * b < c
  {
    MulDivBounds(a, b, c);
    if a * b >= c {
      MulDivAtLeast(a, b, c, 1);
    }
  }

  /** A newcomer to a pool with fT can always redeem at once, never gets more than was paid in and loses less than one
      unit beyond the price of one fT. */
  lemma RoundTripIsTight(p: Pool, user: nat, amount: U64)
    requires Backed(p) && p.fluf.supply > 0 && p.fluf.BalanceOf(user) == 0
    requires Deposit(p, user, amount).Ok?
    ensures var p1 := Deposit(p, user, amount).value;
            && Withdraw(p1, user).Ok?
            && var loss := p.token.BalanceOf(user) - Withdraw(p1, user).value.token.BalanceOf(user);
               0 <= loss && (loss - 1) * p1.fluf.supply < p.Reserve()
  {
    var p1 := Deposit(p, user, amount).value;
    var minted := SharesFor(p, amount);
    DepositKeepsBacking(p, user, amount);
    MulLe(p.fluf.supply, p.Reserve(), amount);
    MulDivAtMost(amount, p.fluf.supply, p.Reserve(), amount);
    RoundTripBounds(p.Reserve(), p.fluf.supply, amount, minted);
    p1.fluf.Enough(user, user, minted);
    p1.token.Enough(POOL, user, MulDiv(minted, p1.Reserve(), p1.fluf.supply));
  }

  // ---- A dead pool ----

  /** The pool holds T but nobody holds fT. */
  predicate Dead(p: Pool) {
    p.fluf.supply == 0 < p.Reserve()
  }

  lemma StepKeepsDead(build: Arithmetic, p: Pool, step: Step)
    requires Backed(p) && Dead(p) && SafeStep(build, step)
    ensures var p' := Apply(build, p, step);
            && Dead(p') && p.Reserve() <= p'.Reserve()
            && (step.DepositStep? && Execute(build, p, step).Ok? ==>
                  p'.fluf == p.fluf && p'.Reserve() == p.Reserve() + step.amount)
  {
    if Execute(build, p, step).Ok? {
      match step
      case DepositStep(user, amount) =>
        DepositKeepsBacking(p, user, amount);
        DepositBuysNothing(p, user, amount);
      case WithdrawStep(user) => WithdrawKeepsBacking(p, user);
      case LendStep(borrower, account, amount) => SafeLoanKeepsBacking(build, p, borrower, account, amount);
      case TokenStep(_, _, _) =>
      case FlufStep(instruction) => PerformIsHarmless(p.fluf, instruction);
    }
  }

  /** Once a pool holds T without any fT in circulation it stays so on every run of safe loans and anything else:
      no fT is ever issued and no T ever leaves, so that every deposit is lost. */
  lemma {:induction false} DeadForever(build: Arithmetic, p: Pool, steps: seq<Step>)
    requires Backed(p) && Dead(p)
    requires forall step <- steps :: SafeStep(build, step)
    ensures Dead(Run(build, p, steps)) && p.Reserve() <= Run(build, p, steps).Reserve()
    decreases |steps|
  {
    if steps == [] {
    } else {
      assert steps[0] in steps;
      StepKeepsBacking(build, p, steps[0]);
      StepKeepsDead(build, p, steps[0]);
      DeadForever(build, Apply(build, p, steps[0]), steps[1..]);
    }
  }

  /** Whoever sends T to a pool that was just created, before any deposit, kills it. */
  lemma EarlyDonationKills(build: Arithmetic, p: Pool, from: nat, amount: U64, steps: seq<Step>)
    requires Initial(p) && amount > 0 && Execute(build, p, TokenStep(from, POOL, amount)).Ok?
    requires forall step <- steps :: SafeStep(build, step)
    ensures Dead(Run(build, Apply(build, p, TokenStep(from, POOL, amount)), steps))
  {
    StepKeepsBacking(build, p, TokenStep(from, POOL, amount));
    DeadForever(build, Apply(build, p, TokenStep(from, POOL, amount)), steps);
  }

  /** Such a donation can happen. */
  lemma DeadPoolIsReached(build: Arithmetic)
    ensures exists p, step: Step :: Initial(p) && step.TokenStep? && Dead(Apply(build, p, step))
  {
    var p := Pool(Ledger(1, [0, 1]), Ledger(0, [0, 0, 0]));
    DonatedIsReached(build, p);
    assert Dead(Apply(build, p, TokenStep(1, POOL, 1)));
  }

  // ---- fT left in the pool's account ----

  /** A borrower who pays `paid` fT from `account` and nothing else. */
  function Payer(account: nat, paid: U64): Borrower {
    Program([TransferFluf(account, POOL, paid)])
  }

  /** Whatever fT lie in the pool's account pay for the next loan: an affordable payment settles it exactly when both
      together reach what the pool checks for, and the borrower keeps the difference. */
  lemma StrayFlufPaysForLoan(build: Arithmetic, p: Pool, account: nat, amount: U64, paid: U64)
    requires Backed(p) && p.fluf.Has(account) && !PoolOwned(account) && amount * 1025 < U64_LIMIT
    requires paid <= p.fluf.balances[account] + amount
    ensures var result := LendAndCall(build, p, Payer(account, paid), account, amount);
            && (result.Ok? <==> && p.Reserve() > 0
                                && p.fluf.supply + amount < U64_LIMIT
                                && amount * 1025 / 1000 <= p.fluf.balances[POOL] + paid)
            && (result.Ok? ==>
                  result.value.fluf.BalanceOf(account) == p.fluf.balances[account] + amount - paid)
  {
    p.fluf.Enough(account, account, amount);
    if p.fluf.supply + amount < U64_LIMIT {
      p.fluf.MintBalanced(account, amount);
      var minted := p.fluf.MintTo(account, amount).value;
      RepaymentSettles(build, minted, account, amount, paid);
      PayerPays(build, minted, account, amount, paid);
      FittingAmountSettles(build, amount, p.fluf.balances[POOL] + paid);
      if LendAndCall(build, p, Payer(account, paid), account, amount).Ok? {
        LoanEffect(build, p, Payer(account, paid), account, amount);
      }
    }
  }

  lemma PayerPays(build: Arithmetic, minted: Ledger, account: nat, amount: U64, paid: U64)
    requires !PoolOwned(account) && minted.Transfer(account, POOL, paid).Some?
    ensures Call(build, Payer(account, paid), minted, account, amount)
            == Ok(minted.Transfer(account, POOL, paid).value)
  {
    var instructions := [TransferFluf(account, POOL, paid)];
    assert instructions[1..] == [];
    assert PerformAll(minted.Transfer(account, POOL, paid).value, instructions[1..]).Ok?;
  }

  lemma FittingAmountSettles(build: Arithmetic, amount: U64, collected: U64)
    requires amount * 1025 < U64_LIMIT
    ensures Settles(build, amount, collected) <==> amount * 1025 / 1000 <= collected
  {
  }

  // ---- A coalition with borrowers against all other holders ----

  /** The fT accounts that a coalition can profit from: its own and the pool's, whose fT pay for the next loan. */
  function Reach(crew: set<nat>): set<nat> {
    crew + {POOL}
  }

  /** Neither the pool's accounts nor the fee account belong to the coalition. */
  predicate Outside(crew: set<nat>) {
    POOL !in crew && FEES !in crew
  }

  function Others(fluf: Ledger, crew: set<nat>): int {
    fluf.supply - Held(fluf, Reach(crew))
  }

  /** Wallets plus pro-rata claims of `crew`, as a numerator over the fT supply. */
  function Wealth(p: Pool, crew: set<nat>): nat {
    Held(p.token, crew) * p.fluf.supply + p.Reserve() * Held(p.fluf, Reach(crew))
  }

  predicate NoRicher(p': Pool, p: Pool, crew: set<nat>) {
    RatioAtLeast(Wealth(p, crew), p.fluf.supply, Wealth(p', crew), p'.fluf.supply)
  }

  predicate SignedBy(instructions: seq<Instruction>, crew: set<nat>) {
    forall k :: 0 <= k < |instructions| ==> instructions[k].from in crew
  }

  /** Anything that takes no signature but those of `crew`: trades, transfers, burns and safe loans to anyone, with
      borrowers that move whatever fT of `crew` they like. */
  predicate Play(build: Arithmetic, crew: set<nat>, step: Step) {
    && SafeStep(build, step)
    && match step
       case DepositStep(user, _) => user in crew
       case WithdrawStep(user) => user in crew
       case LendStep(Sample, account, _) => account in crew
       case LendStep(Program(instructions), _, _) => SignedBy(instructions, crew)
       case TokenStep(from, _, _) => from in crew
       case FlufStep(instruction) => instruction.from in crew
  }

  lemma OthersAfterInstruction(fluf: Ledger, crew: set<nat>, instruction: Instruction)
    requires instruction.from in crew && Perform(fluf, instruction).Ok?
    ensures Others(fluf, crew) <= Others(Perform(fluf, instruction).value, crew)
  {
    match instruction
    case TransferFluf(from, to, amount) => TransferHeld(fluf, Reach(crew), from, to, amount);
    case BurnFluf(from, amount) => BurnHeld(fluf, Reach(crew), from, amount);
  }

  lemma {:induction false} OthersAfterInstructions(fluf: Ledger, crew: set<nat>, instructions: seq<Instruction>)
    requires SignedBy(instructions, crew) && PerformAll(fluf, instructions).Ok?
    ensures Others(fluf, crew) <= Others(PerformAll(fluf, instructions).value, crew)
    decreases |instructions|
  {
    if instructions == [] {
    } else {
      OthersAfterInstruction(fluf, crew, instructions[0]);
      OthersAfterInstructions(Perform(fluf, instructions[0]).value, crew, instructions[1..]);
    }
  }

  lemma OthersAfterSettlement(build: Arithmetic, fluf: Ledger, crew: set<nat>, amount: U64)
    requires Outside(crew) && Settle(build, fluf, amount).Ok?
    ensures Others(fluf, crew) <= Others(Settle(build, fluf, amount).value, crew)
  {
    var fee := ProtocolFee(build, fluf.BalanceOf(POOL), amount).value;
    var paid := fluf.Transfer(POOL, FEES, fee).value;
    TransferHeld(fluf, Reach(crew), POOL, FEES, fee);
    BurnHeld(paid, Reach(crew), POOL, Fit(build, fluf.BalanceOf(POOL) - fee).value);
  }

  lemma OthersAfterLoan(build: Arithmetic, p: Pool, crew: set<nat>, step: Step)
    requires Outside(crew) && Play(build, crew, step) && step.LendStep? && Execute(build, p, step).Ok?
    ensures Others(p.fluf, crew) <= Others(Apply(build, p, step).fluf, crew)
  {
    var minted := p.fluf.MintTo(step.account, step.amount).value;
    MintHeld(p.fluf, Reach(crew), step.account, step.amount);
    match step.borrower
    case Sample =>
      var repayment := RepaymentOf(build, step.amount).value;
      TransferHeld(minted, Reach(crew), step.account, POOL, repayment);
      OthersAfterSettlement(build, minted.Transfer(step.account, POOL, repayment).value, crew, step.amount);
    case Program(instructions) =>
      OthersAfterInstructions(minted, crew, instructions);
      OthersAfterSettlement(build, PerformAll(minted, instructions).value, crew, step.amount);
  }

  /** No step of play adds T to the coalition and the pool together, or takes fT from anyone else. */
  lemma PlayMovesValue(build: Arithmetic, p: Pool, crew: set<nat>, step: Step)
    requires Outside(crew) && Play(build, crew, step)
    ensures var p' := Apply(build, p, step);
            && Held(p'.token, Reach(crew)) <= Held(p.token, Reach(crew))
            && Others(p.fluf, crew) <= Others(p'.fluf, crew)
  {
    if Execute(build, p, step).Ok? {
      match step
      case DepositStep(user, amount) =>
        TransferHeld(p.token, Reach(crew), user, POOL, amount);
        MintHeld(p.fluf, Reach(crew), user, SharesFor(p, amount));
      case WithdrawStep(user) =>
        TransferHeld(p.token, Reach(crew), POOL, user, TokensFor(p, p.fluf.BalanceOf(user)));
        BurnHeld(p.fluf, Reach(crew), user, p.fluf.BalanceOf(user));
      case LendStep(_, _, _) => OthersAfterLoan(build, p, crew, step);
      case TokenStep(from, to, amount) => TransferHeld(p.token, Reach(crew), from, to, amount);
      case FlufStep(instruction) => OthersAfterInstruction(p.fluf, crew, instruction);
    }
  }

  lemma {:induction false} PlayRun(build: Arithmetic, p: Pool, crew: set<nat>, steps: seq<Step>)
    requires Backed(p) && Outside(crew) && Others(p.fluf, crew) > 0
    requires forall step <- steps :: Play(build, crew, step)
    ensures var p' := Run(build, p, steps);
            && Backed(p')
            && Held(p'.token, Reach(crew)) <= Held(p.token, Reach(crew))
            && Others(p.fluf, crew) <= Others(p'.fluf, crew)
            && RateAtLeast(p', p)
    decreases |steps|
  {
    if steps == [] {
    } else {
      assert steps[0] in steps;
      var p1 := Apply(build, p, steps[0]);
      StepKeepsBacking(build, p, steps[0]);
      StepKeepsRate(build, p, steps[0]);
      PlayMovesValue(build, p, crew, steps[0]);
      PlayRun(build, p1, crew, steps[1..]);
      var p2 := Run(build, p1, steps[1..]);
      RatioTransitive(p.Reserve(), p.fluf.supply, p1.Reserve(), p1.fluf.supply, p2.Reserve(), p2.fluf.supply);
    }
  }

  /** The claim of everyone outside, as a numerator over the fT supply. */
  function OthersClaim(p: Pool, crew: set<nat>): nat
    requires Others(p.fluf, crew) >= 0
  {
    var others: nat := Others(p.fluf, crew);
    others * p.Reserve()
  }

  lemma WealthFollows(p: Pool, p': Pool, crew: set<nat>)
    requires p.Created() && p'.Created() && Outside(crew)
    requires Held(p'.token, Reach(crew)) <= Held(p.token, Reach(crew))
    requires Others(p.fluf, crew) >= 0 && Others(p'.fluf, crew) >= 0
    requires RatioAtLeast(OthersClaim(p', crew), p'.fluf.supply, OthersClaim(p, crew), p.fluf.supply)
    ensures NoRicher(p', p, crew)
  {
    HeldWithOneMore(p.token, crew, POOL);
    HeldWithOneMore(p'.token, crew, POOL);
    MoreForOthers(Held(p.token, crew), p.Reserve(), Held(p.fluf, Reach(crew)), Others(p.fluf, crew),
                  Held(p'.token, crew), p'.Reserve(), Held(p'.fluf, Reach(crew)), Others(p'.fluf, crew));
  }

  /** Whatever the members of a coalition trade, send, burn and borrow, even with borrowers of their own making, their
      wallets plus claims never rise and the claim of everyone else never falls; what lies in the pool's fT account
      counts towards the coalition. */
  lemma CoalitionNeverGains(build: Arithmetic, p: Pool, crew: set<nat>, steps: seq<Step>)
    requires Backed(p) && Outside(crew) && Others(p.fluf, crew) > 0
    requires forall step <- steps :: Play(build, crew, step)
    ensures var p' := Run(build, p, steps);
            && NoRicher(p', p, crew)
            && Others(p.fluf, crew) <= Others(p'.fluf, crew)
            && RatioAtLeast(OthersClaim(p', crew), p'.fluf.supply, OthersClaim(p, crew), p.fluf.supply)
  {
    var p' := Run(build, p, steps);
    PlayRun(build, p, crew, steps);
    RatioScales(Others(p.fluf, crew), p.Reserve(), p.fluf.supply,
                Others(p'.fluf, crew), p'.Reserve(), p'.fluf.supply);
    WealthFollows(p, p', crew);
  }

  /** A coalition that starts and ends without fT, with none in the pool's account either, ends with at most the T it
      started with: flash loans win nothing from the pool. */
  lemma FlashLoansWinNothing(build: Arithmetic, p: Pool, crew: set<nat>, steps: seq<Step>)
    requires Backed(p) && Outside(crew) && p.fluf.supply > 0
    requires forall step <- steps :: Play(build, crew, step)
    requires Held(p.fluf, Reach(crew)) == 0 == Held(Run(build, p, steps).fluf, Reach(crew))
    ensures Held(Run(build, p, steps).token, crew) <= Held(p.token, crew)
  {
    CoalitionNeverGains(build, p, crew, steps);
    WalletsCompare(Held(p.token, crew), p.fluf.supply,
                   Held(Run(build, p, steps).token, crew), Run(build, p, steps).fluf.supply);
  }
}
