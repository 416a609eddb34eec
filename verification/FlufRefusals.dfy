/** Which error the pool reports for a refused step: the first of its checks that fails, in the order of the program. */
module FlufRefusals {
  import opened Machine
  import opened Token
  import opened Fluf

  function SettlementRefusal(build: Arithmetic, fluf: Ledger, amount: U64): Error {
    if build.Checked? && amount * 1025 >= U64_LIMIT then Panic
    else if fluf.BalanceOf(POOL) < amount * 1025 % U64_LIMIT / 1000 then FeesNotPaidBack
    else TokenFailure
  }

  /** What the sample borrower pays back. */
  function SampleRepayment(amount: U64): U64 {
    (amount + amount * 25 % U64_LIMIT / 1000) % U64_LIMIT
  }

  function SampleRefusal(build: Arithmetic, minted: Ledger, account: nat, amount: U64): Error {
    if PoolOwned(account) then InvalidAccount
    else if build.Checked? && (amount * 25 >= U64_LIMIT || amount + amount * 25 / 1000 >= U64_LIMIT) then Panic
    else if SampleRepayment(amount) > minted.BalanceOf(account) then InsufficientFunds
    else
      match minted.Transfer(account, POOL, SampleRepayment(amount))
      case None => TokenFailure
      case Some(called) => SettlementRefusal(build, called, amount)
  }

  function LoanRefusal(build: Arithmetic, p: Pool, borrower: Borrower, account: nat, amount: U64): Error {
    if p.Reserve() == 0 then EmptyPool
    else
      match p.fluf.MintTo(account, amount)
      case None => TokenFailure
      case Some(minted) =>
        match borrower
        case Sample => SampleRefusal(build, minted, account, amount)
        case Program(instructions) =>
          match PerformAll(minted, instructions)
          case Err(_) => TokenFailure
          case Ok(called) => SettlementRefusal(build, called, amount)
  }

  function Refusal(build: Arithmetic, p: Pool, step: Step): Error {
    match step
    case DepositStep(user, _) => if IsUser(p, user) then TokenFailure else InvalidAccount
    case WithdrawStep(user) => if IsUser(p, user) then TokenFailure else InvalidAccount
    case LendStep(borrower, account, amount) => LoanRefusal(build, p, borrower, account, amount)
    case TokenStep(_, _, _) => TokenFailure
    case FlufStep(_) => TokenFailure
  }

  lemma SettlementRefused(build: Arithmetic, fluf: Ledger, amount: U64)
    requires Settle(build, fluf, amount).Err?
    ensures Settle(build, fluf, amount).error == SettlementRefusal(build, fluf, amount)
  {
  }

  lemma SampleRefused(build: Arithmetic, minted: Ledger, account: nat, amount: U64)
    requires Call(build, Sample, minted, account, amount).Err?
             || Settle(build, Call(build, Sample, minted, account, amount).value, amount).Err?
    ensures var called := Call(build, Sample, minted, account, amount);
            SampleRefusal(build, minted, account, amount)
            == if called.Err? then called.error else Settle(build, called.value, amount).error
  {
    if !PoolOwned(account) && RepaymentOf(build, amount).Ok? {
      assert RepaymentOf(build, amount).value == SampleRepayment(amount);
      if Call(build, Sample, minted, account, amount).Ok? {
        SettlementRefused(build, Call(build, Sample, minted, account, amount).value, amount);
      }
    }
  }

  lemma {:induction false} ProgramRefused(fluf: Ledger, instructions: seq<Instruction>)
    requires PerformAll(fluf, instructions).Err?
    ensures PerformAll(fluf, instructions).error == TokenFailure
    decreases |instructions|
  {
    if Perform(fluf, instructions[0]).Ok? {
      ProgramRefused(Perform(fluf, instructions[0]).value, instructions[1..]);
    }
  }

  /** Every refused step leaves the pool as it was and reports the first check that it fails. */
  lemma RefusedStep(build: Arithmetic, p: Pool, step: Step)
    requires Execute(build, p, step).Err?
    ensures Apply(build, p, step) == p && Execute(build, p, step).error == Refusal(build, p, step)
  {
    if step.LendStep? && p.Reserve() > 0 && p.fluf.MintTo(step.account, step.amount).Some? {
      var minted := p.fluf.MintTo(step.account, step.amount).value;
      match step.borrower
      case Sample => SampleRefused(build, minted, step.account, step.amount);
      case Program(instructions) =>
        if PerformAll(minted, instructions).Err? {
          ProgramRefused(minted, instructions);
        } else {
          SettlementRefused(build, PerformAll(minted, instructions).value, step.amount);
        }
    }
  }
}
