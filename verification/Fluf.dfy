/** The flash-mint pool: a share pool over token T that lends freshly minted fT within one transaction. */
module Fluf {
  import opened Machine
  import opened Token

  /** Account 0 of T is the pool's balance; account 0 of fT collects repayments. Both belong to the pool's PDA,
      as does account 1 of fT, which collects protocol fees. */
  const POOL: nat := 0
  const FEES: nat := 1

  datatype Error = InvalidAccount | EmptyPool | TokenFailure | InsufficientFunds | FeesNotPaidBack | Panic

  datatype Result<+T> = Ok(value: T) | Err(error: Error) {
    predicate IsFailure() {
      Err?
    }

    function PropagateFailure<U>(): Result<U>
      requires Err?
    {
      Err(error)
    }

    function Extract(): T
      requires Ok?
    {
      value
    }
  }

  /** How a build treats u64 results out of range: the repository's workspace turns overflow checks on, but excludes
      the pool and borrower crates, whose own manifests say nothing. */
  datatype Arithmetic = Checked | Wrapping

  /** The u64 result of an operation whose exact result is `x`. */
  function Fit(build: Arithmetic, x: int): (r: Result<U64>)
    ensures 0 <= x < U64_LIMIT ==> r == Ok(x)
  {
    if 0 <= x < U64_LIMIT then Ok(x)
    else if build.Checked? then Err(Panic)
    else Ok(x % U64_LIMIT)
  }

  datatype Pool = Pool(token: Ledger, fluf: Ledger) {
    /** The pool's T balance. */
    function Reserve(): U64 {
      token.BalanceOf(POOL)
    }

    /** The pool's own accounts exist. */
    predicate Created() {
      token.Has(POOL) && fluf.Has(POOL) && fluf.Has(FEES)
    }
  }

  /** Only the pool program can sign for the pool's accounts. */
  predicate PoolOwned(account: nat) {
    account == POOL || account == FEES
  }

  predicate IsUser(p: Pool, user: nat) {
    !PoolOwned(user) && p.token.Has(user) && p.fluf.Has(user)
  }

  // ---- Shares ----

  /** The shares a deposit buys. */
  function SharesFor(p: Pool, amount: U64): U64 {
    if p.Reserve() == 0 then amount else Truncate(MulDiv(amount, p.fluf.supply, p.Reserve()))
  }

  /** The T that `shares` redeem for. */
  function TokensFor(p: Pool, shares: U64): U64 {
    if p.fluf.supply == 0 then 0 else Truncate(MulDiv(shares, p.Reserve(), p.fluf.supply))
  }

  function Deposit(p: Pool, user: nat, amount: U64): Result<Pool> {
    if !IsUser(p, user) then Err(InvalidAccount)
    else
      var token := p.token.Transfer(user, POOL, amount);
      var fluf := p.fluf.MintTo(user, SharesFor(p, amount));
      if token.None? || fluf.None? then Err(TokenFailure) else Ok(Pool(token.value, fluf.value))
  }

  function Withdraw(p: Pool, user: nat): Result<Pool> {
    if !IsUser(p, user) then Err(InvalidAccount)
    else
      var shares := p.fluf.BalanceOf(user);
      var fluf := p.fluf.Burn(user, shares);
      var token := p.token.Transfer(POOL, user, TokensFor(p, shares));
      if fluf.None? || token.None? then Err(TokenFailure) else Ok(Pool(token.value, fluf.value))
  }

  // ---- Borrowers ----

  /** A token instruction that a borrower can issue. */
  datatype Instruction = TransferFluf(from: nat, to: nat, amount: U64) | BurnFluf(from: nat, amount: U64)

  /** A borrower is either the sample program or any program at all, seen as the fT instructions it issues. */
  datatype Borrower = Sample | Program(instructions: seq<Instruction>)

  function Perform(fluf: Ledger, instruction: Instruction): Result<Ledger> {
    if PoolOwned(instruction.from) then Err(TokenFailure)
    else
      var after :=
        match instruction
        case TransferFluf(from, to, amount) => fluf.Transfer(from, to, amount)
        case BurnFluf(from, amount) => fluf.Burn(from, amount);
      if after.None? then Err(TokenFailure) else Ok(after.value)
  }

  /** A failing instruction fails the whole transaction. */
  function PerformAll(fluf: Ledger, instructions: seq<Instruction>): Result<Ledger>
    decreases |instructions|
  {
    if instructions == [] then Ok(fluf)
    else
      var next :- Perform(fluf, instructions[0]);
      PerformAll(next, instructions[1..])
  }

  /** What the sample borrower pays back: the loan and its fee. */
  function RepaymentOf(build: Arithmetic, amount: U64): Result<U64> {
    var product :- Fit(build, amount * 25);
    Fit(build, amount + product / 1000)
  }

  /** The sample borrower repays the loan and its fee from `account`. */
  function RepayFrom(build: Arithmetic, fluf: Ledger, account: nat, amount: U64): Result<Ledger> {
    var repayment :- RepaymentOf(build, amount);
    if repayment > fluf.BalanceOf(account) then Err(InsufficientFunds)
    else
      var after := fluf.Transfer(account, POOL, repayment);
      if after.None? then Err(TokenFailure) else Ok(after.value)
  }

  function Call(build: Arithmetic, borrower: Borrower, fluf: Ledger, account: nat, amount: U64): Result<Ledger> {
    match borrower
    case Sample => if PoolOwned(account) then Err(InvalidAccount) else RepayFrom(build, fluf, account, amount)
    case Program(instructions) => PerformAll(fluf, instructions)
  }

  // ---- Flash loans ----

  /** What the pool checks for. */
  function RequiredFor(build: Arithmetic, amount: U64): Result<U64> {
    var product :- Fit(build, amount * 1025);
    Ok(product / 1000)
  }

  /** The protocol's part of what was collected beyond the loan. */
  function ProtocolFee(build: Arithmetic, collected: U64, amount: U64): Result<U64> {
    var surplus :- Fit(build, collected - amount);
    Ok(surplus / 200)
  }

  /** Checks the repayment, pays the protocol its part of the surplus and burns the rest. */
  function Settle(build: Arithmetic, fluf: Ledger, amount: U64): Result<Ledger> {
    var required :- RequiredFor(build, amount);
    var collected := fluf.BalanceOf(POOL);
    if collected < required then Err(FeesNotPaidBack)
    else
      var fee :- ProtocolFee(build, collected, amount);
      var rest :- Fit(build, collected - fee);
      var paid := fluf.Transfer(POOL, FEES, fee);
      if paid.None? then Err(TokenFailure)
      else
        var burned := paid.value.Burn(POOL, rest);
        if burned.None? then Err(TokenFailure) else Ok(burned.value)
  }

  function LendAndCall(build: Arithmetic, p: Pool, borrower: Borrower, account: nat, amount: U64): Result<Pool> {
    if p.Reserve() == 0 then Err(EmptyPool)
    else
      var minted := p.fluf.MintTo(account, amount);
      if minted.None? then Err(TokenFailure)
      else
        var called :- Call(build, borrower, minted.value, account, amount);
        var settled :- Settle(build, called, amount);
        Ok(p.(fluf := settled))
  }

  // ---- Runs ----

  /** A transaction of the pool program, or a token transaction signed by someone other than the pool. */
  datatype Step =
    | DepositStep(user: nat, amount: U64)
    | WithdrawStep(user: nat)
    | LendStep(borrower: Borrower, account: nat, amount: U64)
    | TokenStep(from: nat, to: nat, amount: U64)
    | FlufStep(instruction: Instruction)

  function Execute(build: Arithmetic, p: Pool, step: Step): Result<Pool> {
    match step
    case DepositStep(user, amount) => Deposit(p, user, amount)
    case WithdrawStep(user) => Withdraw(p, user)
    case LendStep(borrower, account, amount) => LendAndCall(build, p, borrower, account, amount)
    case TokenStep(from, to, amount) =>
      if from == POOL then Err(TokenFailure)
      else
        var token := p.token.Transfer(from, to, amount);
        if token.None? then Err(TokenFailure) else Ok(p.(token := token.value))
    case FlufStep(instruction) =>
      var fluf :- Perform(p.fluf, instruction);
      Ok(p.(fluf := fluf))
  }

  function Commit(p: Pool, result: Result<Pool>): Pool {
    if result.Ok? then result.value else p
  }

  function Apply(build: Arithmetic, p: Pool, step: Step): Pool {
    Commit(p, Execute(build, p, step))
  }

  function Run(build: Arithmetic, p: Pool, steps: seq<Step>): Pool
    decreases |steps|
  {
    if steps == [] then p else Run(build, Apply(build, p, steps[0]), steps[1..])
  }

  /** A pool just created: its fT mint and its token accounts are empty. */
  predicate Initial(p: Pool) {
    && p.Created()
    && p.token.Balanced() && p.Reserve() == 0
    && p.fluf.Balanced() && p.fluf.supply == 0
  }
}
