/** The pool program over mutable mints, step by step and rolled back on failure. */
module FlufProgram {
  import opened Machine
  import opened Token
  import opened Fluf
  import opened BorrowerSample

  /** A borrower program given by the fT instructions it issues. */
  method RunInstructions(mint: Mint, instructions: seq<Instruction>) returns (r: Result<()>)
    modifies mint
    ensures r == Status(PerformAll(old(mint.ledger), instructions))
    ensures r.Ok? ==> mint.ledger == PerformAll(old(mint.ledger), instructions).value
  {
    for k := 0 to |instructions|
      invariant PerformAll(mint.ledger, instructions[k..]) == PerformAll(old(mint.ledger), instructions)
    {
      assert instructions[k..][0] == instructions[k] && instructions[k..][1..] == instructions[k + 1..];
      if PoolOwned(instructions[k].from) {
        return Err(TokenFailure);
      }
      var ok;
      match instructions[k] {
        case TransferFluf(from, to, amount) => ok := mint.Transfer(from, to, amount);
        case BurnFluf(from, amount) => ok := mint.Burn(from, amount);
      }
      if !ok {
        return Err(TokenFailure);
      }
    }
    return Ok(());
  }

  class PoolAccount {
    /** How the deployed program was built. */
    const build: Arithmetic
    const token: Mint
    const fluf: Mint

    predicate Valid() {
      token != fluf
    }

    function Snapshot(): Pool
      reads token, fluf
    {
      Pool(token.ledger, fluf.ledger)
    }

    /** Creates a pool over an existing T mint and a new fT mint with `accounts` empty token accounts, the pool's own
        among them; the T account it creates for the pool is empty. */
    constructor (build: Arithmetic, token: Mint, accounts: nat)
      requires accounts >= 2
      requires token.ledger.Balanced() && token.ledger.Has(POOL) && token.ledger.BalanceOf(POOL) == 0
      ensures Valid() && Initial(Snapshot()) && this.build == build && this.token == token && fresh(fluf)
    {
      var balances: seq<U64> := seq(accounts, _ => 0);
      SumOfZeros(balances);
      this.build := build;
      this.token := token;
      this.fluf := new Mint(Ledger(0, balances));
    }

    method Deposit(user: nat, amount: U64) returns (r: Result<()>)
      requires Valid()
      modifies token, fluf
      ensures r == Status(Fluf.Deposit(old(Snapshot()), user, amount))
      ensures Snapshot() == Commit(old(Snapshot()), Fluf.Deposit(old(Snapshot()), user, amount))
    {
      if PoolOwned(user) || !token.ledger.Has(user) || !fluf.ledger.Has(user) {
        return Err(InvalidAccount);
      }
      var poolBalance := token.ledger.BalanceOf(POOL);
      var flufTotalSupply := fluf.ledger.supply;
      var amountFluf := amount;
      if poolBalance != 0 {
        amountFluf := Truncate(MulDiv(amount, flufTotalSupply, poolBalance));
      }
      var tokenBefore := token.ledger;
      var ok := token.Transfer(user, POOL, amount);
      if !ok {
        return Err(TokenFailure);
      }
      ok := fluf.MintTo(user, amountFluf);
      if !ok {
        token.ledger := tokenBefore;
        return Err(TokenFailure);
      }
      return Ok(());
    }

    method Withdraw(user: nat) returns (r: Result<()>)
      requires Valid()
      modifies token, fluf
      ensures r == Status(Fluf.Withdraw(old(Snapshot()), user))
      ensures Snapshot() == Commit(old(Snapshot()), Fluf.Withdraw(old(Snapshot()), user))
    {
      if PoolOwned(user) || !token.ledger.Has(user) || !fluf.ledger.Has(user) {
        return Err(InvalidAccount);
      }
      var poolBalance := token.ledger.BalanceOf(POOL);
      var flufTotalSupply := fluf.ledger.supply;
      var amountFluf := fluf.ledger.BalanceOf(user);
      var amount: U64 := 0;
      if flufTotalSupply != 0 {
        amount := Truncate(MulDiv(amountFluf, poolBalance, flufTotalSupply));
      }
      var flufBefore := fluf.ledger;
      var ok := fluf.Burn(user, amountFluf);
      if !ok {
        return Err(TokenFailure);
      }
      ok := token.Transfer(POOL, user, amount);
      if !ok {
        fluf.ledger := flufBefore;
        return Err(TokenFailure);
      }
      return Ok(());
    }

    /** Calls the borrower that was handed the loan. */
    method CallBorrower(borrower: Borrower, account: nat, amount: U64) returns (r: Result<()>)
      modifies fluf
      ensures r == Status(Call(build, borrower, old(fluf.ledger), account, amount))
      ensures r.Ok? ==> fluf.ledger == Call(build, borrower, old(fluf.ledger), account, amount).value
    {
      match borrower {
        case Sample =>
          if PoolOwned(account) {
            return Err(InvalidAccount);
          }
          r := BorrowerSample.HandleBorrow(build, fluf, account, amount);
        case Program(instructions) =>
          r := RunInstructions(fluf, instructions);
      }
    }

    /** Everything that follows the call: the repayment check, the protocol's share and the burn. */
    method CollectRepayment(amount: U64) returns (r: Result<()>)
      modifies fluf
      ensures r == Status(Settle(build, old(fluf.ledger), amount))
      ensures r.Ok? ==> fluf.ledger == Settle(build, old(fluf.ledger), amount).value
    {
      var product :- Fit(build, amount * 1025);
      var collected := fluf.ledger.BalanceOf(POOL);
      if collected < product / 1000 {
        return Err(FeesNotPaidBack);
      }
      var amountToBurn := collected;
      var surplus := Fit(build, collected - amount).value;
      var feeAmount := surplus / 200;
      amountToBurn := Fit(build, amountToBurn - feeAmount).value;
      var ok := fluf.Transfer(POOL, FEES, feeAmount);
      if !ok {
        return Err(TokenFailure);
      }
      ok := fluf.Burn(POOL, amountToBurn);
      if !ok {
        return Err(TokenFailure);
      }
      return Ok(());
    }

    method LendAndCall(borrower: Borrower, account: nat, amount: U64) returns (r: Result<()>)
      requires Valid()
      modifies fluf
      ensures r == Status(Fluf.LendAndCall(build, old(Snapshot()), borrower, account, amount))
      ensures Snapshot() == Commit(old(Snapshot()), Fluf.LendAndCall(build, old(Snapshot()), borrower, account, amount))
    {
      if token.ledger.BalanceOf(POOL) == 0 {
        return Err(EmptyPool);
      }
      var before := fluf.ledger;
      var ok := fluf.MintTo(account, amount);
      if !ok {
        return Err(TokenFailure);
      }
      r := CallBorrower(borrower, account, amount);
      if r.Ok? {
        r := CollectRepayment(amount);
      }
      if r.Err? {
        fluf.ledger := before;
      }
    }
  }

  lemma {:induction false} SumOfZeros(balances: seq<U64>)
    requires forall i :: 0 <= i < |balances| ==> balances[i] == 0
    ensures Sum(balances) == 0
  {
    if balances == [] {
    } else {
      SumOfZeros(balances[1..]);
    }
  }
}
