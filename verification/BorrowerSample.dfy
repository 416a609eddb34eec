/** The sample borrower program. */
module BorrowerSample {
  import opened Machine
  import opened Token
  import opened Fluf

  function Status<T>(result: Result<T>): Result<()> {
    if result.Ok? then Ok(()) else Err(result.error)
  }

  /** The sample borrower's entry point. */
  method HandleBorrow(build: Arithmetic, mint: Mint, borrowerAccount: nat, amount: U64) returns (r: Result<()>)
    modifies mint
    ensures var result := RepayFrom(build, old(mint.ledger), borrowerAccount, amount);
            && r == Status(result)
            && mint.ledger == if result.Ok? then result.value else old(mint.ledger)
  {
    var product :- Fit(build, amount * 25);
    var fee := product / 1000;
    var totalRepayment := Fit(build, amount + fee).value;
    if totalRepayment > mint.ledger.BalanceOf(borrowerAccount) {
      return Err(InsufficientFunds);
    }
    var ok := mint.Transfer(borrowerAccount, POOL, totalRepayment);
    if !ok {
      return Err(TokenFailure);
    }
    return Ok(());
  }
}
