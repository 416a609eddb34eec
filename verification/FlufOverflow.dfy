/** Which flash loans of a build without overflow checks can leave unbacked fT, exactly, on runs from creation. */
module FlufOverflow {
  import opened Machine
  import opened Token
  import opened Fluf
  import opened FlufBacking

  // ---- Any borrower ----

  /** No committed loan of `amount`, from whatever backed pool to whatever borrower, leaves the pool unbacked. */
  ghost predicate LoansStayBacked(build: Arithmetic, amount: U64) {
    forall p, borrower, account {:trigger LendAndCall(build, p, borrower, account, amount)} ::
      Backed(p) && LendAndCall(build, p, borrower, account, amount).Ok? ==>
        Backed(LendAndCall(build, p, borrower, account, amount).value)
  }

  predicate LendsOnly(steps: seq<Step>, amount: U64) {
    forall step <- steps :: step.LendStep? ==> step.amount == amount
  }

  /** No run from creation on which all loans are of `amount` leaves the pool unbacked. */
  ghost predicate RunsStayBacked(build: Arithmetic, amount: U64) {
    forall p, steps :: Initial(p) && LendsOnly(steps, amount) ==> Backed(Run(build, p, steps))
  }

  /** Loans of an amount keep every backed pool backed, and every run from creation too, if and only if the amount
      is safe. */
  lemma LoansStayBackedExactly(build: Arithmetic, amount: U64)
    ensures LoansStayBacked(build, amount) <==> SafeAmount(build, amount)
    ensures RunsStayBacked(build, amount) <==> SafeAmount(build, amount)
  {
    if SafeAmount(build, amount) {
      SafeAmountsKeepBacking(build, amount);
    } else {
      UnsafeAmountSettlesShort(build, amount);
      ShortLoanBreaksBacking(build, amount);
      ShortLoanIsReached(build, amount);
    }
  }

  /** Amounts that are safe whoever borrows are safe for the sample borrower. */
  lemma SafeAmountsSuitSample(build: Arithmetic, amount: U64)
    requires SafeAmount(build, amount)
    ensures SafeSampleAmount(build, amount)
  {
    if !SafeSampleAmount(build, amount) {
      ShortProducts(amount, U64_LIMIT - amount);
    }
  }

  lemma SafeAmountsKeepBacking(build: Arithmetic, amount: U64)
    requires SafeAmount(build, amount)
    ensures LoansStayBacked(build, amount) && RunsStayBacked(build, amount)
  {
    SafeAmountsSuitSample(build, amount);
    forall p, borrower, account | Backed(p) && LendAndCall(build, p, borrower, account, amount).Ok?
      ensures Backed(LendAndCall(build, p, borrower, account, amount).value)
    {
      SafeLoanKeepsBacking(build, p, borrower, account, amount);
    }
    forall p, steps | Initial(p) && LendsOnly(steps, amount)
      ensures Backed(Run(build, p, steps))
    {
      RunKeepsBacking(build, p, steps);
    }
  }

  lemma UnsafeAmountSettlesShort(build: Arithmetic, amount: U64)
    requires !SafeAmount(build, amount)
    ensures amount > 0 && Settles(build, amount, amount - 1)
    ensures ProtocolFee(build, amount - 1, amount) == Ok((U64_LIMIT - 1) / 200)
  {
  }

  /** A pool into which account 1 sent one T, and no fT. */
  function Donated(): Pool {
    Pool(Ledger(1, [1, 0]), Ledger(0, [0, 0, 0]))
  }

  /** A borrower who keeps one of the lent fT. */
  function ShortBy1(amount: U64): Borrower
    requires amount > 0
  {
    Program([TransferFluf(2, POOL, amount - 1)])
  }

  lemma ShortRepayment(build: Arithmetic, amount: U64)
    requires amount > 0
    ensures Donated().fluf.MintTo(2, amount) == Some(Ledger(amount, [0, 0, amount]))
    ensures Call(build, ShortBy1(amount), Ledger(amount, [0, 0, amount]), 2, amount)
            == Ok(Ledger(amount, [amount - 1, 0, 1]))
  {
    var repay := TransferFluf(2, POOL, amount - 1);
    var minted: seq<U64> := [0, 0, amount];
    assert [0, 0, 0][2 := amount] == minted;
    assert minted[2 := 1][POOL := amount - 1] == [amount - 1, 0, 1];
    assert Perform(Ledger(amount, minted), repay) == Ok(Ledger(amount, [amount - 1, 0, 1]));
    assert [repay][1..] == [];
    assert PerformAll(Ledger(amount, minted), [repay]) == PerformAll(Ledger(amount, [amount - 1, 0, 1]), []);
  }

  /** An unsafe amount lent from the donated pool and repaid one short leaves unbacked fT. */
  lemma ShortLoanBreaksBacking(build: Arithmetic, amount: U64)
    requires amount > 0 && Settles(build, amount, amount - 1)
    requires ProtocolFee(build, amount - 1, amount) == Ok((U64_LIMIT - 1) / 200)
    ensures Backed(Donated())
    ensures LendAndCall(build, Donated(), ShortBy1(amount), 2, amount).Ok?
    ensures !Backed(LendAndCall(build, Donated(), ShortBy1(amount), 2, amount).value)
  {
    SumOfTwo(1, 0);
    SumOfThree(0, 0, 0);
    SumOfThree(amount - 1, 0, 1);
    ShortRepayment(build, amount);
    SettlesExactly(build, Ledger(amount, [amount - 1, 0, 1]), amount);
    SettleEffect(build, Ledger(amount, [amount - 1, 0, 1]), amount);
  }

  lemma DonatedIsReached(build: Arithmetic, p: Pool)
    requires p == Pool(Ledger(1, [0, 1]), Ledger(0, [0, 0, 0]))
    ensures Initial(p) && Apply(build, p, TokenStep(1, POOL, 1)) == Donated()
  {
    SumOfTwo(0, 1);
    SumOfThree(0, 0, 0);
    assert [0, 1][1 := 0][POOL := 1] == [1, 0];
  }

  lemma ShortLoanIsReached(build: Arithmetic, amount: U64)
    requires amount > 0
    requires LendAndCall(build, Donated(), ShortBy1(amount), 2, amount).Ok?
    requires !Backed(LendAndCall(build, Donated(), ShortBy1(amount), 2, amount).value)
    ensures !RunsStayBacked(build, amount)
  {
    var p := Pool(Ledger(1, [0, 1]), Ledger(0, [0, 0, 0]));
    var donate, lend := TokenStep(1, POOL, 1), LendStep(ShortBy1(amount), 2, amount);
    DonatedIsReached(build, p);
    OneStep(build, p, donate, [lend]);
    OneStep(build, Donated(), lend, []);
    assert [lend] + [] == [lend];
    assert LendsOnly([donate] + [lend], amount);
  }

  lemma OneStep(build: Arithmetic, p: Pool, step: Step, rest: seq<Step>)
    ensures Run(build, p, [step] + rest) == Run(build, Apply(build, p, step), rest)
  {
    assert ([step] + rest)[1..] == rest;
  }

  // ---- The sample borrower ----

  predicate LendsOnlyToSample(steps: seq<Step>, amount: U64) {
    forall step <- steps :: step.LendStep? ==> step.borrower.Sample? && step.amount == amount
  }

  /** No run from creation on which all loans are of `amount` to the sample borrower leaves the pool unbacked. */
  ghost predicate SampleRunsStayBacked(build: Arithmetic, amount: U64) {
    forall p, steps :: Initial(p) && LendsOnlyToSample(steps, amount) ==> Backed(Run(build, p, steps))
  }

  /** Loans of an amount to the sample borrower keep every run from creation backed if and only if the repayment of
      that amount does not wrap. */
  lemma SampleLoansStayBackedExactly(build: Arithmetic, amount: U64)
    ensures SampleRunsStayBacked(build, amount) <==> SafeSampleAmount(build, amount)
  {
    if SafeSampleAmount(build, amount) {
      forall p, steps | Initial(p) && LendsOnlyToSample(steps, amount)
        ensures Backed(Run(build, p, steps))
      {
        RunKeepsBacking(build, p, steps);
      }
    } else {
      WrappedLoanIsReached(amount, U64_LIMIT - amount);
    }
  }

  /** What a loan `d` below the u64 range comes to when its repayment wraps. */
  lemma ShortProducts(amount: U64, d: nat)
    requires amount == U64_LIMIT - d && !SafeSampleAmount(Wrapping, amount)
    ensures 1 <= d && 1025 * d <= U64_LIMIT
    ensures var q := (U64_LIMIT - 25 * d) / 1000;
            && RepaymentOf(Wrapping, amount) == Ok(q - d)
            && RequiredFor(Wrapping, amount) == Ok(q - d)
            && ProtocolFee(Wrapping, q - 1, amount) == Ok((q + d - 1) / 200)
    ensures !SafeAmount(Wrapping, amount)
  {
    var q := (U64_LIMIT - 25 * d) / 1000;
    assert (amount * 25) % U64_LIMIT == U64_LIMIT - 25 * d by {
      assert amount * 25 == 24 * U64_LIMIT + (U64_LIMIT - 25 * d);
    }
    assert (amount * 1025) % U64_LIMIT == U64_LIMIT - 1025 * d by {
      assert amount * 1025 == 1024 * U64_LIMIT + (U64_LIMIT - 1025 * d);
    }
  }

  /** A pool of `d` T that holds all `d - 1` fT itself. */
  function Seeded(d: U64): Pool
    requires d > 0
  {
    Pool(Ledger(d, [d, 0, 0, 0]), Ledger(d - 1, [d - 1, 0, 0, 0]))
  }

  lemma SeededIsReached(build: Arithmetic, d: U64, p: Pool)
    requires d > 0 && p == Pool(Ledger(d, [0, 0, d, 0]), Ledger(0, [0, 0, 0, 0]))
    ensures Initial(p)
    ensures Apply(build, Apply(build, Apply(build, p, DepositStep(2, d - 1)), TokenStep(2, POOL, 1)),
                  FlufStep(TransferFluf(2, POOL, d - 1))) == Seeded(d)
  {
    SumOfFour(0, 0, d, 0);
    SumOfFour(0, 0, 0, 0);
    var p1 := Pool(Ledger(d, [d - 1, 0, 1, 0]), Ledger(d - 1, [0, 0, d - 1, 0]));
    var p2 := Pool(Ledger(d, [d, 0, 0, 0]), Ledger(d - 1, [0, 0, d - 1, 0]));
    assert Apply(build, p, DepositStep(2, d - 1)) == p1 by {
      assert p.token.balances[2 := 1][POOL := d - 1] == p1.token.balances;
      assert p.fluf.balances[2 := d - 1] == p1.fluf.balances;
    }
    assert Apply(build, p1, TokenStep(2, POOL, 1)) == p2 by {
      assert p1.token.balances[2 := 0][POOL := d] == p2.token.balances;
    }
    assert Apply(build, p2, FlufStep(TransferFluf(2, POOL, d - 1))) == Seeded(d) by {
      assert p2.fluf.balances[2 := 0][POOL := d - 1] == Seeded(d).fluf.balances;
    }
  }

  lemma SeededIsBacked(d: U64)
    requires d > 0
    ensures Backed(Seeded(d))
  {
    SumOfFour(d, 0, 0, 0);
    SumOfFour(d - 1, 0, 0, 0);
  }

  lemma WrappedLoanCommits(amount: U64, d: U64)
    requires amount == U64_LIMIT - d && !SafeSampleAmount(Wrapping, amount)
    ensures d > 0 && LendAndCall(Wrapping, Seeded(d), Sample, 3, amount).Ok?
  {
    ShortProducts(amount, d);
    SeededIsBacked(d);
    SampleLoanCommits(Wrapping, Seeded(d), 3, amount);
  }

  /** A loan whose repayment wraps commits in the seeded pool and leaves unbacked fT. */
  lemma WrappedLoanBreaksBacking(amount: U64, d: U64)
    requires amount == U64_LIMIT - d && !SafeSampleAmount(Wrapping, amount)
    ensures d > 0 && LendAndCall(Wrapping, Seeded(d), Sample, 3, amount).Ok?
    ensures !Backed(LendAndCall(Wrapping, Seeded(d), Sample, 3, amount).value)
  {
    WrappedLoanCommits(amount, d);
    ShortProducts(amount, d);
    SeededIsBacked(d);
    LoanEffect(Wrapping, Seeded(d), Sample, 3, amount);
  }

  lemma WrappedLoanIsReached(amount: U64, d: U64)
    requires amount == U64_LIMIT - d && !SafeSampleAmount(Wrapping, amount)
    ensures !SampleRunsStayBacked(Wrapping, amount)
  {
    WrappedLoanBreaksBacking(amount, d);
    var p, lend := Pool(Ledger(d, [0, 0, d, 0]), Ledger(0, [0, 0, 0, 0])), LendStep(Sample, 3, amount);
    var s1, s2, s3 := DepositStep(2, d - 1), TokenStep(2, POOL, 1), FlufStep(TransferFluf(2, POOL, d - 1));
    SeededIsReached(Wrapping, d, p);
    var p1 := Apply(Wrapping, p, s1);
    var p2 := Apply(Wrapping, p1, s2);
    OneStep(Wrapping, p, s1, [s2, s3, lend]);
    OneStep(Wrapping, p1, s2, [s3, lend]);
    OneStep(Wrapping, p2, s3, [lend]);
    OneStep(Wrapping, Seeded(d), lend, []);
    assert [s2] + [s3, lend] == [s2, s3, lend] && [s3] + [lend] == [s3, lend] && [lend] + [] == [lend];
    var steps := [s1] + [s2, s3, lend];
    assert LendsOnlyToSample(steps, amount);
  }
}
