/** What a set of accounts holds together, and when a coalition of accounts grows no richer. */
module Holdings {
  import opened Machine
  import opened Token

  /** The balances of the accounts in `crew`, and zero for all others. */
  function Masked(balances: seq<nat>, crew: set<nat>): seq<nat> {
    seq(|balances|, i requires 0 <= i < |balances| => if i in crew then balances[i] else 0)
  }

  /** What the accounts in `crew` hold together. */
  function Held(ledger: Ledger, crew: set<nat>): nat {
    Sum(Masked(ledger.balances, crew))
  }

  lemma HeldUpdate(balances: seq<nat>, crew: set<nat>, i: nat, x: nat)
    requires i < |balances|
    ensures Sum(Masked(balances[i := x], crew))
            == Sum(Masked(balances, crew)) + if i in crew then x - balances[i] else 0
  {
    var masked := Masked(balances, crew);
    assert Masked(balances[i := x], crew) == masked[i := if i in crew then x else 0];
    SumUpdate(masked, i, if i in crew then x else 0);
  }

  lemma TransferHeld(ledger: Ledger, crew: set<nat>, from: nat, to: nat, amount: U64)
    requires ledger.Transfer(from, to, amount).Some?
    ensures Held(ledger.Transfer(from, to, amount).value, crew)
            == Held(ledger, crew) - (if from in crew then amount else 0) + (if to in crew then amount else 0)
  {
    if from != to {
      var debited: seq<nat> := ledger.balances[from := ledger.balances[from] - amount];
      HeldUpdate(ledger.balances, crew, from, ledger.balances[from] - amount);
      HeldUpdate(debited, crew, to, ledger.balances[to] + amount);
    }
  }

  lemma MintHeld(ledger: Ledger, crew: set<nat>, to: nat, amount: U64)
    requires ledger.MintTo(to, amount).Some?
    ensures Held(ledger.MintTo(to, amount).value, crew) == Held(ledger, crew) + if to in crew then amount else 0
  {
    HeldUpdate(ledger.balances, crew, to, ledger.balances[to] + amount);
  }

  lemma BurnHeld(ledger: Ledger, crew: set<nat>, from: nat, amount: U64)
    requires ledger.Burn(from, amount).Some?
    ensures Held(ledger.Burn(from, amount).value, crew) == Held(ledger, crew) - if from in crew then amount else 0
  {
    HeldUpdate(ledger.balances, crew, from, ledger.balances[from] - amount);
  }

  lemma HeldWithOneMore(ledger: Ledger, crew: set<nat>, i: nat)
    requires i !in crew && ledger.Has(i)
    ensures Held(ledger, crew + {i}) == Held(ledger, crew) + ledger.balances[i]
  {
    var masked := Masked(ledger.balances, crew);
    assert Masked(ledger.balances, crew + {i}) == masked[i := ledger.balances[i]];
    SumUpdate(masked, i, ledger.balances[i]);
  }

  // ---- Wallets plus claims ----

  /** If no value enters from outside and the claim of the others does not fall, what a coalition has in its wallets
      plus its claim does not rise. */
  lemma MoreForOthers(wallet0: nat, assets0: nat, own0: nat, others0: nat,
                      wallet1: nat, assets1: nat, own1: nat, others1: nat)
    requires wallet1 + assets1 <= wallet0 + assets0
    requires RatioAtLeast(others1 * assets1, others1 + own1, others0 * assets0, others0 + own0)
    ensures RatioAtLeast(wallet0 * (others0 + own0) + assets0 * own0, others0 + own0,
                         wallet1 * (others1 + own1) + assets1 * own1, others1 + own1)
  {
    var shares0, shares1 := others0 + own0, others1 + own1;
    SplitWealth(wallet0, assets0, own0, others0);
    SplitWealth(wallet1, assets1, own1, others1);
    MulLe(wallet1 + assets1, wallet0 + assets0, shares1);
    MulLe((wallet1 + assets1) * shares1, (wallet0 + assets0) * shares1, shares0);
    assert (wallet0 + assets0) * shares1 * shares0 == (wallet0 + assets0) * shares0 * shares1;
    Subtracted((wallet0 + assets0) * shares0, others0 * assets0, shares1);
    Subtracted((wallet1 + assets1) * shares1, others1 * assets1, shares0);
  }

  lemma SplitWealth(wallet: int, assets: int, own: int, others: int)
    ensures wallet * (others + own) + assets * own == (wallet + assets) * (others + own) - others * assets
  {
  }

  lemma Subtracted(a: int, b: int, c: int)
    ensures (a - b) * c == a * c - b * c
  {
  }

  lemma WalletsCompare(before: nat, shares: nat, after: nat, shares': nat)
    requires shares > 0 && shares' > 0
    requires RatioAtLeast(before * shares, shares, after * shares', shares')
    ensures after <= before
  {
    assert (after * shares') * shares == after * shares * shares';
    assert (before * shares) * shares' == before * shares * shares';
    MulCancel(after * shares, before * shares, shares');
    MulCancel(after, before, shares);
  }

  // ---- Deposit, then redeem ----

  /** The bounds on what `minted` of the shares for a deposit of `amount` redeem for. */
  lemma RoundTripBounds(assets: nat, shares: nat, amount: nat, minted: nat)
    requires assets > 0 && shares > 0
    requires minted * assets <= amount * shares
    ensures MulDiv(minted, assets + amount, shares + minted) <= amount
    ensures minted == MulDiv(amount, shares, assets) ==>
              (amount - MulDiv(minted, assets + amount, shares + minted) - 1) * (shares + minted) < assets
  {
    assert minted * (assets + amount) == minted * assets + minted * amount;
    assert amount * (shares + minted) == amount * shares + amount * minted;
    MulDivAtMost(minted, assets + amount, shares + minted, amount);
    if minted == MulDiv(amount, shares, assets) {
      var back := MulDiv(minted, assets + amount, shares + minted);
      MulDivBounds(amount, shares, assets);
      MulDivBounds(minted, assets + amount, shares + minted);
      assert (amount - back - 1) * (shares + minted)
          == amount * (shares + minted) - back * (shares + minted) - (shares + minted);
    }
  }
}
