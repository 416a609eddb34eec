/** SPL token mints: a supply and one balance for each token account. */
module Token {
  import opened Machine

  /** The sum of a sequence of amounts. */
  function Sum(s: seq<nat>): nat {
    if s == [] then 0 else s[0] + Sum(s[1..])
  }

  lemma {:induction false} SumUpdate(s: seq<nat>, i: nat, x: nat)
    requires i < |s|
    ensures Sum(s[i := x]) == Sum(s) - s[i] + x
  {
    if i == 0 {
      assert s[i := x][1..] == s[1..];
    } else {
      assert s[i := x][1..] == s[1..][i - 1 := x];
      SumUpdate(s[1..], i - 1, x);
    }
  }

  lemma {:induction false} SumAppend(s: seq<nat>, x: nat)
    ensures Sum(s + [x]) == Sum(s) + x
  {
    if s == [] {
      assert s + [x] == [x];
    } else {
      assert (s + [x])[1..] == s[1..] + [x];
      SumAppend(s[1..], x);
    }
  }

  lemma {:induction false} ElementAtMostSum(s: seq<nat>, i: nat)
    requires i < |s|
    ensures s[i] <= Sum(s)
  {
    if i == 0 {
    } else {
      ElementAtMostSum(s[1..], i - 1);
    }
  }

  lemma {:induction false} TwoElementsAtMostSum(s: seq<nat>, i: nat, j: nat)
    requires i < j < |s|
    ensures s[i] + s[j] <= Sum(s)
  {
    if i == 0 {
      ElementAtMostSum(s[1..], j - 1);
    } else {
      TwoElementsAtMostSum(s[1..], i - 1, j - 1);
    }
  }

  lemma SumOfTwo(a: nat, b: nat)
    ensures Sum([a, b]) == a + b
  {
    assert [a, b][1..] == [b] && [b][1..] == [];
    assert Sum([b]) == b;
  }

  lemma SumOfThree(a: nat, b: nat, c: nat)
    ensures Sum([a, b, c]) == a + b + c
  {
    assert [a, b, c][1..] == [b, c];
    SumOfTwo(b, c);
  }

  lemma SumOfFour(a: nat, b: nat, c: nat, d: nat)
    ensures Sum([a, b, c, d]) == a + b + c + d
  {
    assert [a, b, c, d][1..] == [b, c, d];
    SumOfThree(b, c, d);
  }

  datatype Option<+T> = None | Some(value: T)

  datatype Ledger = Ledger(supply: U64, balances: seq<U64>) {
    /** Every token in circulation lies in some account. */
    predicate Balanced() {
      supply == Sum(balances)
    }

    predicate Has(account: nat) {
      account < |balances|
    }

    function BalanceOf(account: nat): U64 {
      if account < |balances| then balances[account] else 0
    }

    function Transfer(from: nat, to: nat, amount: U64): Option<Ledger> {
      if !Has(from) || !Has(to) || balances[from] < amount then None
      else if from == to then Some(this)
      else if balances[to] + amount >= U64_LIMIT then None
      else Some(this.(balances := balances[from := balances[from] - amount][to := balances[to] + amount]))
    }

    function MintTo(to: nat, amount: U64): Option<Ledger> {
      if !Has(to) || supply + amount >= U64_LIMIT || balances[to] + amount >= U64_LIMIT then None
      else Some(Ledger(supply + amount, balances[to := balances[to] + amount]))
    }

    function Burn(from: nat, amount: U64): Option<Ledger> {
      if !Has(from) || balances[from] < amount || supply < amount then None
      else Some(Ledger(supply - amount, balances[from := balances[from] - amount]))
    }

    lemma TransferBalanced(from: nat, to: nat, amount: U64)
      requires Balanced() && Transfer(from, to, amount).Some?
      ensures Transfer(from, to, amount).value.Balanced()
    {
      if from != to {
        var debited: seq<nat> := balances[from := balances[from] - amount];
        SumUpdate(balances, from, balances[from] - amount);
        SumUpdate(debited, to, balances[to] + amount);
      }
    }

    lemma MintBalanced(to: nat, amount: U64)
      requires Balanced() && MintTo(to, amount).Some?
      ensures MintTo(to, amount).value.Balanced()
    {
      SumUpdate(balances, to, balances[to] + amount);
    }

    lemma BurnBalanced(from: nat, amount: U64)
      requires Balanced() && Burn(from, amount).Some?
      ensures Burn(from, amount).value.Balanced()
    {
      SumUpdate(balances, from, balances[from] - amount);
    }

    /** In a balanced ledger only missing accounts, missing funds or a full supply stop an operation. */
    lemma Enough(from: nat, to: nat, amount: U64)
      requires Balanced() && Has(from) && Has(to)
      ensures Transfer(from, to, amount).Some? <==> amount <= balances[from]
      ensures Burn(from, amount).Some? <==> amount <= balances[from]
      ensures MintTo(to, amount).Some? <==> supply + amount < U64_LIMIT
    {
      ElementAtMostSum(balances, from);
      ElementAtMostSum(balances, to);
      if from < to {
        TwoElementsAtMostSum(balances, from, to);
      } else if to < from {
        TwoElementsAtMostSum(balances, to, from);
      }
    }
  }

  /** A mint account and its token accounts, updated in place by the token program. */
  class Mint {
    var ledger: Ledger

    constructor (initial: Ledger)
      ensures ledger == initial
    {
      ledger := initial;
    }

    method Transfer(from: nat, to: nat, amount: U64) returns (ok: bool)
      modifies this
      ensures ok == old(ledger).Transfer(from, to, amount).Some?
      ensures ledger == if ok then old(ledger).Transfer(from, to, amount).value else old(ledger)
    {
      var after := ledger.Transfer(from, to, amount);
      ok := after.Some?;
      if ok {
        ledger := after.value;
      }
    }

    method MintTo(to: nat, amount: U64) returns (ok: bool)
      modifies this
      ensures ok == old(ledger).MintTo(to, amount).Some?
      ensures ledger == if ok then old(ledger).MintTo(to, amount).value else old(ledger)
    {
      var after := ledger.MintTo(to, amount);
      ok := after.Some?;
      if ok {
        ledger := after.value;
      }
    }

    method Burn(from: nat, amount: U64) returns (ok: bool)
      modifies this
      ensures ok == old(ledger).Burn(from, amount).Some?
      ensures ledger == if ok then old(ledger).Burn(from, amount).value else old(ledger)
    {
      var after := ledger.Burn(from, amount);
      ok := after.Some?;
      if ok {
        ledger := after.value;
      }
    }
  }
}
