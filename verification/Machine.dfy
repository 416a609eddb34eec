/** Fixed-width integers and floored products, as the Rust programs use them. */
module Machine {

  const U64_LIMIT: nat := 0x1_0000_0000_0000_0000
  const U128_LIMIT: nat := 0x1_0000_0000_0000_0000_0000_0000_0000_0000
  const I64_LIMIT: nat := 0x8000_0000_0000_0000

  type U16 = x: nat | x < 0x1_0000
  type U64 = x: nat | x < U64_LIMIT
  type U128 = x: nat | x < U128_LIMIT
  /** A Unix timestamp read from the clock sysvar: an `i64` that is never negative. */
  type Timestamp = x: nat | x < I64_LIMIT

  /** `x as u64`: keeps the low 64 bits. */
  function Truncate(x: nat): (r: U64)
    ensures r <= x
    ensures x < U64_LIMIT ==> r == x
  {
    x % U64_LIMIT
  }

  /** `(now - since) as u64`: a negative difference wraps around. */
  function Elapsed(now: Timestamp, since: Timestamp): (r: U64)
    ensures since <= now ==> r == now - since
  {
    (now - since) % U64_LIMIT
  }

  function Min(a: int, b: int): int {
    if a <= b then a else b
  }

  function SaturatingSub(a: nat, b: nat): nat {
    if b <= a then a - b else 0
  }

  /** `a * b / c`; for u64 operands the product always fits the u128 it is computed in. */
  function MulDiv(a: nat, b: nat, c: nat): nat
    requires c > 0
  {
    a * b / c
  }

  lemma MulDivBounds(a: nat, b: nat, c: nat)
    requires c > 0
    ensures MulDiv(a, b, c) * c <= a * b < MulDiv(a, b, c) * c + c
  {
    var p := a * b;
    assert p == p / c * c + p % c;
  }

  /** A quantity bounded by `a * b` in units of `c` is at most the floored product. */
  lemma MulDivAtLeast(a: nat, b: nat, c: nat, q: nat)
    requires c > 0
    requires q * c <= a * b
    ensures q <= MulDiv(a, b, c)
  {
    MulDivBounds(a, b, c);
    var m := MulDiv(a, b, c);
    if q >= m + 1 {
      MulLe(m + 1, q, c);
    }
  }

  /** A quantity strictly above `a * b - c` in units of `c` is at least the floored product. */
  lemma MulDivAtMost(a: nat, b: nat, c: nat, q: nat)
    requires c > 0
    requires a * b <= q * c
    ensures MulDiv(a, b, c) <= q
  {
    MulDivBounds(a, b, c);
    var m := MulDiv(a, b, c);
    if m >= q + 1 {
      MulLe(q + 1, m, c);
    }
  }

  lemma MulLe(a: int, b: int, c: nat)
    requires a <= b
    ensures a * c <= b * c
    ensures c * a <= c * b
  {
  }

  lemma MulCancel(a: int, b: int, c: nat)
    requires c > 0
    requires a * c <= b * c
    ensures a <= b
  {
    if b < a {
      MulLe(b + 1, a, c);
    }
  }

  /** A floored, truncated quotient is at most the exact one, and is the floor itself if that fits in a u64. */
  lemma SharesAreFloored(a: nat, b: nat, c: nat)
    requires c > 0
    ensures var q := Truncate(MulDiv(a, b, c));
            && q * c <= a * b
            && (a * b < U64_LIMIT * c ==> a * b < (q + 1) * c)
  {
    var q := MulDiv(a, b, c);
    MulDivBounds(a, b, c);
    MulLe(Truncate(q), q, c);
    assert (q + 1) * c == q * c + c;
    if q >= U64_LIMIT {
      MulLe(U64_LIMIT, q, c);
    }
  }

  /** Comparison of the ratios n0/d0 and n1/d1 without division: n1/d1 is at least n0/d0. */
  predicate RatioAtLeast(n1: nat, d1: nat, n0: nat, d0: nat) {
    n1 * d0 >= n0 * d1
  }

  lemma RatioTransitive(n0: nat, d0: nat, n1: nat, d1: nat, n2: nat, d2: nat)
    requires d1 > 0
    requires RatioAtLeast(n1, d1, n0, d0)
    requires RatioAtLeast(n2, d2, n1, d1)
    ensures RatioAtLeast(n2, d2, n0, d0)
  {
    calc {
      (n0 * d2) * d1;
      (n0 * d1) * d2;
    <= { MulLe(n0 * d1, n1 * d0, d2); }
      (n1 * d0) * d2;
      (n1 * d2) * d0;
    <= { MulLe(n1 * d2, n2 * d1, d0); }
      (n2 * d1) * d0;
      (n2 * d0) * d1;
    }
    MulCancel(n0 * d2, n2 * d0, d1);
  }

  /** Adding to the numerator, and at most proportionally to the denominator, does not lower a ratio. */
  lemma RatioGrows(n: nat, d: nat, n1: nat, d1: nat)
    requires d1 * n <= n1 * d
    ensures RatioAtLeast(n + n1, d + d1, n, d)
  {
    assert (n + n1) * d == n * d + n1 * d;
    assert n * (d + d1) == n * d + d1 * n;
  }

  /** Taking from the denominator, and at most proportionally from the numerator, does not lower a ratio. */
  lemma RatioShrinks(n: nat, d: nat, n1: nat, d1: nat)
    requires n1 <= n && d1 <= d
    requires n1 * d <= d1 * n
    ensures RatioAtLeast(n - n1, d - d1, n, d)
  {
    assert (n - n1) * d == n * d - n1 * d;
    assert n * (d - d1) == n * d - d1 * n;
  }

  /** At a ratio that does not fall, holding at least as many units is worth at least as much. */
  lemma RatioScales(k: nat, n: nat, d: nat, k': nat, n': nat, d': nat)
    requires k <= k' && RatioAtLeast(n', d', n, d)
    ensures RatioAtLeast(k' * n', d', k * n, d)
  {
    calc {
      k' * n' * d;
      k' * (n' * d);
    >= { MulLe(k, k', n' * d); }
      k * (n' * d);
    >= { MulLe(n * d', n' * d, k); }
      k * (n * d');
      k * n * d';
    }
  }
}
