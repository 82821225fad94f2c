/** Facts about products, quotients and remainders that the solver needs spelled out. */
module Arithmetic {

  /** Multiples of `d` are at least `d` apart. */
  lemma MultiplesApart(d: nat, m: int, q: int)
    ensures m > q ==> d * m >= d * q + d
    ensures m < q ==> d * m + d <= d * q
  {
    if m > q {
      ProductPositive(d, m - q - 1);
      assert d * m == d * q + d + d * (m - q - 1);
    } else if m < q {
      ProductPositive(d, q - m - 1);
      assert d * q == d * m + d + d * (q - m - 1);
    }
  }

  lemma QuotientIs(n: nat, d: nat, q: nat)
    requires d > 0 && d * q <= n < d * q + d
    ensures n / d == q
  {
    QuotientBounds(n, d);
    MultiplesApart(d, n / d, q);
  }

  lemma QuotientBounds(n: nat, d: nat)
    requires d > 0
    ensures n / d >= 0 && d * (n / d) <= n < d * (n / d) + d
  {
    assert n == d * (n / d) + n % d;
  }

  /** Integer division as the code has it: towards zero. */
  function Truncated(n: int, d: int): int
    requires d != 0
  {
    if n >= 0 then n / d else -((-n) / d)
  }

  lemma ProductPositive(a: nat, b: nat)
    ensures a * b >= 0
  {
  }

  lemma MinusTimes(a: int, b: int, c: int)
    ensures (a - b) * c == a * c - b * c
  {
  }

  lemma QuotientWithRemainder(n: nat, d: nat, a: nat, r: nat)
    requires d > 0 && n == d * a + r
    ensures n / d >= a
    ensures n / d == a <==> r < d
  {
    QuotientBounds(n, d);
    MultiplesApart(d, n / d, a);
  }

  lemma RemainderOf(n: nat, k: nat, r: nat)
    requires r < n
    ensures n * k + r >= 0 && (n * k + r) % n == r
  {
    ProductPositive(n, k);
    QuotientIs(n * k + r, n, k);
  }

  /** Numbers less than `n` apart with the same remainder are equal. */
  lemma SameRemainder(a: nat, b: nat, n: nat)
    requires n > 0 && a <= b < a + n && a % n == b % n
    ensures a == b
  {
    QuotientBounds(a, n);
    QuotientBounds(b, n);
    MultiplesApart(n, b / n, a / n);
  }
}
