/** Integer width, and division told from multiplication. */
module Arithmetic {

  const TwoTo64: nat := 0x1_0000_0000_0000_0000

  lemma Gap(q: int, n: int, b: int)
    requires q >= n + 1 && b > 0
    ensures q * b >= n * b + b
  {
    assert q * b == (n + 1) * b + (q - n - 1) * b;
    assert (q - n - 1) * b >= 0;
  }

  lemma QuotientIs(a: int, b: int, q: int, r: int)
    requires a == q * b + r && 0 <= r < b
    ensures a / b == q && a % b == r
  {
    assert a == (a / b) * b + a % b;
    if a / b > q { Gap(a / b, q, b); }
    if a / b < q { Gap(q, a / b, b); }
  }

  lemma QuotientIsNat(a: int, p: int)
    requires a >= 0 && p > 0
    ensures a / p >= 0
  {
    assert a == (a / p) * p + a % p;
    if a / p < 0 { Gap(0, a / p, p); }
  }
}
