/** Integer facts used by several models. */
module Arith {
  type Byte = b: int | 0 <= b < 256

  function Pow2(n: nat): (p: nat)
    ensures p > 0
  {
    if n == 0 then 1 else 2 * Pow2(n - 1)
  }

  lemma {:induction false} PowAdd(m: nat, n: nat)
    ensures Pow2(m) * Pow2(n) == Pow2(m + n)
  {
    if m > 0 {
      PowAdd(m - 1, n);
      DoubleProduct(Pow2(m - 1), Pow2(n));
    }
  }

  lemma {:induction false} DoubleProduct(a: nat, b: nat)
    ensures 2 * (a * b) == (2 * a) * b
  {}

  lemma {:induction false} MulMonotone(a: int, b: int, k: nat)
    requires a <= b
    ensures a * k <= b * k
  {}

  /** Quotient and remainder are determined by their defining equation. */
  lemma {:induction false} RemainderUnique(a: int, l: int, q: int, p: int)
    requires l > 0 && 0 <= p < l && a == q * l + p
    ensures a % l == p && a / l == q
  {
    var d := a / l;
    assert a == d * l + a % l;
    assert (q - d) * l == q * l - d * l;
    if q - d >= 1 {
      MulMonotone(1, q - d, l);
    } else if q - d <= -1 {
      MulMonotone(q - d, -1, l);
    }
  }
}
