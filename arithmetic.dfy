/** Integer division facts shared by the mesher rules and the kernel's index macros. */
module Arithmetic {

  /** A multiple of a positive `d` by a non-zero factor is at least `d` away from zero. */
  lemma MulAwayFromZero(d: int, m: int)
    requires d > 0
    ensures m >= 1 ==> d * m >= d
    ensures m <= -1 ==> d * m <= -d
  {
  }

  /** Division by a positive `d` is determined by its defining equation: if
      `n == q * d + r` with `0 <= r < d`, then `q` and `r` are the quotient and
      remainder. */
  lemma DivModUnique(n: int, d: int, q: int, r: int)
    requires d > 0 && 0 <= r < d && n == q * d + r
    ensures n / d == q && n % d == r
  {
    MulAwayFromZero(d, q - n / d);
  }
}
