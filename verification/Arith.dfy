/** Small integer functions, and facts about products, quotients and powers that the solver needs spelled out. */
module Arith {

  function Min(a: int, b: int): (m: int) {
    if a < b then a else b
  }

  function Max(a: int, b: int): (m: int) {
    if a > b then a else b
  }

  function Abs(n: int): (a: nat) {
    if n < 0 then -n else n
  }

  lemma MulMonotone(x: int, y: int, d: int)
    requires x <= y && 0 <= d
    ensures x * d <= y * d
  {
  }

  lemma DivMod(n: int, d: int)
    requires d > 0
    ensures n == (n / d) * d + n % d && 0 <= n % d < d
  {
  }

  /** Division with remainder determines the quotient and the remainder. */
  lemma QuotientFromRemainder(n: int, q: int, d: int, r: int)
    requires 0 <= r < d && n == q * d + r
    ensures n / d == q && n % d == r
  {
    DivMod(n, d);
    var q' := n / d;
    if q' > q {
      MulMonotone(q + 1, q', d);
    } else if q' < q {
      MulMonotone(q' + 1, q, d);
    }
  }

  /** b to the power e. */
  function Pow(b: nat, e: nat): (p: nat)
    ensures b > 0 ==> p > 0
  {
    if e == 0 then 1 else b * Pow(b, e - 1)
  }

  lemma {:induction false} PowAdd(b: nat, x: nat, y: nat)
    ensures Pow(b, x + y) == Pow(b, x) * Pow(b, y)
  {
    if x == 0 {
    } else {
      PowAdd(b, x - 1, y);
      MulAssociative(b, Pow(b, x - 1), Pow(b, y));
    }
  }

  lemma MulAssociative(x: int, y: int, z: int)
    ensures (x * y) * z == x * (y * z)
  {
  }
}
