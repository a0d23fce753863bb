/** The few facts about products and quotients that the other modules share. */
module Arithmetic {

  /** A non-zero multiple of m is at least m away from zero. */
  lemma Multiple(d: int, m: nat)
    ensures d >= 1 ==> d * m >= m
    ensures d <= -1 ==> d * m <= 0 - m
  {
  }

  lemma Monotone(a: int, b: int, m: nat)
    ensures a <= b ==> a * m <= b * m
  {
  }

  lemma Divide(x: int, m: nat) returns (q: int, r: int)
    requires m >= 1
    ensures x == q * m + r && r == x % m && q == x / m && 0 <= r < m
  {
    q, r := x / m, x % m;
  }

  /** Quotient and remainder are unique. */
  lemma {:induction false} DivModUnique(x: int, m: nat, q: int, r: int)
    requires m >= 1 && 0 <= r < m && x == q * m + r
    ensures x / m == q && x % m == r
  {
    var q', r' := Divide(x, m);
    var d := q' - q;
    assert d * m == q' * m - q * m == r - r';
    Multiple(d, m);
  }
}
