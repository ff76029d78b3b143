/** Quotients and products of integers, in the small steps that the other modules need. */
module Arithmetic {

  function Min(a: int, b: int): int { if a <= b then a else b }
  function Max(a: int, b: int): int { if a >= b then a else b }

  lemma Monotone(a: int, b: int, c: int)
    requires c >= 0
    ensures a <= b ==> a * c <= b * c
  {
  }

  /** Quotient and remainder are unique. */
  lemma Unique(q: int, m: int, r: int, k: int, c: int)
    requires 0 <= m < c && 0 <= k < c && q * c + m == r * c + k
    ensures q == r && m == k
  {
    Monotone(q + 1, r, c);
    Monotone(r + 1, q, c);
  }

  function CeilDiv(a: nat, b: int): nat
    requires b > 0
  {
    (a + b - 1) / b
  }

  lemma CeilDivBounds(a: nat, b: int)
    requires b > 0
    ensures CeilDiv(a, b) * b >= a && (a > 0 ==> (CeilDiv(a, b) - 1) * b < a)
  {
    var q := (a + b - 1) / b;
    assert q * b <= a + b - 1 < q * b + b;
    assert (q - 1) * b == q * b - b;
  }

  /** The ceiling is the least count whose multiple reaches a. */
  lemma CeilDivLeast(a: nat, b: int, q: nat)
    requires b > 0
    ensures CeilDiv(a, b) <= q <==> a <= q * b
  {
    CeilDivBounds(a, b);
    Monotone(q, CeilDiv(a, b) - 1, b);
    Monotone(CeilDiv(a, b), q, b);
  }

  lemma CeilDivNext(a: nat, b: int)
    requires b > 0
    ensures CeilDiv(a + b, b) == CeilDiv(a, b) + 1
  {
    var n := a + b - 1;
    var q, r := n / b, (n + b) / b;
    assert (q + 1) * b == q * b + b;
    Unique(r, (n + b) % b, q + 1, n % b, b);
  }
}
