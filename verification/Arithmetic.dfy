/** The few facts about products and quotients that the proofs need spelled out. */
module Arithmetic {
  function Min(a: int, b: int): int { if a <= b then a else b }

  function Max(a: int, b: int): int { if a <= b then b else a }

  function CeilDiv(a: int, b: int): int
    requires b >= 1
  {
    (a + b - 1) / b
  }

  lemma MulMono(a: int, b: int, k: nat)
    requires a <= b
    ensures a * k <= b * k
  {
  }

  lemma MulAdds(k: int, a: int, b: int)
    ensures k * (a + b) == k * a + k * b
  {
  }

  lemma QuotientIs(a: int, d: nat, q: int)
    requires d >= 1 && q * d <= a < (q + 1) * d
    ensures a / d == q
  {
    var p := a / d;
    assert a == p * d + a % d;
    if p > q { MulMono(q + 1, p, d); }
    if p < q { MulMono(p + 1, q, d); }
  }

  lemma QuotientShift(a: int, d: nat)
    requires d >= 1
    ensures (a - d) / d == a / d - 1
  {
    var q := a / d;
    assert a == q * d + a % d;
    QuotientIs(a - d, d, q - 1);
  }

  lemma QuotientMono(a: int, b: int, d: nat)
    requires d >= 1 && a <= b
    ensures a / d <= b / d
  {
    var p, q := a / d, b / d;
    assert a == p * d + a % d && b == q * d + b % d;
    if p > q { MulMono(q + 1, p, d); }
  }

  lemma CeilDivIsLeast(a: nat, b: nat, s: int)
    requires b >= 1
    ensures s >= CeilDiv(a, b) <==> s * b >= a
  {
    var c := CeilDiv(a, b);
    assert (a + b - 1) == c * b + (a + b - 1) % b;
    assert c * b >= a && (c - 1) * b < a;
    if s >= c {
      MulMono(c, s, b);
    } else {
      MulMono(s, c - 1, b);
    }
  }
}
