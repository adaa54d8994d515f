/**
 Multiplication and division facts that the solver does not find by itself.
 */
module Arithmetic {
  lemma MultiplyMonotone(a: nat, b: nat, c: nat)
    requires a <= b
    ensures a * c <= b * c && c * a <= c * b
  {
    assert b * c == a * c + (b - a) * c;
  }

  lemma Quotient(p: nat, m: nat, b: nat, r: nat)
    requires r < m && p == m * b + r
    ensures p / m == b && p % m == r
  {
    var b', r' := p / m, p % m;
    assert p == m * b' + r';
    if b' < b { MultiplyMonotone(b' + 1, b, m); }
    if b < b' { MultiplyMonotone(b + 1, b', m); }
  }
}
