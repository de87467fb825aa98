/** Integer helpers shared by the chunking, batching and rotation proofs. */
module Arith {
  function Min(a: int, b: int): int {
    if a <= b then a else b
  }

  lemma MulMono(x: int, y: int, m: nat)
    ensures x <= y ==> x * m <= y * m
    ensures (x + 1) * m == x * m + m
  {
  }

  lemma DivisionIsUnique(a: nat, m: nat, d: nat)
    requires m >= 1 && d * m <= a < (d + 1) * m
    ensures a / m == d
  {
    var r := a / m;
    assert a == r * m + a % m;
    MulMono(r + 1, d, m);
    MulMono(d + 1, r, m);
    MulMono(r, r, m);
    MulMono(d, d, m);
  }

  /** Adding the divisor adds one to the quotient. */
  lemma DivShift(x: nat, m: nat)
    requires m >= 1
    ensures (x + m) / m == x / m + 1
  {
    var q := x / m;
    assert x == q * m + x % m;
    MulMono(q, q, m);
    MulMono(q + 1, q + 1, m);
    DivisionIsUnique(x + m, m, q + 1);
  }

  /** Division by a positive number is monotone. */
  lemma DivMono(a: nat, b: nat, m: nat)
    requires m >= 1 && a <= b
    ensures a / m <= b / m
  {
    var qa := a / m;
    var qb := b / m;
    assert a == qa * m + a % m;
    assert b == qb * m + b % m;
    MulMono(qb + 1, qa, m);
    MulMono(qb, qb, m);
  }
}
