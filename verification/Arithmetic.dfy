/** Facts about products that the solver is better given one at a time. */
module Arithmetic {
  const INT64_MAX: int := 0x7fff_ffff_ffff_ffff

  lemma {:induction false} Distribute(a: int, b: int, x: int)
    ensures (a + b) * x == a * x + b * x
  {}

  lemma {:induction false} Negated(a: int, b: int)
    ensures a * -b == -(a * b)
  {}

  lemma {:induction false} InOrder(q: int, x: int, y: int)
    requires q >= 0 && x <= y
    ensures q * x <= q * y
  {}

  lemma {:induction false} ProductPositive(a: real, b: real)
    requires a > 0.0 && b > 0.0
    ensures a * b > 0.0
  {}
}
