/** Arithmetic facts shared by the field layout and the patch exponents. */
module Arith {
  /** Multiplying by the same factor keeps the order. */
  lemma MulMonotone(a: nat, b: nat, c: nat)
    requires a <= b
    ensures a * c <= b * c
  {
  }
}
