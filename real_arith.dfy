// Monotonicity facts about multiplication and division of reals, proved once
// so that the trip-duration proofs can cite them instead of leaving the
// non-linear steps to the solver.

module RealArith {

  /** Multiplying by a positive factor keeps a strict order. */
  lemma MulStrictlyMonotone(a: real, b: real, c: real)
    requires a < b && c > 0.0
    ensures a * c < b * c
  {
  }

  /** A strict order of products with a positive factor holds of the other factors. */
  lemma MulCancelStrict(a: real, b: real, c: real)
    requires a * c < b * c && c > 0.0
    ensures a < b
  {
  }

  /** Multiplying by a non-negative factor keeps a weak order. */
  lemma MulMonotone(a: real, b: real, c: real)
    requires a <= b && c >= 0.0
    ensures a * c <= b * c
  {
  }

  /** Dividing by a positive divisor keeps a weak order. */
  lemma DivMonotone(a: real, b: real, c: real)
    requires a <= b && c > 0.0
    ensures a / c <= b / c
  {
    MulMonotone(a, b, 1.0 / c);
  }
}
