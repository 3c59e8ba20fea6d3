/** Facts about real numbers that the percentage computations share. */
module Reals {
  /** A positive factor can be cancelled from both sides of an inequality. */
  lemma CancelFactor(x: real, y: real, b: real)
    requires b > 0.0 && x * b <= y * b
    ensures x <= y
  {
  }
}
