/** Order facts about real multiplication that the layout and scaling proofs share. */
module RealOrder {
  /** Multiplying by a non-negative factor preserves order. */
  lemma MultiplyMonotone(a: real, b: real, k: real)
    requires a <= b && k >= 0.0
    ensures a * k <= b * k
  {
    assert b * k - a * k == (b - a) * k;
  }

  /** A positive factor can be cancelled from both sides of an inequality. */
  lemma CancelPositive(a: real, b: real, k: real)
    requires k > 0.0 && a * k <= b * k
    ensures a <= b
  {
  }
}
