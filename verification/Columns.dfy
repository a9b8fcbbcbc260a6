/** What a decimal column of the database makes of a number. */
module Columns {
  /** The nearest integer, halves away from zero. */
  function Nearest(x: real): (k: int)
    ensures x - 0.5 <= k as real <= x + 0.5
  {
    if x >= 0.0 then (x + 0.5).Floor else -(0.5 - x).Floor
  }

  /** An integer is its own nearest. */
  lemma {:induction false} NearestOf(k: int)
    ensures Nearest(k as real) == k
  {
    assert (k as real + 0.5).Floor == k && (0.5 - k as real).Floor == -k;
  }

  predicate Below(x: real, limit: real) {
    -limit < x < limit
  }
}
