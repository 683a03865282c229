/** The base of every heuristic: the range its scores are meant to lie in. */
module Heuristics {

  /** What a heuristic's `evaluate` promises: a score between 0 and its range. */
  predicate InRange(score: real, range: real) {
    0.0 <= score <= range
  }

  class Heuristic {
    var range: real

    /** The default range is 100. */
    constructor ()
      ensures range == 100.0
    {
      range := 100.0;
    }

    constructor WithRange(range: real)
      ensures this.range == range
    {
      this.range := range;
    }

    /** `setRange`: the range becomes `r` and nothing else changes. */
    method SetRange(r: real)
      modifies this
      ensures range == r
    {
      range := r;
    }

    /** `getRange`. */
    method GetRange() returns (r: real)
      ensures r == range
    {
      r := range;
    }
  }

  /** A range read back after it was set is the range that was set. */
  method SetThenGet(h: Heuristic, r: real) returns (got: real)
    modifies h
    ensures got == r
  {
    h.SetRange(r);
    got := h.GetRange();
  }
}
