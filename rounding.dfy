/** `Math.round` on exact reals: the nearest integer, halves rounded up. */
module Rounding {

  function Round(x: real): (n: int)
    ensures x - 0.5 < n as real <= x + 0.5
  {
    (x + 0.5).Floor
  }

  /** A percentage `part / whole * 100` of a part within its whole rounds into [0, 100]. */
  lemma RoundedPercentInRange(part: real, whole: real)
    requires 0.0 <= part <= whole && whole > 0.0
    ensures 0 <= Round(part / whole * 100.0) <= 100
  {
    assert part / whole <= 1.0 by {
      assert part / whole * whole == part;
    }
  }

  /** The full part is 100%. */
  lemma RoundedPercentOfWhole(whole: real)
    requires whole > 0.0
    ensures Round(whole / whole * 100.0) == 100
  {
  }
}
