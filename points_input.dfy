/**
 * The value of the custom points field in the scoring dialog. Only these two handlers clamp
 * it to 0..100; applying the points to a cell stores whatever the field parses to.
 */
module PointsInput {
  import opened Wrappers

  /** `Math.max(0, Math.min(100, v))`. */
  function Clamp(v: int): (r: int)
    ensures 0 <= r <= 100
    ensures 0 <= v <= 100 ==> r == v
    ensures v < 0 ==> r == 0
    ensures v > 100 ==> r == 100
  {
    if v < 0 then 0 else if v > 100 then 100 else v
  }

  /** The minus and plus buttons: the field's number (0 when it does not parse) moved by `delta`, kept in 0..100. */
  function AdjustedPoints(parsed: Option<int>, delta: int): (r: int)
    ensures 0 <= r <= 100
    ensures 0 <= parsed.GetOr(0) + delta <= 100 ==> r == parsed.GetOr(0) + delta
    ensures parsed.GetOr(0) + delta < 0 ==> r == 0
    ensures parsed.GetOr(0) + delta > 100 ==> r == 100
  {
    Clamp(parsed.GetOr(0) + delta)
  }

  /** Typing in the field: its number (0 when it does not parse) kept in 0..100; a value already in range is kept. */
  function SanitizedPoints(parsed: Option<int>): (r: int)
    ensures 0 <= r <= 100
    ensures parsed.Some? && 0 <= parsed.value <= 100 ==> r == parsed.value
    ensures parsed.None? ==> r == 0
    ensures parsed.GetOr(0) < 0 ==> r == 0
    ensures parsed.GetOr(0) > 100 ==> r == 100
  {
    Clamp(parsed.GetOr(0))
  }

  /** Sanitizing twice is sanitizing once. */
  lemma SanitizeIdempotent(parsed: Option<int>)
    ensures SanitizedPoints(Some(SanitizedPoints(parsed))) == SanitizedPoints(parsed)
  {
  }
}
