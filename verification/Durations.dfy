/** Durations in integer nanoseconds. */
module Durations {

  const SECOND: int := 1_000_000_000

  /** Whole seconds of a duration; the conversion truncates toward zero. */
  function WholeSeconds(d: int): (s: int)
    ensures d >= 0 ==> s * SECOND <= d < (s + 1) * SECOND
    ensures d <= 0 ==> (s - 1) * SECOND < d <= s * SECOND
  {
    if d >= 0 then d / SECOND else -((-d) / SECOND)
  }
}
