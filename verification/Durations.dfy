/** Division as the source language does it, and durations in integer nanoseconds. */
module Durations {
  const NS_PER_MS := 1_000_000

  /** Division that truncates toward zero. */
  function Quotient(a: int, b: int): int
    requires b > 0
  {
    if a >= 0 then a / b else -(-a / b)
  }

  /** Conversion of a duration to milliseconds. */
  function ToMs(ns: int): int {
    Quotient(ns, NS_PER_MS)
  }

  /** A converted duration exceeds a bound exactly from the bound's next whole millisecond on. */
  lemma ExceedsMs(ns: int, bound: nat)
    ensures ToMs(ns) > bound <==> ns >= (bound + 1) * NS_PER_MS
  {
  }
}
