/** Seconds and nanoseconds: normalisation, addition, subtraction and conversion to milliseconds. */
module Timespecs {
  import opened Durations

  const NSEC_PER_SEC := 1_000_000_000

  datatype Timespec = Timespec(sec: int, nsec: int)

  /** The instant or duration that a pair denotes. */
  function Nanoseconds(t: Timespec): int {
    t.sec * NSEC_PER_SEC + t.nsec
  }

  predicate Normal(t: Timespec) {
    0 <= t.nsec < NSEC_PER_SEC
  }

  /** Normal pairs are a faithful representation of nanoseconds. */
  lemma NormalIsUnique(a: Timespec, b: Timespec)
    requires Normal(a) && Normal(b) && Nanoseconds(a) == Nanoseconds(b)
    ensures a == b
  {
    assert a.sec == Nanoseconds(a) / NSEC_PER_SEC && b.sec == Nanoseconds(b) / NSEC_PER_SEC;
  }

  method SetNormalizedTimespec(sec: int, nsec: int) returns (t: Timespec)
    ensures Normal(t) && Nanoseconds(t) == sec * NSEC_PER_SEC + nsec
  {
    var s, n := sec, nsec;
    while n >= NSEC_PER_SEC
      invariant s * NSEC_PER_SEC + n == sec * NSEC_PER_SEC + nsec
    {
      n, s := n - NSEC_PER_SEC, s + 1;
    }
    while n < 0
      invariant s * NSEC_PER_SEC + n == sec * NSEC_PER_SEC + nsec
      invariant n < NSEC_PER_SEC
    {
      n, s := n + NSEC_PER_SEC, s - 1;
    }
    t := Timespec(s, n);
  }

  method Add(lhs: Timespec, rhs: Timespec) returns (t: Timespec)
    ensures Normal(t) && Nanoseconds(t) == Nanoseconds(lhs) + Nanoseconds(rhs)
  {
    t := SetNormalizedTimespec(lhs.sec + rhs.sec, lhs.nsec + rhs.nsec);
  }

  method Sub(lhs: Timespec, rhs: Timespec) returns (t: Timespec)
    ensures Normal(t) && Nanoseconds(t) == Nanoseconds(lhs) - Nanoseconds(rhs)
  {
    t := SetNormalizedTimespec(lhs.sec - rhs.sec, lhs.nsec - rhs.nsec);
  }

  method AddMs(was: Timespec, msec: int) returns (t: Timespec)
    ensures Normal(t) && Nanoseconds(t) == Nanoseconds(was) + msec * NS_PER_MS
  {
    var sec := Quotient(msec, 1000);
    t := SetNormalizedTimespec(was.sec + sec, was.nsec + (msec - sec * 1000) * 1000 * 1000);
  }

  /** For a normal pair the conversion rounds down, also for negative durations; otherwise it may round up. */
  method TimespecToMs(t: Timespec) returns (ms: int)
    ensures t.nsec >= 0 ==> ms * NS_PER_MS <= Nanoseconds(t) < (ms + 1) * NS_PER_MS
    ensures t.nsec < 0 ==> (ms - 1) * NS_PER_MS < Nanoseconds(t) <= ms * NS_PER_MS
  {
    ms := t.sec * 1000 + Quotient(t.nsec, NS_PER_MS);
  }

  /** Adding and then subtracting a duration gives back a normal instant, field by field. */
  lemma SubUndoesAdd(a: Timespec, b: Timespec, sum: Timespec, difference: Timespec)
    requires Normal(a) && Normal(difference)
    requires Nanoseconds(sum) == Nanoseconds(a) + Nanoseconds(b)
    requires Nanoseconds(difference) == Nanoseconds(sum) - Nanoseconds(b)
    ensures difference == a
  {
    NormalIsUnique(difference, a);
  }
}
