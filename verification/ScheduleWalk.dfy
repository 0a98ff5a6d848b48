/**
 * The comparison of an EV's charging profile with the charger's power schedule: a walk along
 * the schedule's entries, with start times summed up in unsigned 32-bit arithmetic, which has
 * no exit of its own when a profile start fits no entry.
 */
module ScheduleWalk {
  import opened Arithmetic
  import opened PhysicalValues

  type U32 = n: nat | n < 0x1_0000_0000

  datatype Power = Power(value: int, multiplier: int)

  /** An entry of the charger's schedule; its start is relative to the entry before. */
  datatype Entry = Entry(start: U32, durationUsed: bool, duration: U32, pMax: Power)

  datatype ProfileEntry = ProfileEntry(start: U32, maxPower: Power)

  const SA_SCHEDULE_DURATION := 86400

  const WORD := 0x1_0000_0000

  function Wrap(n: nat): U32 {
    n % WORD
  }

  lemma WrapOfSum(a: nat, b: nat)
    ensures Wrap(Wrap(a) + b) == Wrap(a + b)
  {
  }

  lemma NoWrap(n: nat)
    requires n < WORD
    ensures Wrap(n) == n
  {
  }

  function DurationOf(e: Entry): U32 {
    if e.durationUsed then e.duration else 0
  }

  /** The entry at which the walk's visit number `v` looks: it stays at the last one. */
  function At(s: seq<Entry>, v: nat): (i: nat)
    requires s != []
    ensures i < |s|
  {
    if v < |s| then v else |s| - 1
  }

  /** All start times added up to and including visit `v`, without wrap-around. */
  function Total(s: seq<Entry>, v: nat): nat
    requires s != []
  {
    s[At(s, v)].start + if v == 0 then 0 else Total(s, v - 1)
  }

  /** The EV's time lies in the interval of entry `i`, which starts at `sum`. */
  predicate Hits(s: seq<Entry>, i: nat, sum: U32, ev: U32)
    requires i < |s|
  {
    if i < |s| - 1 then sum <= ev < Wrap(sum + s[i + 1].start) else sum <= ev <= Wrap(sum + DurationOf(s[i]))
  }

  /** At visit `v`, the EV's time lies in the entry's interval. */
  predicate Within(s: seq<Entry>, ev: U32, v: nat)
    requires s != []
  {
    Hits(s, At(s, v), Wrap(Total(s, v)), ev)
  }

  /** The walk for an EV time comes to an end. */
  ghost predicate Ends(s: seq<Entry>, ev: U32)
    requires s != []
  {
    exists v: nat :: Within(s, ev, v)
  }

  /** The visit at which the walk ends. */
  predicate EndsAt(s: seq<Entry>, ev: U32, v: nat)
    requires s != []
  {
    Within(s, ev, v) && forall u: nat | u < v :: !Within(s, ev, u)
  }

  // ---------------------------------------------------------------------------
  // When the walk ends
  // ---------------------------------------------------------------------------

  /** The schedule's end does not overflow. */
  predicate Bounded(s: seq<Entry>)
    requires s != []
  {
    Total(s, |s| - 1) + DurationOf(s[|s| - 1]) < WORD
  }

  lemma {:induction false} TotalsGrow(s: seq<Entry>, u: nat, v: nat)
    requires s != [] && u <= v
    ensures Total(s, u) <= Total(s, v)
  {
    if u < v {
      TotalsGrow(s, u, v - 1);
    }
  }

  /** Without overflow, the entry of visit `v` covers a proper interval of time. */
  predicate Covers(s: seq<Entry>, ev: U32, v: nat)
    requires s != [] && v < |s|
  {
    Total(s, v) <= ev
    && if v < |s| - 1 then ev < Total(s, v + 1) else ev <= Total(s, v) + DurationOf(s[v])
  }

  lemma WithinIsCovers(s: seq<Entry>, ev: U32, v: nat)
    requires s != [] && Bounded(s) && v < |s|
    ensures Within(s, ev, v) <==> Covers(s, ev, v)
  {
    TotalsGrow(s, v, |s| - 1);
    NoWrap(Total(s, v));
    if v < |s| - 1 {
      TotalsGrow(s, v + 1, |s| - 1);
      NoWrap(Total(s, v + 1));
    } else {
      NoWrap(Total(s, v) + DurationOf(s[v]));
    }
  }

  /** The last entry whose interval starts no later than the EV's time. */
  lemma {:induction false} SomeEntryCovers(s: seq<Entry>, ev: U32, n: nat) returns (v: nat)
    requires s != [] && n < |s| && Total(s, 0) <= ev
    requires if n == |s| - 1 then ev <= Total(s, n) + DurationOf(s[n]) else ev < Total(s, n + 1)
    ensures v <= n && Covers(s, ev, v)
  {
    if Total(s, n) <= ev {
      v := n;
    } else {
      v := SomeEntryCovers(s, ev, n - 1);
    }
  }

  lemma OnlyOneCovers(s: seq<Entry>, ev: U32, u: nat, v: nat)
    requires s != [] && u < |s| && v < |s| && Covers(s, ev, u) && Covers(s, ev, v)
    ensures u == v
  {
    if u < v {
      TotalsGrow(s, u + 1, v);
    } else if v < u {
      TotalsGrow(s, v + 1, u);
    }
  }

  /**
   * When the EV's time lies between the start of the first entry and the end of the schedule, and
   * nothing overflows, the walk visits each entry at most once and ends at the only entry whose
   * interval of summed start times contains the EV's time.
   */
  lemma WalkFindsTheEntry(s: seq<Entry>, ev: U32) returns (v: nat)
    requires s != [] && Bounded(s)
    requires Total(s, 0) <= ev <= Total(s, |s| - 1) + DurationOf(s[|s| - 1])
    ensures v < |s| && EndsAt(s, ev, v) && Covers(s, ev, v)
    ensures forall u: nat | u < |s| && Covers(s, ev, u) :: u == v
  {
    v := SomeEntryCovers(s, ev, |s| - 1);
    WithinIsCovers(s, ev, v);
    forall u: nat | u < |s| && Covers(s, ev, u) ensures u == v {
      OnlyOneCovers(s, ev, u, v);
    }
    forall u: nat | u < v ensures !Within(s, ev, u) {
      WithinIsCovers(s, ev, u);
    }
  }

  /** The last entry's start and duration, and the sum at which its visits begin. */
  function LastStart(s: seq<Entry>): U32
    requires s != []
  {
    s[|s| - 1].start
  }

  function LastDuration(s: seq<Entry>): U32
    requires s != []
  {
    DurationOf(s[|s| - 1])
  }

  function LastSum(s: seq<Entry>): nat
    requires s != []
  {
    Total(s, |s| - 1)
  }

  /** Once at the last entry, each visit adds its start again. */
  lemma {:induction false} TotalAtLast(s: seq<Entry>, k: nat)
    requires s != []
    ensures Total(s, |s| - 1 + k) == LastSum(s) + k * LastStart(s)
  {
    if k > 0 {
      TotalAtLast(s, k - 1);
    }
  }

  /** A visit of the last entry succeeds exactly if its interval does not wrap around and contains the time. */
  predicate LastHits(s: seq<Entry>, ev: U32, x: nat)
    requires s != []
  {
    x + LastDuration(s) < WORD && x <= ev <= x + LastDuration(s)
  }

  /** The last entry is hit at its visit number `k`. */
  predicate Repeats(s: seq<Entry>, ev: U32, k: nat)
    requires s != []
  {
    LastHits(s, ev, Wrap(LastSum(s) + k * LastStart(s)))
  }

  lemma WithinAtLast(s: seq<Entry>, ev: U32, k: nat)
    requires s != []
    ensures Within(s, ev, |s| - 1 + k) <==> Repeats(s, ev, k)
  {
    TotalAtLast(s, k);
    WrapAtMostOnce(Wrap(LastSum(s) + k * LastStart(s)), LastDuration(s));
  }

  lemma WrapAtMostOnce(x: U32, d: U32)
    ensures Wrap(x + d) == if x + d < WORD then x + d else x + d - WORD
  {
  }

  /** The sums that the last entry can reach: all that agree with the first one modulo this power of two. */
  function Granule(l: U32): (g: nat)
    ensures 1 <= g <= WORD
  {
    if l == 0 then WORD else OddPart(l).0
  }

  lemma FourMore(n: nat)
    ensures PowerOfTwo(n + 4) == 16 * PowerOfTwo(n)
  {
    assert PowerOfTwo(n + 1) == 2 * PowerOfTwo(n);
    assert PowerOfTwo(n + 2) == 2 * PowerOfTwo(n + 1);
    assert PowerOfTwo(n + 3) == 2 * PowerOfTwo(n + 2);
  }

  lemma WordIsPower()
    ensures IsPowerOfTwo(WORD)
  {
    FourMore(0); FourMore(4); FourMore(8); FourMore(12);
    FourMore(16); FourMore(20); FourMore(24); FourMore(28);
    var n := 32;
    assert WORD == PowerOfTwo(n);
  }

  /** Every sum of the last entry agrees with the first one modulo the granule. */
  lemma SumsAgree(sum: nat, l: U32, k: nat)
    ensures (Wrap(sum + k * l) - sum) % Granule(l) == 0
  {
    var j := WrapDrops(sum + k * l);
    if l == 0 {
      assert k * l == 0;
      MultipleMod(WORD, -j);
    } else {
      DifferenceIsMultiple(Wrap(sum + k * l), sum, k, l, OddPart(l).0, OddPart(l).1, j);
    }
  }

  lemma WrapDrops(n: nat) returns (j: int)
    ensures Wrap(n) == n - WORD * j
  {
    j := n / WORD;
  }

  lemma DifferenceIsMultiple(x: int, sum: int, k: int, l: int, p: nat, o: int, j: int)
    requires l == p * o && x == sum + k * l - WORD * j
    requires IsPowerOfTwo(p) && 1 <= p <= WORD
    ensures (x - sum) % p == 0
  {
    WordIsPower();
    var c := PowersDivide(p, WORD);
    var t := k * o - c * j;
    assert x - sum == p * t by {
      Collect(x, sum, k, l, p, o, c, j);
    }
    MultipleMod(p, t);
  }

  lemma Collect(x: int, sum: int, k: int, l: int, p: int, o: int, c: int, j: int)
    requires l == p * o && WORD == p * c && x == sum + k * l - WORD * j
    ensures x - sum == p * (k * o - c * j)
  {
    assert k * (p * o) == p * (k * o);
    assert p * c * j == p * (c * j);
  }

  lemma WrapOfSame(n: nat, x: nat, w: int)
    requires x < WORD && n == x + WORD * w
    ensures Wrap(n) == x
  {
  }

  lemma Expand(d: int, o: nat, u: nat, q: nat, c: nat, e: int, k: int)
    requires o * u == 1 + q * c && d * u == c * e + k
    ensures k * o == d + c * (d * q - e * o)
  {
    assert k * o == d * (o * u) - c * e * o;
    assert d * (1 + q * c) == d + d * q * c;
  }

  lemma Shift(sum: nat, x: nat, p: nat, c: nat, o: nat, d: int, w: int, k: nat)
    requires WORD == p * c && x - sum == p * d && k * o == d + c * w
    ensures sum + k * (p * o) == x + WORD * w
  {
    assert k * (p * o) == p * (k * o);
    assert p * (d + c * w) == p * d + p * c * w;
  }

  /** And every sum that agrees is reached. */
  lemma EveryAgreeingSumIsReached(sum: nat, l: U32, x: nat) returns (k: nat)
    requires x < WORD && (x - sum) % Granule(l) == 0
    ensures Wrap(sum + k * l) == x
  {
    if l == 0 {
      k := 0;
      WrapOfSame(sum, x, -((x - sum) / WORD));
    } else {
      k := AgreeingSumIsReached(sum, l, x, OddPart(l).0, OddPart(l).1);
    }
  }

  lemma AgreeingSumIsReached(sum: nat, l: U32, x: nat, p: nat, o: nat) returns (k: nat)
    requires x < WORD && l == p * o && o % 2 == 1 && IsPowerOfTwo(p) && 1 <= p <= WORD && (x - sum) % p == 0
    ensures Wrap(sum + k * l) == x
  {
    WordIsPower();
    var c := PowersDivide(p, WORD);
    var u, q := OddInverse(o, c);
    var d := (x - sum) / p;
    var e: int;
    e, k := Divided(d * u, c);
    MultipleOf(x - sum, p);
    Expand(d, o, u, q, c, e, k);
    Shift(sum, x, p, c, o, d, d * q - e * o, k);
    WrapOfSame(sum + k * l, x, d * q - e * o);
  }

  lemma Divided(n: int, c: nat) returns (e: int, k: nat)
    requires c >= 1
    ensures n == c * e + k
  {
    e, k := n / c, n % c;
  }

  /**
   * Some sum of the last entry hits the time, as a condition on the schedule's last entry and the
   * time: the largest agreeing sum that is neither past the time nor wraps around is close enough.
   */
  predicate LastReaches(s: seq<Entry>, ev: U32)
    requires s != []
  {
    var d := LastDuration(s);
    var lowest := if ev < d then 0 else ev - d;
    var highest := if ev < WORD - 1 - d then ev else WORD - 1 - d;
    lowest <= highest && (highest - LastSum(s)) % Granule(LastStart(s)) <= highest - lowest
  }

  /** The largest number up to `highest` that agrees with `sum`. */
  function Agreeing(highest: nat, sum: nat, g: nat): int
    requires g >= 1
  {
    highest - (highest - sum) % g
  }

  lemma AgreeingAgrees(highest: nat, sum: nat, g: nat)
    requires g >= 1
    ensures (Agreeing(highest, sum, g) - sum) % g == 0
  {
    var m := (highest - sum) / g;
    assert highest - sum == g * m + (highest - sum) % g;
    MultipleMod(g, m);
  }

  lemma AgreeingIsLargest(highest: nat, sum: nat, g: nat, y: int)
    requires g >= 1 && y <= highest && (y - sum) % g == 0
    ensures y <= Agreeing(highest, sum, g)
  {
    ModOfSum(highest - y, y - sum, g);
    ModIsAtMost(highest - y, g);
  }

  lemma AgreeingIsClose(lowest: nat, highest: nat, sum: nat, g: nat, x: nat)
    requires g >= 1 && lowest <= x <= highest && (x - sum) % g == 0
    ensures (highest - sum) % g <= highest - lowest
  {
    AgreeingIsLargest(highest, sum, g, x);
  }

  lemma HitIsReached(s: seq<Entry>, ev: U32, x: U32)
    requires s != [] && LastHits(s, ev, x) && (x - LastSum(s)) % Granule(LastStart(s)) == 0
    ensures LastReaches(s, ev)
  {
    var d := LastDuration(s);
    var lowest := if ev < d then 0 else ev - d;
    var highest := if ev < WORD - 1 - d then ev else WORD - 1 - d;
    AgreeingIsClose(lowest, highest, LastSum(s), Granule(LastStart(s)), x);
  }

  lemma ReachedIsHit(s: seq<Entry>, ev: U32) returns (k: nat)
    requires s != [] && LastReaches(s, ev)
    ensures Repeats(s, ev, k)
  {
    var d, sum, g := LastDuration(s), LastSum(s), Granule(LastStart(s));
    var highest := if ev < WORD - 1 - d then ev else WORD - 1 - d;
    AgreeingAgrees(highest, sum, g);
    k := EveryAgreeingSumIsReached(sum, LastStart(s), Agreeing(highest, sum, g));
  }

  lemma RepetitionIsReached(s: seq<Entry>, ev: U32, k: nat)
    requires s != [] && Repeats(s, ev, k)
    ensures LastReaches(s, ev)
  {
    SumsAgree(LastSum(s), LastStart(s), k);
    HitIsReached(s, ev, Wrap(LastSum(s) + k * LastStart(s)));
  }

  lemma LastHitsExactly(s: seq<Entry>, ev: U32)
    requires s != []
    ensures (exists k: nat :: Repeats(s, ev, k)) <==> LastReaches(s, ev)
  {
    if k: nat :| Repeats(s, ev, k) {
      RepetitionIsReached(s, ev, k);
    }
    if LastReaches(s, ev) {
      var k := ReachedIsHit(s, ev);
      assert Repeats(s, ev, k);
    }
  }

  /**
   * The walk ends if and only if an entry before the last one is hit when it is visited, or the last
   * one is hit by a sum that it reaches sooner or later, wrap-around included.
   */
  lemma WalkEndsExactly(s: seq<Entry>, ev: U32)
    requires s != []
    ensures Ends(s, ev) <==> (exists v: nat | v < |s| - 1 :: Within(s, ev, v)) || LastReaches(s, ev)
  {
    LastHitsExactly(s, ev);
    if v: nat :| Within(s, ev, v) && v >= |s| - 1 {
      WithinAtLast(s, ev, v - (|s| - 1));
    }
    if k: nat :| Repeats(s, ev, k) {
      WithinAtLast(s, ev, k);
    }
  }

  /**
   * For a schedule that does not overflow this can be told before the walk: it ends if and only if
   * the time lies between the first start and the end of the schedule, or the last entry reaches it.
   */
  lemma BoundedWalkEndsExactly(s: seq<Entry>, ev: U32)
    requires s != [] && Bounded(s)
    ensures Ends(s, ev) <==> Total(s, 0) <= ev <= LastSum(s) + LastDuration(s) || LastReaches(s, ev)
  {
    WalkEndsExactly(s, ev);
    if Total(s, 0) <= ev <= LastSum(s) + LastDuration(s) {
      var v := WalkFindsTheEntry(s, ev);
      assert Within(s, ev, v);
    }
    if v: nat :| v < |s| - 1 && Within(s, ev, v) {
      WithinIsCovers(s, ev, v);
      TotalsGrow(s, 0, v);
      TotalsGrow(s, v + 1, |s| - 1);
    }
  }

  /** If the last entry's start is 0, the walk hangs for every time outside the schedule. */
  lemma WalkHangs(s: seq<Entry>, ev: U32)
    requires s != [] && Bounded(s) && LastStart(s) == 0
    ensures Ends(s, ev) <==> Total(s, 0) <= ev <= LastSum(s) + LastDuration(s)
  {
    BoundedWalkEndsExactly(s, ev);
    LastHitsExactly(s, ev);
    TotalsGrow(s, 0, |s| - 1);
    if k: nat :| Repeats(s, ev, k) {
      assert k * LastStart(s) == 0;
      NoWrap(LastSum(s));
    }
  }

  /** The last entry is hit before its sums pass the time. */
  ghost predicate HitsBeforeWrap(s: seq<Entry>, ev: U32)
    requires s != []
  {
    exists k: nat :: Repeats(s, ev, k) && LastSum(s) + k * LastStart(s) <= ev
  }

  lemma RemainderIsClose(n: nat, l: nat, k: nat)
    requires l > 0 && k * l <= n
    ensures n % l <= n - k * l
  {
    MultipleMod(l, k);
    assert k * l == l * k;
    ModOfSum(n - k * l, k * l, l);
    ModIsAtMost(n - k * l, l);
  }

  lemma HitIsClose(s: seq<Entry>, ev: U32, k: nat)
    requires s != [] && LastStart(s) > 0
    requires Repeats(s, ev, k) && LastSum(s) + k * LastStart(s) <= ev
    ensures (ev - LastSum(s)) % LastStart(s) <= LastDuration(s)
  {
    var y := k * LastStart(s);
    assert y >= 0;
    NoWrap(LastSum(s) + y);
    RemainderIsClose(ev - LastSum(s), LastStart(s), k);
  }

  lemma CloseIsHit(s: seq<Entry>, ev: U32) returns (k: nat)
    requires s != [] && LastStart(s) > 0
    requires LastSum(s) <= ev && ev + LastDuration(s) < WORD
    requires (ev - LastSum(s)) % LastStart(s) <= LastDuration(s)
    ensures Repeats(s, ev, k) && LastSum(s) + k * LastStart(s) <= ev
  {
    var n, l := ev - LastSum(s), LastStart(s);
    DivIsNat(n, l);
    k := n / l;
    assert n == k * l + n % l;
    NoWrap(LastSum(s) + k * l);
  }

  /**
   * Beyond the end of the schedule, if the last entry's start is not 0, the walk finds the time before the
   * sums wrap around exactly if it lies in one of the intervals that the last entry's repetition covers.
   */
  lemma BeyondTheEnd(s: seq<Entry>, ev: U32)
    requires s != [] && LastStart(s) > 0
    requires LastSum(s) + LastDuration(s) < ev && ev + LastDuration(s) < WORD
    ensures HitsBeforeWrap(s, ev) <==> (ev - LastSum(s)) % LastStart(s) <= LastDuration(s)
  {
    if k: nat :| Repeats(s, ev, k) && LastSum(s) + k * LastStart(s) <= ev {
      HitIsClose(s, ev, k);
    }
    if (ev - LastSum(s)) % LastStart(s) <= LastDuration(s) {
      var k := CloseIsHit(s, ev);
      assert Repeats(s, ev, k);
    }
  }

  /** With the charger's default schedule, the walk ends exactly for EV times up to 24 hours. */
  lemma DefaultSchedule(pMax: Power, ev: U32)
    ensures Ends([Entry(0, true, SA_SCHEDULE_DURATION, pMax)], ev) <==> ev <= SA_SCHEDULE_DURATION
  {
    WalkHangs([Entry(0, true, SA_SCHEDULE_DURATION, pMax)], ev);
  }

  // ---------------------------------------------------------------------------
  // The walk
  // ---------------------------------------------------------------------------

  /** A profile asks for more power than a schedule entry grants. */
  predicate Exceeds(asked: Power, granted: Power) {
    CalcPhysicalValue(asked.value, asked.multiplier) > CalcPhysicalValue(granted.value, granted.multiplier)
  }

  lemma TenTimes(v: real, p: real)
    requires p >= 1.0
    ensures v * (10.0 * p) == 10.0 * (v * p)
    ensures 10.0 * (v / (10.0 * p)) == v / p
  {
    var q := v / (10.0 * p);
    assert q * (10.0 * p) == v;
    assert 10.0 * q * p == v;
  }

  lemma OneMultiplierMore(value: int, multiplier: int)
    ensures CalcPhysicalValue(value, multiplier + 1) == 10.0 * CalcPhysicalValue(value, multiplier)
  {
    if multiplier >= 0 {
      TenTimes(value as real, RealPower(multiplier));
    } else {
      TenTimes(value as real, RealPower(-multiplier - 1));
      assert RealPower(-multiplier) == 10.0 * RealPower(-multiplier - 1);
    }
  }

  function Raised(p: Power, k: nat): Power {
    p.(multiplier := p.multiplier + k)
  }

  lemma {:induction false} ExceedsAlike(asked: Power, granted: Power, k: nat)
    ensures Exceeds(asked, granted) <==> Exceeds(Raised(asked, k), Raised(granted, k))
  {
    if k > 0 {
      ExceedsAlike(asked, granted, k - 1);
      OneMultiplierMore(asked.value, asked.multiplier + k - 1);
      OneMultiplierMore(granted.value, granted.multiplier + k - 1);
    }
  }

  lemma WholeValue(value: int, multiplier: nat)
    ensures CalcPhysicalValue(value, multiplier) == (value * PhysicalValues.Power(multiplier)) as real
  {
    PowersAgree(multiplier);
    RealProduct(value, PhysicalValues.Power(multiplier));
  }

  /** One power exceeds another exactly if it does so in integers, once both multipliers are raised alike. */
  lemma ExceedsExactly(asked: Power, granted: Power, k: nat)
    requires asked.multiplier + k >= 0 && granted.multiplier + k >= 0
    ensures Exceeds(asked, granted) <==>
              asked.value * PhysicalValues.Power(asked.multiplier + k)
              > granted.value * PhysicalValues.Power(granted.multiplier + k)
  {
    ExceedsAlike(asked, granted, k);
    WholeValue(asked.value, asked.multiplier + k);
    WholeValue(granted.value, granted.multiplier + k);
  }

  /** The last entry's interval ends with its duration, or as soon as it begins if it has none. */
  lemma LastIntervalExactly(s: seq<Entry>, sum: U32, ev: U32)
    requires s != []
    ensures var last := s[|s| - 1];
            Hits(s, |s| - 1, sum, ev) <==>
              if last.durationUsed then sum <= ev <= (sum + last.duration) % 0x1_0000_0000 else ev == sum
  {
  }

  /** The sum before visit `v`. */
  function SumBefore(s: seq<Entry>, v: nat): U32
    requires s != []
  {
    if v == 0 then 0 else Wrap(Total(s, v - 1))
  }

  /**
   * Visit `v` of the walk, at entry `i`: it keeps the sum equal to the wrapped total of all starts so far, and
   * says whether that entry's interval contains the time.
   */
  method Visit(s: seq<Entry>, ghost v: nat, i: nat, sum: U32, ev: U32) returns (newSum: U32, within: bool)
    requires s != [] && i == At(s, v) && sum == SumBefore(s, v)
    ensures newSum == Wrap(Total(s, v))
    ensures within <==> Within(s, ev, v)
  {
    newSum := Wrap(sum + s[i].start);
    if v > 0 {
      WrapOfSum(Total(s, v - 1), s[i].start);
    }
    if i < |s| - 1 {
      within := ev >= newSum && ev < Wrap(newSum + s[i + 1].start);
    } else {
      within := ev >= newSum && ev <= Wrap(newSum + DurationOf(s[i]));
    }
  }

  /**
   * What is known of a walk after at most `patience` visits: either it has ended, at its first visit whose
   * interval contains the time, or there were that many visits and none of them was within its interval.
   */
  predicate Watched(s: seq<Entry>, ev: U32, patience: nat, evseIdx: nat, visits: nat, within: bool)
    requires s != []
  {
    if within then
      0 < visits <= patience && EndsAt(s, ev, visits - 1) && evseIdx == At(s, visits - 1)
    else
      visits == patience && evseIdx == At(s, visits) && forall u: nat | u < visits :: !Within(s, ev, u)
  }

  /** The walk for one EV time, watched for at most `patience` visits. */
  method Walk(ev: U32, s: seq<Entry>, patience: nat) returns (evseIdx: nat, visits: nat, within: bool)
    requires s != []
    ensures Watched(s, ev, patience, evseIdx, visits, within)
  {
    var evseTimeSum: U32 := 0;
    evseIdx, visits, within := 0, 0, false;
    while evseIdx < |s| && !within && visits < patience
      invariant evseIdx < |s|
      invariant if within then Watched(s, ev, patience, evseIdx, visits, within)
                else visits <= patience && evseIdx == At(s, visits) && evseTimeSum == SumBefore(s, visits)
      invariant !within ==> forall u: nat | u < visits :: !Within(s, ev, u)
      decreases patience - visits
    {
      evseTimeSum, within := Visit(s, visits, evseIdx, evseTimeSum, ev);
      visits := visits + 1;
      if !within {
        if evseIdx == |s| - 1 {
          // the profile's time exceeds the schedule, and the walk stays at the last entry
        } else {
          evseIdx := evseIdx + 1;
        }
      }
    }
  }

  /** Watching long enough tells whether a walk ends. */
  lemma EndsIfWatchedLongEnough(s: seq<Entry>, ev: U32)
    requires s != []
    ensures Ends(s, ev) <==> exists patience: nat, i: nat, visits: nat :: Watched(s, ev, patience, i, visits, true)
  {
    if v: nat :| Within(s, ev, v) {
      var first := FirstWithin(s, ev, v);
      assert Watched(s, ev, first + 1, At(s, first), first + 1, true);
    }
  }

  lemma {:induction false} FirstWithin(s: seq<Entry>, ev: U32, v: nat) returns (first: nat)
    requires s != [] && Within(s, ev, v)
    ensures first <= v && EndsAt(s, ev, first)
  {
    if u: nat :| u < v && Within(s, ev, u) {
      first := FirstWithin(s, ev, u);
    } else {
      first := v;
    }
  }

  /**
   * The check of a profile against a schedule; `ok` is the response code so far. The first profile
   * entry is compared with the entry at which its walk ends. Later profile entries are compared with
   * nothing, because the flag that ends the walk is never reset. If the walk does not end, the check
   * does not return.
   */
  method CheckChargingProfileValues(profile: seq<ProfileEntry>, s: seq<Entry>, ok: bool, patience: nat)
    returns (evseIdx: nat, visits: nat, tooHigh: seq<nat>, returned: bool)
    ensures profile == [] || s == [] || !ok ==> returned && visits == 0 && tooHigh == []
    ensures profile != [] && s != [] && ok ==>
              && Watched(s, profile[0].start, patience, evseIdx, visits, returned)
              && tooHigh ==
                 if returned && Exceeds(profile[0].maxPower, s[evseIdx].pMax) then [0] else []
  {
    var evTimeSum: U32, within := 0, false;
    evseIdx, visits, tooHigh, returned := 0, 0, [], true;
    var evIdx := 0;
    while evIdx < |profile| && ok
      invariant evIdx <= |profile| && (!ok ==> evIdx == 0) && returned
      invariant s == [] || evIdx == 0 ==> visits == 0 && tooHigh == [] && !within
      invariant evIdx == 0 ==> evTimeSum == 0
      invariant s != [] && evIdx > 0 ==>
                  && within && Watched(s, profile[0].start, patience, evseIdx, visits, true)
                  && tooHigh == if Exceeds(profile[0].maxPower, s[evseIdx].pMax) then [0] else []
    {
      evTimeSum := Wrap(evTimeSum + profile[evIdx].start);
      if s != [] && !within {
        evseIdx, visits, within := Walk(evTimeSum, s, patience);
        if !within {
          returned := false;
          return;
        }
        if Exceeds(profile[evIdx].maxPower, s[evseIdx].pMax) {
          tooHigh := tooHigh + [evIdx];
        }
      }
      evIdx := evIdx + 1;
    }
  }
}
