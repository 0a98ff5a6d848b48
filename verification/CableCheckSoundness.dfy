/**
 * Soundness of the CableCheck_006 verdict: over every history with a clock that never goes
 * back, what the test claims to be unambiguous is true, up to the truncation of durations to
 * milliseconds; and exactly where it is not.
 */
module CableCheckSoundness {
  import opened CableCheck006
  import opened Durations
  import opened Testing
  import opened V2g

  // ---------------------------------------------------------------------------
  // Histories
  // ---------------------------------------------------------------------------

  /** Where the clock stands after an event that began when it stood at `now`. */
  function ClockAfter(now: int, e: Event): int {
    match e
    case ChargeParameter(_, at) => at
    case CableCheckReq(_, _, _, _, _, res) => res
    case SessionStopReq(_, _, res) => res
    case ControlPilot(_, at) => at
    case _ => now
  }

  /** The event's times do not lie before the time at which it began. */
  predicate InOrder(now: int, e: Event) {
    match e
    case ChargeParameter(_, at) => now <= at
    case CableCheckReq(req, _, _, _, _, res) => now <= req <= res
    case SessionStopReq(req, _, res) => now <= req <= res
    case ControlPilot(_, at) => now <= at
    case _ => true
  }

  function Clock(events: seq<Event>): int {
    if events == [] then 1 else ClockAfter(Clock(events[..|events| - 1]), events[|events| - 1])
  }

  /** All times are positive and never decrease. */
  predicate Clocked(events: seq<Event>) {
    events == []
    || (Clocked(events[..|events| - 1]) && InOrder(Clock(events[..|events| - 1]), events[|events| - 1]))
  }

  /** The exact time between the last answered CableCheckReq and this one. */
  function GapOf(f: Fields, e: Event): seq<int> {
    if e.CableCheckReq? && f.lastRes != 0 then [e.req - f.lastRes] else []
  }

  /** The exact times between an answered CableCheckReq and the next one, in order. */
  function Gaps(events: seq<Event>): seq<int> {
    if events == [] then []
    else Gaps(events[..|events| - 1]) + GapOf(Run(events[..|events| - 1]), events[|events| - 1])
  }

  lemma OneMore(events: seq<Event>, e: Event)
    ensures Run(events + [e]) == After(Run(events), e)
    ensures Clock(events + [e]) == ClockAfter(Clock(events), e)
    ensures Clocked(events + [e]) <==> Clocked(events) && InOrder(Clock(events), e)
    ensures Gaps(events + [e]) == Gaps(events) + GapOf(Run(events), e)
  {
    assert (events + [e])[..|events|] == events;
  }

  /** The longest of the gaps; 0 if there is none. */
  function Longest(gaps: seq<int>): int {
    if gaps == [] then 0 else Max(Longest(gaps[..|gaps| - 1]), gaps[|gaps| - 1])
  }

  function Last(gaps: seq<int>): int {
    if gaps == [] then 0 else gaps[|gaps| - 1]
  }

  lemma {:induction false} LongestBounds(gaps: seq<int>, i: nat)
    requires i < |gaps|
    ensures gaps[i] <= Longest(gaps)
  {
    if i < |gaps| - 1 {
      LongestBounds(gaps[..|gaps| - 1], i);
    }
  }

  lemma ToMsOfMax(a: int, b: int)
    requires a >= 0 && b >= 0
    ensures ToMs(Max(a, b)) == Max(ToMs(a), ToMs(b))
  {
  }

  lemma LongestOfOneMore(gaps: seq<int>, gap: int)
    ensures Longest(gaps + [gap]) == Max(Longest(gaps), gap) && Last(gaps + [gap]) == gap
  {
    assert (gaps + [gap])[..|gaps|] == gaps;
  }

  /** No recorded time lies ahead of the clock. */
  predicate Past(f: Fields, now: int) {
    f.earliestStart <= now && f.latestStart <= now && f.lastReq <= now && 0 <= f.lastRes <= now
  }

  /** The recorded durations are the truncations of exact ones. */
  predicate Recorded(f: Fields, longest: int, last: int) {
    longest >= 0 && last >= 0 && f.maxGapMs == ToMs(longest) && f.lastGapMs == ToMs(last)
  }

  lemma RequestIsRecorded(f: Fields, e: Event, now: int, longest: int, last: int)
    requires e.CableCheckReq? && Past(f, now) && InOrder(now, e) && Recorded(f, longest, last) && longest >= last
    ensures var gap := if f.lastRes != 0 then e.req - f.lastRes else last;
            Recorded(After(f, e), Max(longest, gap), gap)
  {
    var gap := if f.lastRes != 0 then e.req - f.lastRes else last;
    ToMsOfMax(longest, gap);
    assert Recorded(Received(f, e.req), Max(longest, gap), gap);
  }

  lemma StaysPast(f: Fields, e: Event, now: int)
    requires now >= 1 && Past(f, now) && InOrder(now, e)
    ensures Past(After(f, e), ClockAfter(now, e)) && ClockAfter(now, e) >= now
  {
  }

  /** The recorded durations are the truncations of the last and of the longest exact gap so far. */
  lemma {:induction false} GapsAreRecorded(events: seq<Event>)
    requires Clocked(events)
    ensures Past(Run(events), Clock(events)) && Clock(events) >= 1
    ensures Recorded(Run(events), Longest(Gaps(events)), Last(Gaps(events)))
    ensures Longest(Gaps(events)) >= Last(Gaps(events))
  {
    if events != [] {
      var before, e := events[..|events| - 1], events[|events| - 1];
      var f, gaps := Run(before), Gaps(before);
      GapsAreRecorded(before);
      StaysPast(f, e, Clock(before));
      if e.CableCheckReq? {
        RequestIsRecorded(f, e, Clock(before), Longest(gaps), Last(gaps));
        LongestOfOneMore(gaps, e.req - f.lastRes);
      }
      assert GapOf(f, e) == [] ==> Gaps(events) == gaps;
    }
  }

  lemma Truncated(ns: int)
    requires ns >= 0
    ensures ToMs(ns) * NS_PER_MS == ns - ns % NS_PER_MS
  {
  }

  /** The recorded maximum bounds every gap so far, up to one millisecond. */
  lemma EveryGapIsBounded(events: seq<Event>, i: nat)
    requires Clocked(events) && i < |Gaps(events)|
    ensures Gaps(events)[i] < (Run(events).maxGapMs + 1) * NS_PER_MS
  {
    GapsAreRecorded(events);
    LongestBounds(Gaps(events), i);
    Truncated(Longest(Gaps(events)));
  }

  lemma {:induction false} LongestIsOne(gaps: seq<int>) returns (i: nat)
    requires gaps != [] && forall j | 0 <= j < |gaps| :: gaps[j] >= 0
    ensures i < |gaps| && gaps[i] == Longest(gaps)
  {
    var n := |gaps| - 1;
    i := n;
    if n > 0 {
      var k := LongestIsOne(gaps[..n]);
      if gaps[n] < gaps[k] {
        i := k;
      }
    } else {
      assert gaps[..n] == [];
    }
  }

  lemma {:induction false} GapsAreNotNegative(events: seq<Event>)
    requires Clocked(events)
    ensures forall i | 0 <= i < |Gaps(events)| :: Gaps(events)[i] >= 0
  {
    if events != [] {
      GapsAreNotNegative(events[..|events| - 1]);
      GapsAreRecorded(events[..|events| - 1]);
    }
  }

  // ---------------------------------------------------------------------------
  // The two checks in terms of exact gaps
  // ---------------------------------------------------------------------------

  /** The early check compares with the longest exact gap, less its fraction of a millisecond. */
  lemma EarlyCheckExactly(events: seq<Event>)
    requires Clocked(events)
    ensures var f, longest := Run(events), Longest(Gaps(events));
            TooEarly(f) <==> f.lastRes + longest - longest % NS_PER_MS < f.earliestStart + CABLE_CHECK_TIMEOUT
  {
    GapsAreRecorded(events);
    Truncated(Longest(Gaps(events)));
  }

  /** The late check goes back from the last request by the last exact gap, less its fraction of a millisecond. */
  lemma LateCheckExactly(events: seq<Event>)
    requires Clocked(events)
    ensures var f, last := Run(events), Last(Gaps(events));
            TooLate(f) <==> f.latestStart + CABLE_CHECK_TIMEOUT < f.lastReq - last + last % NS_PER_MS
  {
    GapsAreRecorded(events);
    Truncated(Last(Gaps(events)));
  }

  // ---------------------------------------------------------------------------
  // Sessions, told from the events
  // ---------------------------------------------------------------------------

  predicate IsParameter(e: Event) {
    e.ChargeParameter? && e.cableCheckNext
  }

  /** Events that leave CableCheckReq the last message. */
  predicate IsAside(e: Event) {
    e.ControlPilot? || e.ExtraRequest?
  }

  /**
   * The course of CableCheck in a history: the parameters are finished last at `p`; the first
   * CableCheckReq, at `a`, is answered, and the second one, at `b`, follows it directly.
   */
  predicate Course(events: seq<Event>, p: nat, a: nat, b: nat) {
    && p < a < b < |events|
    && IsParameter(events[p]) && (forall k | p < k < |events| :: !IsParameter(events[k]))
    && events[a].CableCheckReq? && events[b].CableCheckReq?
    && (forall k | 0 <= k < a :: !events[k].CableCheckReq?)
    && (forall k | a < k < b :: IsAside(events[k]))
    && Run(events[..b]).lastRes != 0
  }

  lemma QuietStep(f: Fields, e: Event)
    requires !e.CableCheckReq?
    ensures var g := After(f, e);
            && g.lastReq == f.lastReq && g.lastRes == f.lastRes && g.latestStart == f.latestStart
            && (g.lastIsCableCheck ==> f.lastIsCableCheck) && (IsAside(e) ==> g.lastIsCableCheck == f.lastIsCableCheck)
            && g.earliestStart == if IsParameter(e) then e.at else f.earliestStart
  {
  }

  lemma CheckStep(f: Fields, e: Event)
    requires e.CableCheckReq?
    ensures var g := After(f, e);
            && g.lastReq == e.req && g.earliestStart == f.earliestStart && g.lastIsCableCheck
            && g.latestStart == (if f.lastIsCableCheck && f.latestStart == 0 then e.req else f.latestStart)
            && (g.lastRes == f.lastRes || g.lastRes == e.res)
  {
  }

  /** What one more event does to the recorded times. */
  lemma LastStep(events: seq<Event>)
    requires events != []
    ensures var e, f, g := events[|events| - 1], Run(events[..|events| - 1]), Run(events);
            if e.CableCheckReq? then
              && g.lastReq == e.req && g.earliestStart == f.earliestStart && g.lastIsCableCheck
              && g.latestStart == (if f.lastIsCableCheck && f.latestStart == 0 then e.req else f.latestStart)
              && (g.lastRes == f.lastRes || g.lastRes == e.res)
            else
              && g.lastReq == f.lastReq && g.lastRes == f.lastRes && g.latestStart == f.latestStart
              && (g.lastIsCableCheck ==> f.lastIsCableCheck)
              && (IsAside(e) ==> g.lastIsCableCheck == f.lastIsCableCheck)
              && g.earliestStart == if IsParameter(e) then e.at else f.earliestStart
  {
    var e, f := events[|events| - 1], Run(events[..|events| - 1]);
    if e.CableCheckReq? {
      CheckStep(f, e);
    } else {
      QuietStep(f, e);
    }
  }

  lemma {:induction false} ParameterIsEarliest(events: seq<Event>, p: nat)
    requires p < |events| && IsParameter(events[p]) && forall k | p < k < |events| :: !IsParameter(events[k])
    ensures Run(events).earliestStart == events[p].at
  {
    LastStep(events);
    if p < |events| - 1 {
      ParameterIsEarliest(events[..|events| - 1], p);
    }
  }

  lemma {:induction false} NoCheckYet(events: seq<Event>)
    requires forall k | 0 <= k < |events| :: !events[k].CableCheckReq?
    ensures Run(events).latestStart == 0 && !Run(events).lastIsCableCheck
  {
    if events != [] {
      LastStep(events);
      NoCheckYet(events[..|events| - 1]);
    }
  }

  lemma {:induction false} OneCheck(events: seq<Event>, a: nat)
    requires a < |events| && events[a].CableCheckReq? && (forall k | 0 <= k < a :: !events[k].CableCheckReq?)
    requires forall k | a < k < |events| :: IsAside(events[k])
    ensures Run(events).latestStart == 0 && Run(events).lastIsCableCheck
  {
    LastStep(events);
    if a < |events| - 1 {
      OneCheck(events[..|events| - 1], a);
    } else {
      NoCheckYet(events[..a]);
    }
  }

  lemma {:induction false} SecondCheckIsLatest(events: seq<Event>, a: nat, b: nat)
    requires a < b < |events| && events[a].CableCheckReq? && events[b].CableCheckReq? && events[b].req != 0
    requires forall k | 0 <= k < a :: !events[k].CableCheckReq?
    requires forall k | a < k < b :: IsAside(events[k])
    ensures Run(events).latestStart == events[b].req
  {
    LastStep(events);
    if b < |events| - 1 {
      SecondCheckIsLatest(events[..|events| - 1], a, b);
    } else {
      OneCheck(events[..b], a);
    }
  }

  /** Every time in a history is positive. */
  lemma {:induction false} TimesArePositive(events: seq<Event>, k: nat)
    requires Clocked(events) && k < |events| && events[k].CableCheckReq?
    ensures 1 <= events[k].req <= events[k].res
  {
    if k < |events| - 1 {
      TimesArePositive(events[..|events| - 1], k);
    } else {
      GapsAreRecorded(events[..k]);
    }
  }

  lemma {:induction false} ClockedPrefix(events: seq<Event>, k: nat)
    requires Clocked(events) && k <= |events|
    ensures Clocked(events[..k])
  {
    if k < |events| {
      ClockedPrefix(events[..|events| - 1], k);
      assert events[..|events| - 1][..k] == events[..k];
    } else {
      assert events[..k] == events;
    }
  }

  lemma {:induction false} AnsweredForGood(events: seq<Event>, k: nat)
    requires Clocked(events) && k <= |events| && Run(events[..k]).lastRes != 0
    ensures Run(events).lastRes != 0
  {
    if k == |events| {
      assert events[..k] == events;
    } else {
      var front := events[..|events| - 1];
      assert front[..k] == events[..k];
      AnsweredForGood(front, k);
      LastStep(events);
      if events[|events| - 1].CableCheckReq? {
        TimesArePositive(events, |events| - 1);
      }
    }
  }

  /** The last gap lies between the last request and the response before it. */
  lemma {:induction false} LastGapIsLast(events: seq<Event>, k: nat)
    requires k < |events| && events[k].CableCheckReq? && Run(events[..k]).lastRes != 0
    requires forall j | k < j < |events| :: !events[j].CableCheckReq?
    ensures Run(events).lastReq == events[k].req
    ensures Last(Gaps(events)) == events[k].req - Run(events[..k]).lastRes
  {
    var front := events[..|events| - 1];
    LastStep(events);
    if k < |events| - 1 {
      assert front[..k] == events[..k];
      LastGapIsLast(front, k);
      assert Gaps(events) == Gaps(front);
    }
  }

  function LastCheck(events: seq<Event>, b: nat): (k: nat)
    requires b < |events| && events[b].CableCheckReq?
    ensures b <= k < |events| && events[k].CableCheckReq?
    ensures forall j | k < j < |events| :: !events[j].CableCheckReq?
  {
    var n := |events| - 1;
    if events[n].CableCheckReq? then n else LastCheck(events[..n], b)
  }

  // ---------------------------------------------------------------------------
  // The EV
  // ---------------------------------------------------------------------------

  /** The EV starts its timer after it has the parameters and before its second request. */
  predicate StartsTimer(events: seq<Event>, p: nat, b: nat, start: int)
    requires p < |events| && b < |events| && IsParameter(events[p]) && events[b].CableCheckReq?
  {
    events[p].at <= start <= events[b].req
  }

  /** The EV decides on request `k` between the response before it and the request, while its timer runs. */
  predicate Decides(events: seq<Event>, k: nat, start: int, decision: int)
    requires k < |events| && events[k].CableCheckReq?
  {
    Run(events[..k]).lastRes <= decision <= events[k].req && decision <= start + CABLE_CHECK_TIMEOUT
  }

  /** From its second request on, the EV asks only while its timer runs. */
  ghost predicate AsksInTime(events: seq<Event>, b: nat, start: int) {
    forall k | b <= k < |events| && events[k].CableCheckReq? :: exists decision :: Decides(events, k, start, decision)
  }

  /**
   * The EV stops because its timer expires: it would have sent one more request, at `w`, after the last
   * response as quickly as after some response before, but by then the timer had expired.
   */
  predicate Withholds(events: seq<Event>, start: int, w: int) {
    && start + CABLE_CHECK_TIMEOUT <= w
    && exists i | 0 <= i < |Gaps(events)| :: w - Run(events).lastRes <= Gaps(events)[i]
  }

  /** By how much the EV is claimed to have stopped too early, and gone on too long. */
  function Shortfall(f: Fields): int {
    f.earliestStart + CABLE_CHECK_TIMEOUT - (f.lastRes + f.maxGapMs * NS_PER_MS)
  }

  function Excess(f: Fields): int {
    f.lastReq - f.lastGapMs * NS_PER_MS - (f.latestStart + CABLE_CHECK_TIMEOUT)
  }

  /** A withheld request comes less than a millisecond after the recorded maximum has passed. */
  lemma WithheldWithinMaximum(events: seq<Event>, start: int, w: int)
    requires Clocked(events) && Withholds(events, start, w)
    ensures w < Run(events).lastRes + (Run(events).maxGapMs + 1) * NS_PER_MS
  {
    var i :| 0 <= i < |Gaps(events)| && w - Run(events).lastRes <= Gaps(events)[i];
    EveryGapIsBounded(events, i);
  }

  /** An EV that stops because its timer expires is never claimed to stop too early by a millisecond. */
  lemma EarlyClaimIsSound(events: seq<Event>, p: nat, a: nat, b: nat, start: int, w: int)
    requires Clocked(events) && Course(events, p, a, b)
    requires StartsTimer(events, p, b, start) && Withholds(events, start, w)
    ensures TooEarly(Run(events)) ==> ToMs(Shortfall(Run(events))) == 0
  {
    ParameterIsEarliest(events, p);
    WithheldWithinMaximum(events, start, w);
  }

  lemma LastCheckFollows(events: seq<Event>, p: nat, a: nat, b: nat) returns (z: nat)
    requires Clocked(events) && Course(events, p, a, b)
    ensures z == LastCheck(events, b)
    ensures Run(events).latestStart == events[b].req
    ensures Run(events[..z]).lastRes == Run(events).lastReq - Last(Gaps(events))
  {
    z := LastCheck(events, b);
    TimesArePositive(events, b);
    SecondCheckIsLatest(events, a, b);
    assert events[..z][..b] == events[..b];
    ClockedPrefix(events, z);
    AnsweredForGood(events[..z], b);
    LastGapIsLast(events, z);
  }

  /** An EV that asks only while its timer runs is never claimed to go on too long by a millisecond. */
  lemma LateClaimIsSound(events: seq<Event>, p: nat, a: nat, b: nat, start: int)
    requires Clocked(events) && Course(events, p, a, b)
    requires StartsTimer(events, p, b, start) && AsksInTime(events, b, start)
    ensures TooLate(Run(events)) ==> ToMs(Excess(Run(events))) == 0
  {
    var z := LastCheckFollows(events, p, a, b);
    var decision :| Decides(events, z, start, decision);
    GapsAreRecorded(events);
    Truncated(Last(Gaps(events)));
  }

  /**
   * Both claims are sound: over every history, and wherever between the parameters and its second
   * request the EV starts its timer, an EV that asks while its timer runs and stops because it
   * expires is claimed neither too early nor too late by a millisecond or more.
   */
  lemma TimingClaimsAreSound(events: seq<Event>, p: nat, a: nat, b: nat, start: int, w: int)
    requires Clocked(events) && Course(events, p, a, b)
    requires StartsTimer(events, p, b, start) && AsksInTime(events, b, start) && Withholds(events, start, w)
    ensures TooEarly(Run(events)) ==> ToMs(Shortfall(Run(events))) == 0
    ensures TooLate(Run(events)) ==> ToMs(Excess(Run(events))) == 0
  {
    EarlyClaimIsSound(events, p, a, b, start, w);
    LateClaimIsSound(events, p, a, b, start);
  }

  // ---------------------------------------------------------------------------
  // Conversely, what no EV can explain is caught
  // ---------------------------------------------------------------------------

  /** Some possible start of the timer explains why the EV stopped. */
  ghost predicate StopIsExplained(events: seq<Event>, p: nat)
    requires p < |events| && IsParameter(events[p])
  {
    exists start, w :: events[p].at <= start && Withholds(events, start, w)
  }

  /** Some possible start of the timer explains every request. */
  ghost predicate RequestsAreExplained(events: seq<Event>, p: nat, b: nat)
    requires p < |events| && b < |events| && IsParameter(events[p]) && events[b].CableCheckReq?
  {
    exists start :: StartsTimer(events, p, b, start) && AsksInTime(events, b, start)
  }

  lemma {:induction false} GapAtCheck(events: seq<Event>, b: nat)
    requires b < |events| && events[b].CableCheckReq? && Run(events[..b]).lastRes != 0
    ensures Gaps(events) != []
  {
    if b < |events| - 1 {
      assert events[..|events| - 1][..b] == events[..b];
      GapAtCheck(events[..|events| - 1], b);
    }
  }

  /** By how much the longest gap after the last response exceeds the earliest end of the timer. */
  function EarlySlack(events: seq<Event>, p: nat): int
    requires p < |events| && IsParameter(events[p])
  {
    Run(events).lastRes + Longest(Gaps(events)) - (events[p].at + CABLE_CHECK_TIMEOUT)
  }

  lemma StopIsExplainedExactly(events: seq<Event>, p: nat, a: nat, b: nat)
    requires Clocked(events) && Course(events, p, a, b)
    ensures StopIsExplained(events, p) <==> EarlySlack(events, p) >= 0
  {
    GapAtCheck(events, b);
    GapsAreNotNegative(events);
    var longest := LongestIsOne(Gaps(events));
    var latest := Run(events).lastRes + Gaps(events)[longest];
    if latest >= events[p].at + CABLE_CHECK_TIMEOUT {
      assert Withholds(events, events[p].at, latest);
    }
    if start, w :| events[p].at <= start && Withholds(events, start, w) {
      var i :| 0 <= i < |Gaps(events)| && w - Run(events).lastRes <= Gaps(events)[i];
      LongestBounds(Gaps(events), i);
    }
  }

  /** An EV whose stop no start of the timer explains is always claimed to stop too early. */
  lemma EarlyStopIsCaught(events: seq<Event>, p: nat, a: nat, b: nat)
    requires Clocked(events) && Course(events, p, a, b) && !StopIsExplained(events, p)
    ensures TooEarly(Run(events))
  {
    ParameterIsEarliest(events, p);
    StopIsExplainedExactly(events, p, a, b);
    EarlyCheckExactly(events);
  }

  /** One whose stop is explained is claimed to stop too early exactly if truncation costs all of the slack. */
  lemma EarlyErrorExactly(events: seq<Event>, p: nat, a: nat, b: nat)
    requires Clocked(events) && Course(events, p, a, b)
    ensures StopIsExplained(events, p) && TooEarly(Run(events)) <==>
              0 <= EarlySlack(events, p) < Longest(Gaps(events)) % NS_PER_MS
  {
    ParameterIsEarliest(events, p);
    StopIsExplainedExactly(events, p, a, b);
    EarlyCheckExactly(events);
  }

  lemma {:induction false} ResponsesGrow(events: seq<Event>, k: nat)
    requires Clocked(events) && k <= |events|
    ensures Run(events[..k]).lastRes <= Run(events).lastRes
  {
    if k == |events| {
      assert events[..k] == events;
    } else {
      var front := events[..|events| - 1];
      assert front[..k] == events[..k];
      ResponsesGrow(front, k);
      GapsAreRecorded(front);
      LastStep(events);
    }
  }

  lemma {:induction false} CheckFollowsResponse(events: seq<Event>, k: nat)
    requires Clocked(events) && k < |events| && events[k].CableCheckReq?
    ensures Run(events[..k]).lastRes <= events[k].req
  {
    if k < |events| - 1 {
      assert events[..|events| - 1][..k] == events[..k];
      CheckFollowsResponse(events[..|events| - 1], k);
    } else {
      GapsAreRecorded(events[..k]);
    }
  }

  lemma {:induction false} ParameterIsPast(events: seq<Event>, p: nat)
    requires Clocked(events) && p < |events| && IsParameter(events[p])
    ensures events[p].at <= Clock(events)
  {
    if p < |events| - 1 {
      var front := events[..|events| - 1];
      ParameterIsPast(front, p);
      GapsAreRecorded(front);
      StaysPast(Run(front), events[|events| - 1], Clock(front));
    }
  }

  lemma ParameterPrecedes(events: seq<Event>, p: nat, b: nat)
    requires Clocked(events) && p < b < |events| && IsParameter(events[p]) && events[b].CableCheckReq?
    ensures events[p].at <= events[b].req
  {
    ClockedPrefix(events, b + 1);
    assert events[..b + 1][..b] == events[..b];
    ParameterIsPast(events[..b], p);
  }

  /** By how much the latest end of the timer exceeds the response before the last request. */
  function LateSlack(events: seq<Event>, b: nat): int
    requires b < |events| && events[b].CableCheckReq?
  {
    events[b].req + CABLE_CHECK_TIMEOUT - (Run(events).lastReq - Last(Gaps(events)))
  }

  lemma RequestsAreExplainedExactly(events: seq<Event>, p: nat, a: nat, b: nat)
    requires Clocked(events) && Course(events, p, a, b)
    ensures RequestsAreExplained(events, p, b) <==> LateSlack(events, b) >= 0
  {
    var z := LastCheckFollows(events, p, a, b);
    if LateSlack(events, b) >= 0 {
      var start := events[b].req;
      ParameterPrecedes(events, p, b);
      ClockedPrefix(events, z);
      forall k | b <= k < |events| && events[k].CableCheckReq?
        ensures exists decision :: Decides(events, k, start, decision)
      {
        assert events[..z][..k] == events[..k];
        ResponsesGrow(events[..z], k);
        CheckFollowsResponse(events, k);
        assert Decides(events, k, start, Run(events[..k]).lastRes);
      }
      assert AsksInTime(events, b, start);
    }
    if start :| StartsTimer(events, p, b, start) && AsksInTime(events, b, start) {
      var decision :| Decides(events, z, start, decision);
    }
  }

  /** An EV whose requests no start of the timer explains is always claimed to go on too long. */
  lemma LateRequestIsCaught(events: seq<Event>, p: nat, a: nat, b: nat)
    requires Clocked(events) && Course(events, p, a, b) && !RequestsAreExplained(events, p, b)
    ensures TooLate(Run(events))
  {
    var z := LastCheckFollows(events, p, a, b);
    RequestsAreExplainedExactly(events, p, a, b);
    LateCheckExactly(events);
  }

  /** One whose requests are explained is claimed to go on too long exactly if truncation costs all of the slack. */
  lemma LateErrorExactly(events: seq<Event>, p: nat, a: nat, b: nat)
    requires Clocked(events) && Course(events, p, a, b)
    ensures RequestsAreExplained(events, p, b) && TooLate(Run(events)) <==>
              0 <= LateSlack(events, b) < Last(Gaps(events)) % NS_PER_MS
  {
    var z := LastCheckFollows(events, p, a, b);
    RequestsAreExplainedExactly(events, p, a, b);
    LateCheckExactly(events);
  }

  // ---------------------------------------------------------------------------
  // Truncation
  // ---------------------------------------------------------------------------

  /** A session with two requests, the second one answered after `delay`. */
  function TwoRequests(second: int, delay: int): seq<Event> {
    [] + [ChargeParameter(true, 1)] + [CableCheckReq(1, NoEvent, false, false, true, 1)]
    + [CableCheckReq(second, NoEvent, false, false, true, second + delay)]
  }

  lemma TwoRequestsRun(second: int, delay: int)
    requires second >= 1 && 0 <= delay && second < 1 + CABLE_CHECK_TIMEOUT
    ensures var events := TwoRequests(second, delay);
            && Clocked(events) && Course(events, 0, 1, 2) && Gaps(events) == [second - 1]
            && Longest(Gaps(events)) == second - 1
            && Run(events).lastReq == second && Run(events).lastRes == second + delay && Run(events).lastStopReq == 0
            && Run(events).earliestStart == 1
            && forall start | 1 <= start :: AsksInTime(events, 2, start)
  {
    var parameter := ChargeParameter(true, 1);
    var first := CableCheckReq(1, NoEvent, false, false, true, 1);
    var one, two := [] + [parameter], [] + [parameter] + [first];
    var events := TwoRequests(second, delay);
    OneMore([], parameter);
    OneMore(one, first);
    OneMore(two, CableCheckReq(second, NoEvent, false, false, true, second + delay));
    LongestOfOneMore([], second - 1);
    assert Gaps(events) == [] + [second - 1];
    assert events[..2] == two;
    forall start | 1 <= start ensures AsksInTime(events, 2, start) {
      assert Decides(events, 2, start, 1);
    }
  }

  /** The truncation does matter: an EV that waits for its timer can be failed for a fraction of a millisecond. */
  lemma TruncationCanFailAnEv() returns (events: seq<Event>, start: int, w: int)
    ensures Clocked(events) && Course(events, 0, 1, 2)
    ensures StartsTimer(events, 0, 2, start) && AsksInTime(events, 2, start) && Withholds(events, start, w)
    ensures TooEarly(Run(events))
  {
    var second, delay := 19_900_500_001, 199_000_000;
    events, start := TwoRequests(second, delay), 1;
    w := start + CABLE_CHECK_TIMEOUT;
    TwoRequestsRun(second, delay);
    assert w - Run(events).lastRes <= Gaps(events)[0];
    EarlyCheckExactly(events);
  }

  // ---------------------------------------------------------------------------
  // Giving up
  // ---------------------------------------------------------------------------

  /** The start of the timer that a request received at `at` leaves possible. */
  predicate PossibleStart(f: Fields, at: int, start: int) {
    f.earliestStart <= start <= if f.latestStart != 0 then f.latestStart else at
  }

  /**
   * A request after which the test gives up ("the EV did not terminate communication") is really
   * more than 45 s after every possible start of the timer exactly if it is not the first one:
   * after the first request, the timer may have been started just now.
   */
  lemma GivingUpIsSoundExactlyAfterTheFirst(f: Fields, at: int)
    requires Past(f, at) && f.earliestStart > 0
    requires RunningForever(Received(f, at), at)
    ensures var r := Received(f, at);
            (forall start | PossibleStart(r, at, start) :: at - start > CABLE_CHECK_TIMEOUT + TCP_CLOSE_TIMEOUT)
            <==> r.latestStart != 0
  {
    var r := Received(f, at);
    if r.latestStart == 0 {
      assert PossibleStart(r, at, at);
    } else {
      forall start | PossibleStart(r, at, start) ensures at - start > CABLE_CHECK_TIMEOUT + TCP_CLOSE_TIMEOUT {
      }
    }
  }

  /** The first request, 46 s after the ChargeParameterDiscoveryRes, and whatever the EV does then. */
  lemma SlowFirstRequestFails(at: int, e: Event, close: int, was: Outcome)
    requires at > 0 && e.CableCheckReq? && Examined(e)
    requires e.req > at + CABLE_CHECK_TIMEOUT + TCP_CLOSE_TIMEOUT
    ensures var f := After(After(INITIAL, ChargeParameter(true, at)), e);
            f.aborted && f.latestStart == 0 && PossibleStart(f, e.req, e.req)
            && Verdict(f, close, was) == PassCriteriaNotMet
  {
  }

  // ---------------------------------------------------------------------------
  // State B
  // ---------------------------------------------------------------------------

  predicate IsSignal(e: Event) {
    e.ControlPilot? && e.stateB
  }

  lemma {:induction false} SignalsArePositive(events: seq<Event>, k: nat)
    requires Clocked(events) && k < |events| && IsSignal(events[k])
    ensures events[k].at >= 1
  {
    if k < |events| - 1 {
      SignalsArePositive(events[..|events| - 1], k);
    } else {
      GapsAreRecorded(events[..k]);
    }
  }

  /** After the last request, if state B is validated, the time of state B is that of a signal. */
  lemma {:induction false} StateBIsASignal(events: seq<Event>, m: nat) returns (j: nat)
    requires m < |events| && IsSignal(events[m]) && Run(events).validateControlPilot
    requires forall k | m < k < |events| :: !events[k].CableCheckReq?
    ensures m <= j < |events| && IsSignal(events[j]) && Run(events).stateB == events[j].at
  {
    var n := |events| - 1;
    var e, f := events[n], Run(events[..n]);
    assert !e.CableCheckReq? ==> f.validateControlPilot == Run(events).validateControlPilot;
    if IsSignal(e) {
      j := n;
    } else {
      j := StateBIsASignal(events[..n], m);
    }
  }

  /**
   * The claim that state B came too late is sound: an EV that stops when its timer expires, at
   * `stop`, and signals state B after its last request and within 4.5 s from the stop, is not claimed
   * to be late by a millisecond.
   */
  lemma StateBClaimIsSound(events: seq<Event>, start: int, w: int, stop: int, m: nat)
    requires Clocked(events) && Withholds(events, start, w) && start + CABLE_CHECK_TIMEOUT <= stop <= w
    requires Run(events).validateControlPilot && m < |events| && IsSignal(events[m])
    requires forall k | m < k < |events| :: !events[k].CableCheckReq?
    requires forall k | m <= k < |events| && IsSignal(events[k]) :: events[k].at <= stop + STATE_B_TIMEOUT
    ensures var f := Run(events);
            StateBLate(f) ==> f.stateB - (f.lastRes + f.maxGapMs * NS_PER_MS + STATE_B_TIMEOUT) < NS_PER_MS
  {
    var j := StateBIsASignal(events, m);
    SignalsArePositive(events, j);
    WithheldWithinMaximum(events, start, w);
  }

  // ---------------------------------------------------------------------------
  // SessionStop and the end of the connection
  // ---------------------------------------------------------------------------

  /** Without SessionStop, the connection is claimed to be closed late exactly from this time on. */
  lemma CloseCheckExactly(events: seq<Event>, at: int)
    requires Clocked(events) && Run(events).lastStopReq == 0
    ensures var f, longest := Run(events), Longest(Gaps(events));
            CloseLate(f, at) <==>
              at >= f.lastReq + longest - longest % NS_PER_MS + (TCP_CLOSE_TIMEOUT_MS + 1) * NS_PER_MS
  {
    var f := Run(events);
    GapsAreRecorded(events);
    Truncated(Longest(Gaps(events)));
    ExceedsMs(at - CloseStart(f, at), TCP_CLOSE_TIMEOUT_MS);
  }

  /** SessionStop is claimed to be late exactly after this time. */
  lemma StopCheckExactly(events: seq<Event>, at: int)
    requires Clocked(events) && 0 < Run(events).lastStopReq <= at
    ensures var f, longest := Run(events), Longest(Gaps(events));
            StopLate(f, at) <==> f.lastStopReq > f.lastReq + longest - longest % NS_PER_MS + TCP_CLOSE_TIMEOUT
  {
    GapsAreRecorded(events);
    Truncated(Longest(Gaps(events)));
  }

  /**
   * The EV ends in time: it stops no later than its next request would have come after the last
   * response, and then takes at most 5 s.
   */
  ghost predicate EndsInTime(events: seq<Event>, stop: int, end: int) {
    && (exists i | 0 <= i < |Gaps(events)| :: stop - Run(events).lastRes <= Gaps(events)[i])
    && end <= stop + TCP_CLOSE_TIMEOUT
  }

  lemma EndsInTimeMeans(events: seq<Event>, stop: int, end: int)
    requires EndsInTime(events, stop, end)
    ensures end <= Run(events).lastRes + Longest(Gaps(events)) + TCP_CLOSE_TIMEOUT
  {
    var i :| 0 <= i < |Gaps(events)| && stop - Run(events).lastRes <= Gaps(events)[i];
    LongestBounds(Gaps(events), i);
  }

  /** The latest end in time. */
  function LatestEnd(events: seq<Event>): int {
    Run(events).lastRes + Longest(Gaps(events)) + TCP_CLOSE_TIMEOUT
  }

  /** What counting from the last request and truncation cost together. */
  function Loss(events: seq<Event>): int {
    Run(events).lastRes - Run(events).lastReq + Longest(Gaps(events)) % NS_PER_MS
  }

  lemma LatestEndIsInTime(events: seq<Event>) returns (stop: int)
    requires Clocked(events) && Gaps(events) != []
    ensures EndsInTime(events, stop, LatestEnd(events))
  {
    GapsAreNotNegative(events);
    var i := LongestIsOne(Gaps(events));
    stop := Run(events).lastRes + Gaps(events)[i];
  }

  /**
   * No EV that closes the connection in time, after what has happened so far, is claimed to close it late,
   * exactly if none can be in time any more, or answering the last request and the fraction that truncation
   * cuts off take less than a millisecond together: the check counts from the last request, not from its
   * response.
   */
  lemma CloseClaimIsSoundExactlyIf(events: seq<Event>)
    requires Clocked(events) && Gaps(events) != [] && Run(events).lastStopReq == 0
    ensures (forall stop, close | EndsInTime(events, stop, close) && Clock(events) <= close ::
               !CloseLate(Run(events), close))
       <==> LatestEnd(events) < Clock(events) || Loss(events) < NS_PER_MS
  {
    var f := Run(events);
    forall stop, close | EndsInTime(events, stop, close) ensures close <= LatestEnd(events) {
      EndsInTimeMeans(events, stop, close);
    }
    forall close {
      CloseCheckExactly(events, close);
    }
    var stop := LatestEndIsInTime(events);
  }

  lemma StartedStep(f: Fields, e: Event)
    requires f.lastIsCableCheck || f.lastRes != 0 ==> f.started
    ensures f.started || e.CableCheckReq? ==> After(f, e).started
    ensures !e.CableCheckReq? ==>
              After(f, e).lastRes == f.lastRes && (After(f, e).lastIsCableCheck ==> f.lastIsCableCheck)
  {
    if e.CableCheckReq? {
      assert Received(f, e.req).started;
    }
  }

  /** Once a CableCheckReq has come, the test has started. */
  lemma {:induction false} GapsMeanStarted(events: seq<Event>)
    ensures Run(events).lastIsCableCheck || Run(events).lastRes != 0 || Gaps(events) != [] ==> Run(events).started
  {
    if events != [] {
      GapsMeanStarted(events[..|events| - 1]);
      StartedStep(Run(events[..|events| - 1]), events[|events| - 1]);
    }
  }

  /** A SessionStop that the EV sends next, and in time. */
  ghost predicate StopsNext(events: seq<Event>, stop: int, e: Event) {
    e.SessionStopReq? && Clocked(events + [e]) && EndsInTime(events, stop, e.req)
  }

  /** A SessionStop changes neither the gaps nor the last request. */
  lemma AfterStop(events: seq<Event>, e: Event)
    requires Clocked(events) && Gaps(events) != [] && e.SessionStopReq? && Clocked(events + [e])
    ensures Gaps(events + [e]) == Gaps(events) && Run(events + [e]).lastReq == Run(events).lastReq
    ensures 0 < Run(events + [e]).lastStopReq == e.req
  {
    OneMore(events, e);
    GapsMeanStarted(events);
    GapsAreRecorded(events);
  }

  lemma NextStopIsLate(events: seq<Event>, e: Event, at: int)
    requires Clocked(events) && Gaps(events) != [] && e.SessionStopReq? && Clocked(events + [e]) && e.res <= at
    ensures var longest := Longest(Gaps(events));
            StopLate(Run(events + [e]), at) <==>
              e.req > Run(events).lastReq + longest - longest % NS_PER_MS + TCP_CLOSE_TIMEOUT
  {
    OneMore(events, e);
    AfterStop(events, e);
    StopCheckExactly(events + [e], at);
  }

  /** A SessionStop that the EV sends next and in time is claimed to be late when the connection ends. */
  ghost predicate WronglyLate(events: seq<Event>, stop: int, e: Event, at: int) {
    StopsNext(events, stop, e) && e.res <= at && StopLate(Run(events + [e]), at)
  }

  lemma TimelyStop(events: seq<Event>, stop: int, e: Event, at: int)
    requires Clocked(events) && Gaps(events) != [] && WronglyLate(events, stop, e, at)
    ensures LatestEnd(events) >= Clock(events) && Loss(events) > 0
  {
    OneMore(events, e);
    EndsInTimeMeans(events, stop, e.req);
    NextStopIsLate(events, e, at);
  }

  lemma LatestStop(events: seq<Event>) returns (stop: int, e: Event)
    requires Clocked(events) && Gaps(events) != [] && LatestEnd(events) >= Clock(events) && Loss(events) > 0
    ensures e.SessionStopReq? && WronglyLate(events, stop, e, e.res)
  {
    stop := LatestEndIsInTime(events);
    e := SessionStopReq(LatestEnd(events), NoEvent, LatestEnd(events));
    OneMore(events, e);
    NextStopIsLate(events, e, e.res);
  }

  /**
   * No EV that sends SessionStop in time is claimed to send it late, exactly if none can be in time any more,
   * or nothing is lost at all: here the times are compared without truncation to milliseconds at the end.
   */
  lemma StopClaimIsSoundExactlyIf(events: seq<Event>)
    requires Clocked(events) && Gaps(events) != []
    ensures (forall stop, e, at :: !WronglyLate(events, stop, e, at))
       <==> LatestEnd(events) < Clock(events) || Loss(events) <= 0
  {
    if stop, e, at :| WronglyLate(events, stop, e, at) {
      TimelyStop(events, stop, e, at);
    }
    if LatestEnd(events) >= Clock(events) && Loss(events) > 0 {
      var stop, e := LatestStop(events);
    }
  }

  /** After an answered SessionStop, an EV that closes within 5 s after its longest gap is never claimed to be late. */
  lemma CloseAfterStopIsSound(events: seq<Event>, at: int)
    requires Clocked(events) && Run(events).lastStopReq > 0 && Run(events).lastStopRes != 0
    requires at <= Run(events).lastStopRes + Longest(Gaps(events)) + TCP_CLOSE_TIMEOUT
    ensures !CloseLate(Run(events), at)
  {
    var f := Run(events);
    GapsAreRecorded(events);
    Truncated(Longest(Gaps(events)));
    ExceedsMs(at - CloseStart(f, at), TCP_CLOSE_TIMEOUT_MS);
  }

  /**
   * A response that takes 10 ms is enough to fail an EV: it asks while its timer runs, stops when the
   * timer expires, closes the connection 5 s later, and is claimed to close it late.
   */
  lemma SlowResponseFailsAnEv() returns (events: seq<Event>, start: int, stop: int, close: int)
    ensures Clocked(events) && Course(events, 0, 1, 2) && Run(events).lastStopReq == 0
    ensures StartsTimer(events, 0, 2, start) && AsksInTime(events, 2, start) && Withholds(events, start, stop)
    ensures stop == start + CABLE_CHECK_TIMEOUT && close == stop + TCP_CLOSE_TIMEOUT
    ensures EndsInTime(events, stop, close) && CloseLate(Run(events), close)
  {
    var second, delay := 20_000_000_001, 10 * NS_PER_MS;
    events, start := TwoRequests(second, delay), 1 + delay;
    stop := start + CABLE_CHECK_TIMEOUT;
    close := stop + TCP_CLOSE_TIMEOUT;
    TwoRequestsRun(second, delay);
    assert stop - Run(events).lastRes <= Gaps(events)[0];
    CloseCheckExactly(events, close);
  }
}
