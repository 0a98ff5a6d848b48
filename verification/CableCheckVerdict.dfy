/**
 * What the CableCheck_006 verdict means, told from the history alone: which requests, answers
 * and signals the fields stand for, and over all histories exactly when the test passes an EV,
 * fails it, or finds that it has not been put to the test.
 */
module CableCheckVerdict {
  import opened CableCheck006
  import opened CableCheckSoundness
  import opened Durations
  import opened Testing
  import opened V2g

  const SECOND := 1000 * NS_PER_MS

  // ---------------------------------------------------------------------------
  // What a history contains
  // ---------------------------------------------------------------------------

  predicate IsAnswered(e: Event) {
    e.CableCheckReq? && (e.event == NoEvent || e.event == SendAndTerminate)
  }

  /** The underlying server finds nothing wrong with a CableCheckReq, and its response reports nothing bad. */
  predicate IsClean(e: Event) {
    e.CableCheckReq? && e.event == NoEvent && !e.failure && !e.trouble
  }

  predicate AnyCheck(events: seq<Event>) {
    exists k | 0 <= k < |events| :: events[k].CableCheckReq?
  }

  /** The last message is a CableCheckReq, whatever has been signalled or refused since. */
  predicate Pending(events: seq<Event>) {
    exists a | 0 <= a < |events| :: events[a].CableCheckReq? && forall k | a < k < |events| :: IsAside(events[k])
  }

  /** The last answer to a CableCheckReq found the control pilot not in state B. */
  predicate Validating(events: seq<Event>) {
    exists l | 0 <= l < |events| ::
      IsAnswered(events[l]) && !events[l].pilotB && forall k | l < k < |events| :: !IsAnswered(events[k])
  }

  datatype Kind = Parameter | Check | Successive | Answered | Unclean | Extra | StateB | Stop | AnsweredStop

  /** An event is of a kind, given what came before it. */
  predicate IsAfter(before: seq<Event>, e: Event, kind: Kind) {
    match kind
    case Parameter => IsParameter(e)
    case Check => e.CableCheckReq?
    case Successive => e.CableCheckReq? && Pending(before)
    case Answered => IsAnswered(e)
    case Unclean => e.CableCheckReq? && !IsClean(e)
    case Extra => e.ExtraRequest?
    case StateB => e.ControlPilot? && e.stateB && Validating(before)
    case Stop => e.SessionStopReq? && AnyCheck(before)
    case AnsweredStop => e.SessionStopReq? && AnyCheck(before) && (e.event == NoEvent || e.event == SendAndTerminate)
  }

  predicate Is(events: seq<Event>, j: nat, kind: Kind)
    requires j < |events|
  {
    IsAfter(events[..j], events[j], kind)
  }

  lemma IsInPrefix(events: seq<Event>, n: nat, j: nat, kind: Kind)
    requires j < n <= |events|
    ensures Is(events[..n], j, kind) <==> Is(events, j, kind)
  {
    assert events[..n][..j] == events[..j];
  }

  /** The last event of a kind, or -1. */
  function LastOf(events: seq<Event>, kind: Kind): (l: int)
    ensures l == -1 || (0 <= l < |events| && Is(events, l, kind))
    ensures forall j | 0 <= j < |events| && Is(events, j, kind) :: j <= l
  {
    if events == [] then -1
    else
      var n := |events| - 1;
      assert forall j | 0 <= j < n :: Is(events[..n], j, kind) <==> Is(events, j, kind) by {
        forall j | 0 <= j < n ensures Is(events[..n], j, kind) <==> Is(events, j, kind) {
          IsInPrefix(events, n, j, kind);
        }
      }
      if Is(events, n, kind) then n else LastOf(events[..n], kind)
  }

  /** The first event of a kind, or -1. */
  function FirstOf(events: seq<Event>, kind: Kind): (l: int)
    ensures l == -1 || (0 <= l < |events| && Is(events, l, kind))
    ensures forall j | 0 <= j < |events| && Is(events, j, kind) :: 0 <= l <= j
  {
    if events == [] then -1
    else
      var n := |events| - 1;
      assert forall j | 0 <= j < n :: Is(events[..n], j, kind) <==> Is(events, j, kind) by {
        forall j | 0 <= j < n ensures Is(events[..n], j, kind) <==> Is(events, j, kind) {
          IsInPrefix(events, n, j, kind);
        }
      }
      var k := FirstOf(events[..n], kind);
      if k >= 0 then k else if Is(events, n, kind) then n else -1
  }

  /** When an event began: the arrival of a request, or the time of anything else. */
  function Began(e: Event): int {
    match e
    case ChargeParameter(_, at) => at
    case CableCheckReq(req, _, _, _, _, _) => req
    case SessionStopReq(req, _, _) => req
    case ControlPilot(_, at) => at
    case _ => 0
  }

  /** When the response to a request was ready. */
  function Responded(e: Event): int {
    match e
    case CableCheckReq(_, _, _, _, _, res) => res
    case SessionStopReq(_, _, res) => res
    case _ => 0
  }

  function BeganAt(events: seq<Event>, l: int): int
    requires l < |events|
  {
    if l < 0 then 0 else Began(events[l])
  }

  function RespondedAt(events: seq<Event>, l: int): int
    requires l < |events|
  {
    if l < 0 then 0 else Responded(events[l])
  }

  lemma OneMoreOf(events: seq<Event>, e: Event, kind: Kind)
    ensures var more, fits := events + [e], IsAfter(events, e, kind);
            && (LastOf(more, kind) >= 0 <==> fits || LastOf(events, kind) >= 0)
            && BeganAt(more, LastOf(more, kind)) == (if fits then Began(e) else BeganAt(events, LastOf(events, kind)))
            && RespondedAt(more, LastOf(more, kind))
               == (if fits then Responded(e) else RespondedAt(events, LastOf(events, kind)))
            && (FirstOf(more, kind) >= 0 <==> fits || FirstOf(events, kind) >= 0)
            && BeganAt(more, FirstOf(more, kind))
               == (if FirstOf(events, kind) < 0 && fits then Began(e) else BeganAt(events, FirstOf(events, kind)))
  {
    var more := events + [e];
    assert more[..|events|] == events && more[|events|] == e;
    assert Is(more, |events|, kind) <==> IsAfter(events, e, kind);
  }

  /** From each CableCheckReq back to the last answer before it, in order. */
  function GapsTold(events: seq<Event>): seq<int> {
    if events == [] then []
    else
      var before, e := events[..|events| - 1], events[|events| - 1];
      var l := LastOf(before, Answered);
      GapsTold(before) + if e.CableCheckReq? && l >= 0 then [e.req - RespondedAt(before, l)] else []
  }

  /**
   * A clean request that comes more than 45 s after both the earliest and, as far as known, the latest
   * time at which the EV can have started its timer.
   */
  predicate GivesUp(events: seq<Event>, j: nat)
    requires j < |events|
  {
    var until, e := events[..j + 1], events[j];
    IsClean(e)
    && LongAfter(e.req, BeganAt(until, LastOf(until, Parameter)), BeganAt(until, FirstOf(until, Successive)))
  }

  predicate LongAfter(at: int, earliest: int, latest: int) {
    at - earliest > 45 * SECOND && at - latest > 45 * SECOND
  }

  predicate GaveUp(events: seq<Event>) {
    exists j | 0 <= j < |events| :: GivesUp(events, j)
  }

  // ---------------------------------------------------------------------------
  // The fields record it
  // ---------------------------------------------------------------------------

  predicate RecordsFlags(f: Fields, events: seq<Event>) {
    && (f.started <==> AnyCheck(events))
    && (f.lastIsCableCheck <==> Pending(events))
    && (f.lastIsCableCheck ==> f.started)
    && (f.validateControlPilot <==> Validating(events))
  }

  predicate RecordsFaults(f: Fields, events: seq<Event>) {
    (f.failed <==> LastOf(events, Unclean) >= 0) && (f.extraRequest <==> LastOf(events, Extra) >= 0)
  }

  predicate RecordsCheckTimes(f: Fields, events: seq<Event>) {
    && f.earliestStart == BeganAt(events, LastOf(events, Parameter))
    && (LastOf(events, Parameter) >= 0 <==> f.earliestStart > 0)
    && f.latestStart == BeganAt(events, FirstOf(events, Successive))
    && (FirstOf(events, Successive) >= 0 <==> f.latestStart > 0)
    && f.lastReq == BeganAt(events, LastOf(events, Check))
    && f.lastRes == RespondedAt(events, LastOf(events, Answered))
    && (LastOf(events, Answered) >= 0 <==> f.lastRes > 0)
    && (LastOf(events, Check) >= 0 <==> f.lastReq > 0)
  }

  predicate RecordsOtherTimes(f: Fields, events: seq<Event>) {
    RecordsSignal(f, events) && RecordsStops(f, events)
  }

  predicate RecordsSignal(f: Fields, events: seq<Event>) {
    f.stateB == BeganAt(events, LastOf(events, StateB)) && (LastOf(events, StateB) >= 0 <==> f.stateB > 0)
  }

  predicate RecordsStops(f: Fields, events: seq<Event>) {
    && f.lastStopReq == BeganAt(events, LastOf(events, Stop))
    && (LastOf(events, Stop) >= 0 <==> f.lastStopReq > 0)
    && f.lastStopRes == RespondedAt(events, LastOf(events, AnsweredStop))
    && (LastOf(events, AnsweredStop) >= 0 <==> f.lastStopRes > 0)
  }

  lemma FlagsOneMore(events: seq<Event>, e: Event)
    ensures var more := events + [e];
            && (AnyCheck(more) <==> AnyCheck(events) || e.CableCheckReq?)
            && (Pending(more) <==> e.CableCheckReq? || (IsAside(e) && Pending(events)))
            && (Validating(more) <==> if IsAnswered(e) then !e.pilotB else Validating(events))
  {
    var more := events + [e];
    assert forall k | 0 <= k < |events| :: more[k] == events[k];
    assert more[|events|] == e;
    if AnyCheck(events) {
      var k :| 0 <= k < |events| && events[k].CableCheckReq?;
      assert more[k].CableCheckReq?;
    }
    if Pending(events) && IsAside(e) {
      var a :| 0 <= a < |events| && events[a].CableCheckReq? && forall k | a < k < |events| :: IsAside(events[k]);
      assert more[a].CableCheckReq? && forall k | a < k < |more| :: IsAside(more[k]);
    }
    if Validating(events) && !IsAnswered(e) {
      var l :| 0 <= l < |events| && IsAnswered(events[l]) && !events[l].pilotB
               && forall k | l < k < |events| :: !IsAnswered(events[k]);
      assert IsAnswered(more[l]) && forall k | l < k < |more| :: !IsAnswered(more[k]);
    }
  }

  /** The times of an event are positive. */
  predicate Dated(e: Event) {
    match e
    case ChargeParameter(_, at) => at > 0
    case CableCheckReq(req, _, _, _, _, res) => req > 0 && res > 0
    case SessionStopReq(req, _, res) => req > 0 && res > 0
    case ControlPilot(_, at) => at > 0
    case _ => true
  }

  /** What a CableCheckReq changes. */
  lemma CheckExactly(f: Fields, e: Event)
    requires e.CableCheckReq?
    ensures var g := After(f, e);
            && g.started == (f.started || !f.lastIsCableCheck) && g.lastIsCableCheck
            && g.failed == (f.failed || !IsClean(e)) && g.extraRequest == f.extraRequest
            && g.validateControlPilot == (if IsAnswered(e) then !e.pilotB else f.validateControlPilot)
            && g.earliestStart == f.earliestStart && g.lastReq == e.req
            && g.latestStart == (if f.lastIsCableCheck && f.latestStart == 0 then e.req else f.latestStart)
            && g.lastRes == (if IsAnswered(e) then e.res else f.lastRes)
            && g.stateB == f.stateB && g.lastStopReq == f.lastStopReq && g.lastStopRes == f.lastStopRes
            && g.aborted == (f.aborted || (IsClean(e) && LongAfter(e.req, g.earliestStart, g.latestStart)))
  {
  }

  lemma RecordsFlagsOneMore(f: Fields, events: seq<Event>, e: Event)
    requires RecordsFlags(f, events)
    ensures RecordsFlags(After(f, e), events + [e])
  {
    FlagsOneMore(events, e);
    if e.CableCheckReq? {
      CheckExactly(f, e);
    }
  }

  lemma FaultsExactly(f: Fields, e: Event)
    ensures After(f, e).failed == (f.failed || (e.CableCheckReq? && !IsClean(e)))
    ensures After(f, e).extraRequest == (f.extraRequest || e.ExtraRequest?)
  {
  }

  lemma FaultsOneMore(f: Fields, g: Fields, events: seq<Event>, e: Event)
    requires RecordsFaults(f, events)
    requires g.failed == (f.failed || IsAfter(events, e, Unclean))
    requires g.extraRequest == (f.extraRequest || IsAfter(events, e, Extra))
    ensures RecordsFaults(g, events + [e])
  {
    OneMoreOf(events, e, Unclean);
    OneMoreOf(events, e, Extra);
  }

  lemma CheckTimesOneMore(f: Fields, events: seq<Event>, e: Event)
    requires RecordsFlags(f, events) && RecordsCheckTimes(f, events) && Dated(e)
    ensures RecordsCheckTimes(After(f, e), events + [e])
  {
    OneMoreOf(events, e, Parameter);
    OneMoreOf(events, e, Check);
    OneMoreOf(events, e, Answered);
    OneMoreOf(events, e, Successive);
    if e.CableCheckReq? {
      CheckExactly(f, e);
    }
  }

  lemma SignalOneMore(f: Fields, events: seq<Event>, e: Event)
    requires (f.validateControlPilot <==> Validating(events)) && RecordsSignal(f, events) && Dated(e)
    ensures RecordsSignal(After(f, e), events + [e])
  {
    OneMoreOf(events, e, StateB);
    if e.CableCheckReq? {
      CheckExactly(f, e);
    }
  }

  lemma StopsOneMore(f: Fields, events: seq<Event>, e: Event)
    requires (f.started <==> AnyCheck(events)) && RecordsStops(f, events) && Dated(e)
    ensures RecordsStops(After(f, e), events + [e])
  {
    OneMoreOf(events, e, Stop);
    OneMoreOf(events, e, AnsweredStop);
    if e.CableCheckReq? {
      CheckExactly(f, e);
    }
  }

  lemma GapsOneMore(f: Fields, events: seq<Event>, e: Event)
    requires RecordsCheckTimes(f, events)
    ensures GapsTold(events + [e]) == GapsTold(events) + GapOf(f, e)
  {
    assert (events + [e])[..|events|] == events;
  }

  lemma LastIsDated(events: seq<Event>)
    requires Clocked(events) && events != []
    ensures Clocked(events[..|events| - 1]) && Dated(events[|events| - 1])
  {
    GapsAreRecorded(events[..|events| - 1]);
  }

  lemma Split(events: seq<Event>)
    requires events != []
    ensures events == events[..|events| - 1] + [events[|events| - 1]]
  {
  }

  lemma {:induction false} FlagsAreRecorded(events: seq<Event>)
    ensures RecordsFlags(Run(events), events) && RecordsFaults(Run(events), events)
  {
    if events != [] {
      var before, e := events[..|events| - 1], events[|events| - 1];
      FlagsAreRecorded(before);
      RecordsFlagsOneMore(Run(before), before, e);
      FaultsExactly(Run(before), e);
      FaultsOneMore(Run(before), Run(events), before, e);
      Split(events);
    }
  }

  lemma {:induction false} CheckTimesAreRecorded(events: seq<Event>)
    requires Clocked(events)
    ensures RecordsCheckTimes(Run(events), events)
  {
    if events != [] {
      var before, e := events[..|events| - 1], events[|events| - 1];
      LastIsDated(events);
      CheckTimesAreRecorded(before);
      FlagsAreRecorded(before);
      CheckTimesOneMore(Run(before), before, e);
      Split(events);
    }
  }

  lemma {:induction false} OtherTimesAreRecorded(events: seq<Event>)
    requires Clocked(events)
    ensures RecordsOtherTimes(Run(events), events)
  {
    if events != [] {
      var before, e := events[..|events| - 1], events[|events| - 1];
      LastIsDated(events);
      OtherTimesAreRecorded(before);
      FlagsAreRecorded(before);
      SignalOneMore(Run(before), before, e);
      StopsOneMore(Run(before), before, e);
      Split(events);
    }
  }

  lemma {:induction false} GapsAreTold(events: seq<Event>)
    requires Clocked(events)
    ensures Gaps(events) == GapsTold(events)
  {
    if events != [] {
      var before, e := events[..|events| - 1], events[|events| - 1];
      LastIsDated(events);
      GapsAreTold(before);
      CheckTimesAreRecorded(before);
      GapsOneMore(Run(before), before, e);
      Split(events);
    }
  }

  /** Over every history, the fields record what the history contains. */
  lemma RunRecords(events: seq<Event>)
    requires Clocked(events)
    ensures RecordsFlags(Run(events), events) && RecordsFaults(Run(events), events)
    ensures RecordsCheckTimes(Run(events), events) && RecordsOtherTimes(Run(events), events)
    ensures Recorded(Run(events), Longest(GapsTold(events)), Last(GapsTold(events)))
    ensures Run(events).aborted <==> GaveUp(events)
  {
    FlagsAreRecorded(events);
    CheckTimesAreRecorded(events);
    OtherTimesAreRecorded(events);
    GapsAreTold(events);
    GapsAreRecorded(events);
    GivingUpIsRecorded(events);
  }

  lemma GivesUpInPrefix(events: seq<Event>, n: nat, j: nat)
    requires j < n <= |events|
    ensures GivesUp(events[..n], j) <==> GivesUp(events, j)
  {
    assert events[..n][..j + 1] == events[..j + 1];
  }

  lemma GaveUpOneMore(events: seq<Event>, e: Event)
    ensures GaveUp(events + [e]) <==> GaveUp(events) || GivesUp(events + [e], |events|)
  {
    var more := events + [e];
    assert more[..|events|] == events;
    forall j | 0 <= j < |events| ensures GivesUp(events, j) <==> GivesUp(more, j) {
      GivesUpInPrefix(more, |events|, j);
    }
    if GaveUp(events) {
      var j :| 0 <= j < |events| && GivesUp(events, j);
      assert GivesUp(more, j);
    }
  }

  lemma GivesUpExactly(f: Fields, events: seq<Event>, e: Event)
    requires RecordsCheckTimes(After(f, e), events + [e])
    ensures GivesUp(events + [e], |events|)
       <==> IsClean(e) && LongAfter(e.req, After(f, e).earliestStart, After(f, e).latestStart)
  {
    assert (events + [e])[..|events| + 1] == events + [e];
  }

  /** The test has given up exactly if some request came that late. */
  lemma {:induction false} GivingUpIsRecorded(events: seq<Event>)
    requires Clocked(events)
    ensures Run(events).aborted <==> GaveUp(events)
  {
    if events != [] {
      var before, e := events[..|events| - 1], events[|events| - 1];
      LastIsDated(events);
      GivingUpIsRecorded(before);
      CheckTimesAreRecorded(events);
      Split(events);
      GaveUpOneMore(before, e);
      GivesUpExactly(Run(before), before, e);
      if e.CableCheckReq? {
        CheckExactly(Run(before), e);
      }
    }
  }

  // ---------------------------------------------------------------------------
  // What the verdict means
  // ---------------------------------------------------------------------------

  /** A duration without its fraction of a millisecond. */
  function Whole(ns: int): int {
    ns - ns % NS_PER_MS
  }

  /** How long the EV can take, at most, from an answer to its next request; as the test measures it. */
  function Pace(events: seq<Event>): int {
    Whole(Longest(GapsTold(events)))
  }

  function Requested(events: seq<Event>): int {
    BeganAt(events, LastOf(events, Check))
  }

  function AnsweredAt(events: seq<Event>): int {
    RespondedAt(events, LastOf(events, Answered))
  }

  /** The EV has not stopped before its timer can have expired. */
  predicate GoesOn(events: seq<Event>) {
    AnsweredAt(events) + Pace(events) >= BeganAt(events, LastOf(events, Parameter)) + 40 * SECOND
  }

  /** The EV has not gone on after its timer must have expired. */
  predicate LeavesOff(events: seq<Event>) {
    Requested(events) - Whole(Last(GapsTold(events))) <= BeganAt(events, FirstOf(events, Successive)) + 40 * SECOND
  }

  /** State B has been signalled, unless it was applied already, within 4.5 s. */
  predicate SignalsStateB(events: seq<Event>) {
    Validating(events) ==>
      && LastOf(events, StateB) >= 0
      && BeganAt(events, LastOf(events, StateB)) <= AnsweredAt(events) + Pace(events) + 4500 * NS_PER_MS
  }

  /** SessionStop, if it was sent, came within 5 s. */
  predicate StopsInTime(events: seq<Event>) {
    var stop := LastOf(events, Stop);
    stop >= 0 ==> BeganAt(events, stop) <= Requested(events) + Pace(events) + 5 * SECOND
  }

  /** The connection has been closed within 5 s, and less than a millisecond more. */
  predicate ClosesInTime(events: seq<Event>, close: int) {
    var stopped := LastOf(events, AnsweredStop);
    var from := if stopped >= 0 then RespondedAt(events, stopped) else Requested(events);
    close < from + Pace(events) + 5001 * NS_PER_MS
  }

  /** CableCheck took its course: the parameters were finished, it was answered, and asked for twice running. */
  predicate TookItsCourse(events: seq<Event>) {
    LastOf(events, Parameter) >= 0 && LastOf(events, Answered) >= 0 && FirstOf(events, Successive) >= 0
  }

  /** The EV went beyond what the test lets it ask, or had to be given up. */
  predicate Overstepped(events: seq<Event>) {
    LastOf(events, Extra) >= 0 || GaveUp(events)
  }

  /** The EV has not been put to the test. */
  predicate NotTested(events: seq<Event>) {
    || !AnyCheck(events) || LastOf(events, Unclean) >= 0
    || (!Overstepped(events) && !TookItsCourse(events))
  }

  predicate Passes(events: seq<Event>, close: int) {
    && !NotTested(events) && !Overstepped(events)
    && GoesOn(events) && LeavesOff(events) && SignalsStateB(events) && StopsInTime(events)
    && ClosesInTime(events, close)
  }

  /** Each of the five claims is made exactly if its requirement is not met. */
  lemma ClaimsAreExact(events: seq<Event>, close: int)
    requires Clocked(events) && Clock(events) <= close
    ensures var f := Run(events);
            && (TooEarly(f) <==> !GoesOn(events))
            && (TooLate(f) <==> !LeavesOff(events))
            && (f.validateControlPilot && StateBLate(f) <==> !SignalsStateB(events))
            && (StopLate(f, close) <==> !StopsInTime(events))
            && (CloseLate(f, close) <==> !ClosesInTime(events, close))
  {
    var f := Run(events);
    RunRecords(events);
    Truncated(Longest(GapsTold(events)));
    Truncated(Last(GapsTold(events)));
    StopIsPast(events);
    TimerClaimsAreCorrect(f, events);
    EndClaimsAreCorrect(f, events, close);
  }

  lemma TimerClaimsAreCorrect(f: Fields, events: seq<Event>)
    requires RecordsFlags(f, events) && RecordsCheckTimes(f, events) && RecordsSignal(f, events)
    requires f.maxGapMs * NS_PER_MS == Pace(events) && f.lastGapMs * NS_PER_MS == Whole(Last(GapsTold(events)))
    ensures TooEarly(f) <==> !GoesOn(events)
    ensures TooLate(f) <==> !LeavesOff(events)
    ensures f.validateControlPilot && StateBLate(f) <==> !SignalsStateB(events)
  {
  }

  lemma EndClaimsAreCorrect(f: Fields, events: seq<Event>, close: int)
    requires RecordsCheckTimes(f, events) && RecordsStops(f, events) && f.lastStopReq <= close
    requires f.maxGapMs * NS_PER_MS == Pace(events)
    ensures StopLate(f, close) <==> !StopsInTime(events)
    ensures CloseLate(f, close) <==> !ClosesInTime(events, close)
  {
    StopsWereSent(events);
    ExceedsMs(close - CloseStart(f, close), TCP_CLOSE_TIMEOUT_MS);
  }

  lemma StopsWereSent(events: seq<Event>)
    ensures LastOf(events, AnsweredStop) >= 0 ==> LastOf(events, Stop) >= 0
  {
    var l := LastOf(events, AnsweredStop);
    assert l >= 0 ==> Is(events, l, Stop);
  }

  lemma StopStep(f: Fields, e: Event, now: int)
    requires now >= 1 && Past(f, now) && f.lastStopReq <= now && InOrder(now, e)
    ensures After(f, e).lastStopReq <= ClockAfter(now, e)
  {
    StaysPast(f, e, now);
  }

  lemma {:induction false} StopIsPast(events: seq<Event>)
    requires Clocked(events)
    ensures Run(events).lastStopReq <= Clock(events)
  {
    if events != [] {
      var before := events[..|events| - 1];
      StopIsPast(before);
      GapsAreRecorded(before);
      StopStep(Run(before), events[|events| - 1], Clock(before));
    }
  }

  /**
   * The verdict is exact: over all histories, the test passes an EV if and only if it was put to the test,
   * overstepped nothing and met the five requirements (and no verdict was given against it before), and
   * reports that the preconditions were not met if and only if it was not put to the test.
   */
  lemma VerdictIsExact(events: seq<Event>, close: int, was: Outcome)
    requires Clocked(events) && Clock(events) <= close
    ensures var verdict := Verdict(Run(events), close, was);
            && (verdict == PassCriteriaMet <==> Passes(events, close) && was != PassCriteriaNotMet)
            && (verdict == PreconditionsNotMet <==> NotTested(events))
  {
    RunRecords(events);
    ClaimsAreExact(events, close);
    AnswersAreChecks(events);
    VerdictIsCorrect(Run(events), events, close, was);
  }

  lemma AnswersAreChecks(events: seq<Event>)
    ensures LastOf(events, Answered) >= 0 ==> LastOf(events, Check) >= 0
  {
    var l := LastOf(events, Answered);
    assert l >= 0 ==> Is(events, l, Check);
  }

  lemma VerdictIsCorrect(f: Fields, events: seq<Event>, close: int, was: Outcome)
    requires RecordsFlags(f, events) && RecordsFaults(f, events) && RecordsCheckTimes(f, events)
    requires f.aborted <==> GaveUp(events)
    requires LastOf(events, Answered) >= 0 ==> f.lastReq > 0
    requires (TooEarly(f) <==> !GoesOn(events)) && (TooLate(f) <==> !LeavesOff(events))
    requires f.validateControlPilot && StateBLate(f) <==> !SignalsStateB(events)
    requires StopLate(f, close) <==> !StopsInTime(events)
    requires CloseLate(f, close) <==> !ClosesInTime(events, close)
    ensures Verdict(f, close, was) == PassCriteriaMet <==> Passes(events, close) && was != PassCriteriaNotMet
    ensures Verdict(f, close, was) == PreconditionsNotMet <==> NotTested(events)
  {
  }

  /** An EV whose stop no start of the timer explains, or whose requests none explains, is never passed. */
  lemma UnexplainedIsNotPassed(events: seq<Event>, p: nat, a: nat, b: nat, close: int, was: Outcome)
    requires Clocked(events) && Clock(events) <= close && Course(events, p, a, b)
    requires !StopIsExplained(events, p) || !RequestsAreExplained(events, p, b)
    ensures Verdict(Run(events), close, was) != PassCriteriaMet
    ensures !NotTested(events) ==> Verdict(Run(events), close, was) == PassCriteriaNotMet
  {
    if !StopIsExplained(events, p) {
      EarlyStopIsCaught(events, p, a, b);
    } else {
      LateRequestIsCaught(events, p, a, b);
    }
    VerdictIsExact(events, close, was);
  }

  lemma EventExactly(f: Fields, e: Event)
    requires e.CableCheckReq?
    ensures var g := After(f, e);
            EventFor(Received(f, e.req), e)
            == if f.aborted && IsClean(e) && LongAfter(e.req, g.earliestStart, g.latestStart) then SendAndTerminate
               else e.event
  {
  }

  /**
   * The connection is ended from the second request on that comes that late; every other CableCheckReq
   * is answered as the underlying server answers it.
   */
  lemma EndsExactlyAtTheSecond(events: seq<Event>, e: Event)
    requires Clocked(events + [e]) && e.CableCheckReq?
    ensures EventFor(Received(Run(events), e.req), e)
         == if GaveUp(events) && GivesUp(events + [e], |events|) then SendAndTerminate else e.event
  {
    var more := events + [e];
    assert more[..|events|] == events;
    LastIsDated(more);
    GivingUpIsRecorded(events);
    CheckTimesAreRecorded(more);
    GivesUpExactly(Run(events), events, e);
    EventExactly(Run(events), e);
  }
}
