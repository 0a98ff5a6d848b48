/**
 * The conformance test CurrentDemand_005 for DIN SPEC 70121: the charger does not answer the
 * first CurrentDemandReq, and the EV must give up in time. Times are integer nanoseconds of
 * the system clock since the epoch, and 0 stands for a time that was never set.
 */
module CurrentDemand005 {
  import opened Durations
  import opened Testing
  import opened V2g

  const DEMAND_TIMEOUT_MS := 250
  const STATE_B_TIMEOUT_MS := 4_500
  const TCP_CLOSE_TIMEOUT_MS := 5_000

  /**
   * What happens to the test case. A request arrives at `at`; `event` and `failure` are the
   * answer of the underlying server if it is asked, and `res` is when that answer is ready.
   */
  datatype Event =
    | Request(msg: Msg, at: int, event: V2gEvent, failure: bool, pilotB: bool, res: int)
    | ControlPilot(stateB: bool, at: int)

  datatype Fields = Fields(
    started: bool,
    failed: bool,
    extraRequest: bool,
    validateControlPilot: bool,
    stateB: int,
    demandReq: int,
    stopReq: int,
    stopRes: int,
    outcome: Outcome)

  const INITIAL := Fields(false, false, false, false, 0, 0, 0, 0, PreconditionsNotMet)

  // ---------------------------------------------------------------------------
  // Specification
  // ---------------------------------------------------------------------------

  predicate IsDemand(e: Event) {
    e.Request? && e.msg == CurrentDemand
  }

  predicate IsStop(e: Event) {
    e.Request? && e.msg == SessionStop
  }

  /** The underlying server found nothing wrong with the CurrentDemandReq. */
  predicate Clean(e: Event)
    requires IsDemand(e)
  {
    e.event == NoEvent && !e.failure
  }

  predicate Admits(f: Fields, msg: Msg) {
    (Id(msg) <= Id(CurrentDemand) && !f.started) || msg == SessionStop
  }

  function After(f: Fields, e: Event): Fields {
    match e
    case ControlPilot(stateB, at) => if f.validateControlPilot && stateB then f.(stateB := at) else f
    case Request(msg, at, event, failure, pilotB, res) =>
      if !Admits(f, msg) then f.(extraRequest := true, outcome := PassCriteriaNotMet)
      else if msg == CurrentDemand then
        f.(started := true, demandReq := at, failed := f.failed || !Clean(e),
           validateControlPilot := f.validateControlPilot || (Clean(e) && !pilotB))
      else if msg == SessionStop && f.started then
        f.(stopReq := at, stopRes := if Answers(event) then res else f.stopRes)
      else f
  }

  function Run(events: seq<Event>): Fields {
    if events == [] then INITIAL else After(Run(events[..|events| - 1]), events[|events| - 1])
  }

  function CloseStart(f: Fields): int {
    if f.stopRes == 0 then f.demandReq + DEMAND_TIMEOUT_MS * NS_PER_MS else f.stopRes
  }

  /** A time lies in the window from the end of the demand timer to a later timeout, in truncated milliseconds. */
  predicate InWindow(f: Fields, at: int, timeoutMs: nat) {
    DEMAND_TIMEOUT_MS <= ToMs(at - f.demandReq) <= DEMAND_TIMEOUT_MS + timeoutMs
  }

  predicate TimesKept(f: Fields, close: int) {
    && (f.validateControlPilot ==> f.demandReq <= f.stateB && InWindow(f, f.stateB, STATE_B_TIMEOUT_MS))
    && (f.stopReq > 0 ==> InWindow(f, f.stopReq, TCP_CLOSE_TIMEOUT_MS))
    && f.demandReq + DEMAND_TIMEOUT_MS * NS_PER_MS <= close
    && ToMs(close - CloseStart(f)) <= TCP_CLOSE_TIMEOUT_MS
  }

  function Verdict(f: Fields, close: int): Outcome {
    if !f.started || f.failed then PreconditionsNotMet
    else if f.extraRequest then PassCriteriaNotMet
    else if f.demandReq == 0 then PreconditionsNotMet
    else if TimesKept(f, close) && f.outcome != PassCriteriaNotMet then PassCriteriaMet
    else PassCriteriaNotMet
  }

  // ---------------------------------------------------------------------------
  // What the verdict means
  // ---------------------------------------------------------------------------

  /** The first CurrentDemandReq of a history, or -1. */
  function First(events: seq<Event>): (k: int)
    ensures -1 <= k < |events|
    ensures k >= 0 ==> IsDemand(events[k]) && forall j | 0 <= j < k :: !IsDemand(events[j])
    ensures k == -1 ==> forall j | 0 <= j < |events| :: !IsDemand(events[j])
  {
    if events == [] then -1
    else
      var n := |events| - 1;
      var k := First(events[..n]);
      if k >= 0 then k else if IsDemand(events[n]) then n else -1
  }

  datatype Kind = StateB | Stop | AnsweredStop

  predicate Is(kind: Kind, e: Event) {
    match kind
    case StateB => e.ControlPilot? && e.stateB
    case Stop => IsStop(e)
    case AnsweredStop => IsStop(e) && (e.event == NoEvent || e.event == SendAndTerminate)
  }

  /** The last event of a kind after position `k`, or -1. */
  function LastAfter(events: seq<Event>, k: int, kind: Kind): (l: int)
    requires -1 <= k
    ensures l == -1 || (k < l < |events| && Is(kind, events[l]))
    ensures forall j | k < j < |events| && Is(kind, events[j]) :: j <= l
  {
    if |events| <= k + 1 then -1
    else
      var n := |events| - 1;
      if Is(kind, events[n]) then n else LastAfter(events[..n], k, kind)
  }

  predicate IsBeyond(msg: Msg) {
    msg == WeldingDetection || msg == UnknownMsg
  }

  /** A request that the test does not expect: anything but SessionStop after the first demand or beyond it. */
  predicate Unexpected(events: seq<Event>, k: int, j: nat)
    requires j < |events|
  {
    events[j].Request? && events[j].msg != SessionStop && (IsBeyond(events[j].msg) || 0 <= k < j)
  }

  predicate AnyUnexpected(events: seq<Event>) {
    exists j | 0 <= j < |events| :: Unexpected(events, First(events), j)
  }

  predicate Within(ns: int, fromMs: nat, beforeMs: nat) {
    fromMs * NS_PER_MS <= ns < beforeMs * NS_PER_MS
  }

  /**
   * What the test requires of the EV, told from the history alone: the demand was accepted,
   * nothing unexpected was requested, state B (unless it was applied already) and SessionStop (if
   * sent) came in their windows after it, and the connection was closed in time, counted from the
   * last answer to a SessionStop or from the end of the demand timer.
   */
  predicate Passes(events: seq<Event>, close: int) {
    var k := First(events);
    && k >= 0 && events[k].event == NoEvent && !events[k].failure
    && !AnyUnexpected(events)
    && var demand := events[k].at;
       var b, s, a := LastAfter(events, k, StateB), LastAfter(events, k, Stop), LastAfter(events, k, AnsweredStop);
       && (!events[k].pilotB ==> b >= 0 && Within(events[b].at - demand, 250, 4751))
       && (s >= 0 ==> Within(events[s].at - demand, 250, 5251))
       && close - demand >= 250 * NS_PER_MS
       && close - (if a >= 0 then events[a].res else demand + 250 * NS_PER_MS) < 5001 * NS_PER_MS
  }

  /** Clock readings are positive. */
  predicate Clocked(events: seq<Event>) {
    forall j | 0 <= j < |events| :: events[j].at > 0 && (events[j].Request? ==> events[j].res > 0)
  }

  function TimeOf(events: seq<Event>, l: int): int
    requires l < |events|
  {
    if l < 0 then 0 else events[l].at
  }

  function ResOf(events: seq<Event>, l: int): int
    requires l < |events| && (l >= 0 ==> events[l].Request?)
  {
    if l < 0 then 0 else events[l].res
  }

  /** The fields record whether a request was unexpected. */
  predicate RecordsExtra(f: Fields, events: seq<Event>) {
    (f.extraRequest <==> AnyUnexpected(events)) && (f.outcome == PassCriteriaNotMet <==> f.extraRequest)
  }

  /** The fields record the demand at `k`, and the last events of each kind after it. */
  predicate RecordsSince(f: Fields, events: seq<Event>, k: nat)
    requires k < |events| && IsDemand(events[k])
  {
    && f.started
    && f.demandReq == events[k].at && (f.failed <==> !Clean(events[k]))
    && (f.validateControlPilot <==> Clean(events[k]) && !events[k].pilotB)
    && (f.validateControlPilot ==> f.stateB == TimeOf(events, LastAfter(events, k, StateB)))
    && f.stopReq == TimeOf(events, LastAfter(events, k, Stop))
    && f.stopRes == ResOf(events, LastAfter(events, k, AnsweredStop))
  }

  predicate RecordsDemand(f: Fields, events: seq<Event>) {
    if First(events) >= 0 then RecordsSince(f, events, First(events))
    else !f.started && !f.failed && !f.validateControlPilot && f.stateB == f.stopReq == f.stopRes == 0
  }

  lemma FirstOneMore(events: seq<Event>, e: Event)
    ensures First(events + [e]) == if First(events) >= 0 then First(events) else if IsDemand(e) then |events| else -1
  {
    assert (events + [e])[..|events|] == events;
  }

  lemma LastOneMore(events: seq<Event>, e: Event, k: int, kind: Kind)
    requires 0 <= k < |events|
    ensures LastAfter(events + [e], k, kind) == if Is(kind, e) then |events| else LastAfter(events, k, kind)
  {
    assert (events + [e])[..|events|] == events;
  }

  lemma UnexpectedOneMore(events: seq<Event>, e: Event)
    ensures var more := events + [e];
            AnyUnexpected(more) <==> AnyUnexpected(events) || Unexpected(more, First(more), |events|)
  {
    var more := events + [e];
    FirstOneMore(events, e);
    forall j | 0 <= j < |events| ensures Unexpected(more, First(more), j) <==> Unexpected(events, First(events), j) {
      assert more[j] == events[j];
    }
  }

  lemma RecordsExtraOneMore(f: Fields, events: seq<Event>, e: Event)
    requires RecordsExtra(f, events) && RecordsDemand(f, events)
    ensures RecordsExtra(After(f, e), events + [e])
  {
    UnexpectedOneMore(events, e);
    FirstOneMore(events, e);
    assert (events + [e])[|events|] == e;
  }

  lemma RecordsSinceOneMore(f: Fields, events: seq<Event>, e: Event, k: nat)
    requires k < |events| && IsDemand(events[k]) && RecordsSince(f, events, k)
    ensures RecordsSince(After(f, e), events + [e], k)
  {
    LastOneMore(events, e, k, StateB);
    LastOneMore(events, e, k, Stop);
    LastOneMore(events, e, k, AnsweredStop);
  }

  lemma RecordsDemandOneMore(f: Fields, events: seq<Event>, e: Event)
    requires RecordsDemand(f, events)
    ensures RecordsDemand(After(f, e), events + [e])
  {
    FirstOneMore(events, e);
    if First(events) >= 0 {
      RecordsSinceOneMore(f, events, e, First(events));
    } else {
      assert (events + [e])[|events|] == e;
    }
  }

  lemma {:induction false} RunRecords(events: seq<Event>)
    ensures RecordsExtra(Run(events), events) && RecordsDemand(Run(events), events)
  {
    if events != [] {
      var front, e := events[..|events| - 1], events[|events| - 1];
      RunRecords(front);
      RecordsExtraOneMore(Run(front), front, e);
      RecordsDemandOneMore(Run(front), front, e);
      assert front + [e] == events;
    }
  }

  /** The EV has not been put to the test: it never asked for current, or the server refused it. */
  predicate NotTested(events: seq<Event>) {
    var k := First(events);
    k < 0 || events[k].event != NoEvent || events[k].failure
  }

  /**
   * The verdict is exact: over all histories, the test passes the EV if and only if the EV did
   * what the test requires of it, and reports that the preconditions were not met if and only if
   * the EV was not put to the test.
   */
  lemma VerdictIsExact(events: seq<Event>, close: int)
    requires Clocked(events)
    ensures Verdict(Run(events), close) == PassCriteriaMet <==> Passes(events, close)
    ensures Verdict(Run(events), close) == PreconditionsNotMet <==> NotTested(events)
  {
    var f, k := Run(events), First(events);
    RunRecords(events);
    if k >= 0 {
      ExceedsMs(f.stateB - f.demandReq, 4750);
      ExceedsMs(f.stateB - f.demandReq, 249);
      ExceedsMs(f.stopReq - f.demandReq, 5250);
      ExceedsMs(f.stopReq - f.demandReq, 249);
      ExceedsMs(close - CloseStart(f), TCP_CLOSE_TIMEOUT_MS);
    }
  }

  // ---------------------------------------------------------------------------
  // The test case object
  // ---------------------------------------------------------------------------

  class TestCase {
    var currentDemandStarted: bool
    var currentDemandFailed: bool
    var receivedExtraRequest: bool
    var validateControlPilot: bool
    var cpStateBTime: int
    var currentDemandReqTime: int
    var sessionStopReqTime: int
    var sessionStopResTime: int
    var outcome: Outcome

    function F(): Fields
      reads this
    {
      Fields(currentDemandStarted, currentDemandFailed, receivedExtraRequest, validateControlPilot, cpStateBTime,
             currentDemandReqTime, sessionStopReqTime, sessionStopResTime, outcome)
    }

    constructor ()
      ensures F() == INITIAL
    {
      currentDemandStarted, currentDemandFailed := false, false;
      receivedExtraRequest, validateControlPilot := false, false;
      cpStateBTime, currentDemandReqTime, sessionStopReqTime, sessionStopResTime := 0, 0, 0, 0;
      outcome := PreconditionsNotMet;
    }

    method OnUpdateBsp(stateB: bool, at: int)
      modifies this
      ensures F() == After(old(F()), ControlPilot(stateB, at))
    {
      if validateControlPilot {
        if stateB {
          cpStateBTime := at;
        }
      }
    }

    /** The first demand is handled normally, but not answered. */
    method HandleCurrentDemand(e: Event) returns (next: V2gEvent)
      requires IsDemand(e) && Admits(F(), e.msg)
      modifies this
      ensures F() == After(old(F()), e)
      ensures next == if Clean(e) then IgnoreMsg else e.event
    {
      currentDemandReqTime := e.at;
      currentDemandStarted := true;
      next := e.event;
      if next == NoEvent && !e.failure {
        if !e.pilotB {
          validateControlPilot := true;
        }
        next := IgnoreMsg;
      } else {
        currentDemandFailed := true;
      }
    }

    method HandleSessionStop(e: Event) returns (next: V2gEvent)
      requires IsStop(e)
      modifies this
      ensures F() == After(old(F()), e) && next == e.event
    {
      next := e.event;
      if currentDemandStarted {
        sessionStopReqTime := e.at;
        if next == NoEvent || next == SendAndTerminate {
          sessionStopResTime := e.res;
        }
      }
    }

    method HandleRequest(e: Event) returns (next: V2gEvent)
      requires e.Request?
      modifies this
      ensures F() == After(old(F()), e)
      ensures next == if !Admits(old(F()), e.msg) then TerminateConnection
                      else if IsDemand(e) && Clean(e) then IgnoreMsg
                      else e.event
    {
      if (Id(e.msg) <= Id(CurrentDemand) && !currentDemandStarted) || e.msg == SessionStop {
        if e.msg == CurrentDemand {
          next := HandleCurrentDemand(e);
        } else if e.msg == SessionStop {
          next := HandleSessionStop(e);
        } else {
          next := e.event;
        }
      } else {
        receivedExtraRequest := true;
        outcome := PassCriteriaNotMet;
        next := TerminateConnection;
      }
    }

    /** The verdict. */
    method OnConnectionClose(close: int)
      modifies `outcome
      ensures outcome == Verdict(old(F()), close)
    {
      if !currentDemandStarted {
        outcome := PreconditionsNotMet;
        return;
      }
      if currentDemandFailed {
        outcome := PreconditionsNotMet;
        return;
      }
      if receivedExtraRequest {
        outcome := PassCriteriaNotMet;
        return;
      }
      if currentDemandReqTime == 0 {
        outcome := PreconditionsNotMet;
        return;
      }
      if validateControlPilot {
        if cpStateBTime < currentDemandReqTime {
          outcome := PassCriteriaNotMet;
        } else {
          var duration := ToMs(cpStateBTime - currentDemandReqTime);
          if duration < DEMAND_TIMEOUT_MS {
            outcome := PassCriteriaNotMet;
          } else {
            if DEMAND_TIMEOUT_MS + STATE_B_TIMEOUT_MS < duration {
              outcome := PassCriteriaNotMet;
            }
          }
        }
      }
      if sessionStopReqTime > 0 {
        var duration := ToMs(sessionStopReqTime - currentDemandReqTime);
        if duration < DEMAND_TIMEOUT_MS {
          outcome := PassCriteriaNotMet;
        }
        if DEMAND_TIMEOUT_MS + TCP_CLOSE_TIMEOUT_MS < duration {
          outcome := PassCriteriaNotMet;
        }
      }
      if close < currentDemandReqTime + DEMAND_TIMEOUT_MS * NS_PER_MS {
        outcome := PassCriteriaNotMet;
      } else {
        var start := if sessionStopResTime == 0 then currentDemandReqTime + DEMAND_TIMEOUT_MS * NS_PER_MS
                     else sessionStopResTime;
        var duration := ToMs(close - start);
        if TCP_CLOSE_TIMEOUT_MS < duration {
          outcome := PassCriteriaNotMet;
        } else if outcome != PassCriteriaNotMet {
          outcome := PassCriteriaMet;
        }
      }
    }
  }
}
