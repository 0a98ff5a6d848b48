/**
 * The conformance test CableCheck_006 for DIN SPEC 70121: the charger answers every
 * CableCheckReq with Ongoing, and the EV must stop asking when its 40 s timer expires. The
 * verdict claims only unambiguous violations. Times are integer nanoseconds of the system
 * clock since the epoch, and 0 stands for a time that was never set.
 */
module CableCheck006 {
  import opened Durations
  import opened Testing
  import opened V2g

  const CABLE_CHECK_TIMEOUT := 40_000 * NS_PER_MS
  const STATE_B_TIMEOUT := 4_500 * NS_PER_MS
  const TCP_CLOSE_TIMEOUT_MS := 5_000
  const TCP_CLOSE_TIMEOUT := TCP_CLOSE_TIMEOUT_MS * NS_PER_MS

  /** The fields of the test case; durations are in milliseconds. */
  datatype Fields = Fields(
    started: bool,
    failed: bool,
    aborted: bool,
    extraRequest: bool,
    validateControlPilot: bool,
    earliestStart: int,
    latestStart: int,
    lastGapMs: int,
    maxGapMs: int,
    stateB: int,
    lastReq: int,
    lastRes: int,
    lastStopReq: int,
    lastStopRes: int,
    lastIsCableCheck: bool)

  const INITIAL := Fields(false, false, false, false, false, 0, 0, 0, 0, 0, 0, 0, 0, 0, false)

  /**
   * What happens to the test case. `event` and `failure` are the answer of the underlying server,
   * `trouble` says that its response reports a bad status, an isolation fault or a notification,
   * and `pilotB` is the state of the control pilot when the response is ready.
   */
  datatype Event =
    | EarlierRequest
    | ChargeParameter(cableCheckNext: bool, at: int)
    | CableCheckReq(req: int, event: V2gEvent, failure: bool, trouble: bool, pilotB: bool, res: int)
    | SessionStopReq(req: int, event: V2gEvent, res: int)
    | ExtraRequest
    | ControlPilot(stateB: bool, at: int)

  function Max(a: int, b: int): int {
    if a < b then b else a
  }

  function Min(a: int, b: int): int {
    if b < a then b else a
  }

  // ---------------------------------------------------------------------------
  // Specification
  // ---------------------------------------------------------------------------

  predicate RunningForever(f: Fields, at: int) {
    at - Max(f.earliestStart, f.latestStart) > CABLE_CHECK_TIMEOUT + TCP_CLOSE_TIMEOUT
  }

  /** Bookkeeping when a CableCheckReq arrives. */
  function Received(f: Fields, at: int): Fields {
    var gap := if f.lastRes != 0 then ToMs(at - f.lastRes) else f.lastGapMs;
    f.(started := f.started || !f.lastIsCableCheck,
       latestStart := if f.lastIsCableCheck && f.latestStart == 0 then at else f.latestStart,
       lastGapMs := gap,
       maxGapMs := Max(f.maxGapMs, gap),
       lastReq := at)
  }

  /** The test examines a response only if the underlying server found nothing wrong. */
  predicate Examined(e: Event)
    requires e.CableCheckReq?
  {
    e.event == NoEvent && !e.failure && !e.trouble
  }

  function EventFor(f: Fields, e: Event): V2gEvent
    requires e.CableCheckReq?
  {
    if Examined(e) && RunningForever(f, f.lastReq) && f.aborted then SendAndTerminate else e.event
  }

  function AfterCableCheck(f: Fields, e: Event): Fields
    requires e.CableCheckReq?
  {
    var r := Received(f, e.req);
    var j := r.(failed := r.failed || !Examined(e),
                aborted := r.aborted || (Examined(e) && RunningForever(r, r.lastReq)),
                lastIsCableCheck := true);
    if Answers(EventFor(r, e)) then j.(validateControlPilot := !e.pilotB, lastRes := e.res) else j
  }

  function After(f: Fields, e: Event): Fields {
    match e
    case EarlierRequest => f.(lastIsCableCheck := false)
    case ChargeParameter(next, at) =>
      f.(earliestStart := if next then at else f.earliestStart, lastIsCableCheck := false)
    case CableCheckReq(_, _, _, _, _, _) => AfterCableCheck(f, e)
    case SessionStopReq(req, event, res) =>
      if f.started then
        f.(lastStopReq := req, lastStopRes := if Answers(event) then res else f.lastStopRes, lastIsCableCheck := false)
      else f.(lastIsCableCheck := false)
    case ExtraRequest => f.(extraRequest := true)
    case ControlPilot(stateB, at) => if f.validateControlPilot && stateB then f.(stateB := at) else f
  }

  function Run(events: seq<Event>): Fields {
    if events == [] then INITIAL else After(Run(events[..|events| - 1]), events[|events| - 1])
  }

  predicate TimesSet(f: Fields) {
    f.lastReq != 0 && f.lastRes != 0 && f.earliestStart != 0 && f.latestStart != 0
  }

  /** The claim that the last CableCheckReq was sent before the timer expired, and no other one followed. */
  predicate TooEarly(f: Fields) {
    f.lastRes + f.maxGapMs * NS_PER_MS < f.earliestStart + CABLE_CHECK_TIMEOUT
  }

  /** The claim that the last CableCheckReq was sent after the timer expired. */
  predicate TooLate(f: Fields) {
    f.latestStart + CABLE_CHECK_TIMEOUT < f.lastReq - f.lastGapMs * NS_PER_MS
  }

  predicate StateBLate(f: Fields) {
    f.stateB == 0 || Min(f.stateB, f.lastRes + f.maxGapMs * NS_PER_MS) + STATE_B_TIMEOUT < f.stateB
  }

  function CloseStart(f: Fields, at: int): int {
    Min(at, (if f.lastStopReq > 0 && f.lastStopRes != 0 then f.lastStopRes else f.lastReq) + f.maxGapMs * NS_PER_MS)
  }

  predicate StopLate(f: Fields, at: int) {
    f.lastStopReq > 0 && Min(at, f.lastReq + f.maxGapMs * NS_PER_MS) + TCP_CLOSE_TIMEOUT < f.lastStopReq
  }

  predicate CloseLate(f: Fields, at: int) {
    TCP_CLOSE_TIMEOUT_MS < ToMs(at - CloseStart(f, at))
  }

  /** The timing requirements that the test claims to be violated. */
  predicate Violated(f: Fields, at: int) {
    TooEarly(f) || TooLate(f) || (f.validateControlPilot && StateBLate(f)) || StopLate(f, at) || CloseLate(f, at)
  }

  function Verdict(f: Fields, at: int, was: Outcome): Outcome {
    if !f.started || f.failed then PreconditionsNotMet
    else if f.extraRequest || f.aborted then PassCriteriaNotMet
    else if !TimesSet(f) then PreconditionsNotMet
    else if Violated(f, at) || was == PassCriteriaNotMet then PassCriteriaNotMet
    else PassCriteriaMet
  }

  // ---------------------------------------------------------------------------
  // The test case object
  // ---------------------------------------------------------------------------

  class TestCase {
    var cableCheckStarted: bool
    var cableCheckFailed: bool
    var cableCheckAborted: bool
    var receivedExtraRequest: bool
    var validateControlPilot: bool
    var earliestCableCheckTimerStart: int
    var latestCableCheckTimerStart: int
    var lastCableCheckSequenceDuration: int
    var maxCableCheckSequenceDuration: int
    var cpStateBTime: int
    var lastCableCheckReqTime: int
    var lastCableCheckResTime: int
    var lastSessionStopReqTime: int
    var lastSessionStopResTime: int
    var lastIsCableCheck: bool
    var outcome: Outcome

    function F(): Fields
      reads this
    {
      Fields(cableCheckStarted, cableCheckFailed, cableCheckAborted, receivedExtraRequest, validateControlPilot,
             earliestCableCheckTimerStart, latestCableCheckTimerStart, lastCableCheckSequenceDuration,
             maxCableCheckSequenceDuration, cpStateBTime, lastCableCheckReqTime, lastCableCheckResTime,
             lastSessionStopReqTime, lastSessionStopResTime, lastIsCableCheck)
    }

    constructor ()
      ensures F() == INITIAL && outcome == PreconditionsNotMet
    {
      cableCheckStarted, cableCheckFailed, cableCheckAborted := false, false, false;
      receivedExtraRequest, validateControlPilot, lastIsCableCheck := false, false, false;
      earliestCableCheckTimerStart, latestCableCheckTimerStart := 0, 0;
      lastCableCheckSequenceDuration, maxCableCheckSequenceDuration, cpStateBTime := 0, 0, 0;
      lastCableCheckReqTime, lastCableCheckResTime, lastSessionStopReqTime, lastSessionStopResTime := 0, 0, 0, 0;
      outcome := PreconditionsNotMet;
    }

    predicate IsCableCheckRunningForever(at: int)
      reads this
      ensures IsCableCheckRunningForever(at) <==> RunningForever(F(), at)
    {
      at - Max(earliestCableCheckTimerStart, latestCableCheckTimerStart) > CABLE_CHECK_TIMEOUT + TCP_CLOSE_TIMEOUT
    }

    method OnUpdateBsp(stateB: bool, at: int)
      modifies this
      ensures F() == After(old(F()), ControlPilot(stateB, at)) && outcome == old(outcome)
    {
      if validateControlPilot {
        if stateB {
          cpStateBTime := at;
        }
      }
    }

    /** `next` says that the server answered normally and now waits for CableCheck. */
    method HandleChargeParameter(next: bool, at: int)
      modifies this
      ensures F() == After(old(F()), ChargeParameter(next, at)) && outcome == old(outcome)
    {
      if next {
        earliestCableCheckTimerStart := at;
      }
      lastIsCableCheck := false;
    }

    /** The bookkeeping at the beginning of the CableCheck handler. */
    method NoteCableCheckReq(now: int)
      modifies this
      ensures F() == Received(old(F()), now) && outcome == old(outcome)
    {
      if !lastIsCableCheck {
        cableCheckStarted := true;
      } else if latestCableCheckTimerStart == 0 {
        latestCableCheckTimerStart := now;
      }
      if lastCableCheckResTime != 0 {
        lastCableCheckSequenceDuration := ToMs(now - lastCableCheckResTime);
      }
      if maxCableCheckSequenceDuration < lastCableCheckSequenceDuration {
        maxCableCheckSequenceDuration := lastCableCheckSequenceDuration;
      }
      lastCableCheckReqTime := now;
    }

    /** The handler of CableCheckReq; returns the event for the connection loop. */
    method HandleCableCheck(e: Event) returns (event: V2gEvent)
      requires e.CableCheckReq?
      modifies this
      ensures F() == After(old(F()), e) && event == EventFor(Received(old(F()), e.req), e) && outcome == old(outcome)
    {
      NoteCableCheckReq(e.req);
      event := e.event;
      if event == NoEvent && !e.failure {
        if e.trouble {
          cableCheckFailed := true;
        } else if IsCableCheckRunningForever(lastCableCheckReqTime) {
          if cableCheckAborted {
            event := SendAndTerminate;
          }
          cableCheckAborted := true;
        }
      } else {
        cableCheckFailed := true;
      }
      if event == NoEvent || event == SendAndTerminate {
        validateControlPilot := !e.pilotB;
        lastCableCheckResTime := e.res;
      }
      lastIsCableCheck := true;
    }

    method HandleSessionStop(req: int, event: V2gEvent, res: int)
      modifies this
      ensures F() == After(old(F()), SessionStopReq(req, event, res)) && outcome == old(outcome)
    {
      if cableCheckStarted {
        lastSessionStopReqTime := req;
        if event == NoEvent || event == SendAndTerminate {
          lastSessionStopResTime := res;
        }
      }
      lastIsCableCheck := false;
    }

    /** The gate in front of the handlers: whether the request may proceed to the DIN server. */
    method Admit(requestType: Msg) returns (admitted: bool)
      modifies this
      ensures admitted <==> requestType !in {PreCharge, PowerDelivery, CurrentDemand, WeldingDetection, UnknownMsg}
      ensures F() == (if admitted then old(F()) else After(old(F()), ExtraRequest)) && outcome == old(outcome)
    {
      admitted := Id(requestType) <= Id(CableCheck) || requestType == SessionStop;
      if !admitted {
        receivedExtraRequest := true;
      }
    }

    /** The verdict. */
    method OnConnectionClose(at: int)
      modifies `outcome
      ensures outcome == Verdict(F(), at, old(outcome))
    {
      if !cableCheckStarted {
        outcome := PreconditionsNotMet;
        return;
      }
      if cableCheckFailed {
        outcome := PreconditionsNotMet;
        return;
      }
      if receivedExtraRequest || cableCheckAborted {
        outcome := PassCriteriaNotMet;
        return;
      }
      if lastCableCheckReqTime == 0 || lastCableCheckResTime == 0 || earliestCableCheckTimerStart == 0
         || latestCableCheckTimerStart == 0 {
        outcome := PreconditionsNotMet;
        return;
      }
      var maxGap := maxCableCheckSequenceDuration * NS_PER_MS;
      if lastCableCheckResTime + maxGap < earliestCableCheckTimerStart + CABLE_CHECK_TIMEOUT {
        outcome := PassCriteriaNotMet;
      }
      if latestCableCheckTimerStart + CABLE_CHECK_TIMEOUT
         < lastCableCheckReqTime - lastCableCheckSequenceDuration * NS_PER_MS {
        outcome := PassCriteriaNotMet;
      }
      if validateControlPilot {
        if cpStateBTime == 0 {
          outcome := PassCriteriaNotMet;
        } else {
          var latestCpStateBTimerStart := Min(cpStateBTime, lastCableCheckResTime + maxGap);
          if latestCpStateBTimerStart + STATE_B_TIMEOUT < cpStateBTime {
            outcome := PassCriteriaNotMet;
          }
        }
      }
      var latestTcpCloseTimerStart := Min(at, lastCableCheckReqTime + maxGap);
      if lastSessionStopReqTime > 0 {
        if latestTcpCloseTimerStart + TCP_CLOSE_TIMEOUT < lastSessionStopReqTime {
          outcome := PassCriteriaNotMet;
        }
        if lastSessionStopResTime != 0 {
          latestTcpCloseTimerStart := Min(at, lastSessionStopResTime + maxGap);
        }
      }
      if TCP_CLOSE_TIMEOUT_MS < ToMs(at - latestTcpCloseTimerStart) {
        outcome := PassCriteriaNotMet;
      } else if outcome != PassCriteriaNotMet {
        outcome := PassCriteriaMet;
      }
    }
  }
}
