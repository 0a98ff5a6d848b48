/**
 * What a DIN SPEC 70121 request is answered with, told from the fields of the request, the inputs of
 * the charger and the session: which code names which fault, and what else one request changes.
 */
module DinAnswers {
  import opened DinServer
  import opened Faults
  import opened V2g

  /** The faults of a request that its handler looks for, in order of precedence. */
  function OwnFaults(evse: Evse, req: Request): seq<Objection> {
    match req
    case ServiceDiscoveryReq => [Objection(!evse.externalPaymentAllowed, FAILED)]
    case ServicePaymentSelectionReq(external, onlyChargeService) =>
      [Objection(!onlyChargeService, FAILED_ServiceSelectionInvalid),
       Objection(!external, FAILED_PaymentSelectionInvalid)]
    case ChargeParameterDiscoveryReq(typeOffered, acParameter) =>
      [Objection(acParameter, FAILED_WrongChargeParameter), Objection(!typeOffered, FAILED_WrongEnergyTransfer)]
    case PowerDeliveryReq(ready, tariffKnown) =>
      [Objection(ready && !Ready(evse), FAILED_PowerDeliveryNotApplied),
       Objection(!tariffKnown, FAILED_TariffSelectionInvalid)]
    case _ => []
  }

  /** The charger can start. */
  predicate Ready(evse: Evse) {
    evse.chargeStatusReady && !evse.emergencyShutdown
  }

  /** The faults of a request's place in the session, and of the session, in order of precedence. */
  function SessionFaults(c: Context, input: Incoming): seq<Objection>
    requires InTable(c)
  {
    if c.evse.connectionTerminated then []
    else
      [Objection(!input.req.SessionSetupReq? && c.sessionId != input.receivedId, FAILED_UnknownSession),
       Objection(TypeOf(input.req) !in Row(c.state), FAILED_SequenceError),
       Objection(c.evse.stopHlc || c.evse.emergencyShutdown, FAILED)]
  }

  /** The EV asks to start although it was charging; this is found last and prevails. */
  function RestartFaults(c: Context, req: Request): seq<Objection> {
    [Objection(req.PowerDeliveryReq? && req.readyToCharge && c.lastMsg == CurrentDemand, FAILED)]
  }

  function Success(req: Request): ResponseCode {
    if req.SessionSetupReq? then OK_NewSessionEstablished else OK
  }

  predicate Used(req: Request) {
    !req.ForeignReq? && !req.UnsupportedReq?
  }

  function AllFaults(c: Context, input: Incoming): seq<Objection>
    requires InTable(c)
  {
    RestartFaults(c, input.req) + SessionFaults(c, input) + OwnFaults(c.evse, input.req)
  }

  lemma OwnFaultIsNamed(c: Context, input: Incoming)
    requires Used(input.req)
    ensures Names(OwnFaults(c.evse, input.req), Success(input.req), OwnCode(Announced(c, input), input.req))
  {
    NamesOneByOne(OwnFaults(c.evse, input.req), Success(input.req), OwnCode(Announced(c, input), input.req));
  }

  lemma SessionFaultIsNamed(c: Context, input: Incoming, own: ResponseCode)
    requires InTable(c) && Used(input.req)
    ensures Names(SessionFaults(c, input), own, ValidatedCode(Announced(c, input), own))
  {
    assert TypeOf(input.req) == SessionSetup <==> input.req.SessionSetupReq?;
    NamesOneByOne(SessionFaults(c, input), own, ValidatedCode(Announced(c, input), own));
  }

  /**
   * Every request that DIN SPEC 70121 uses is answered with the code of the first of its faults, or with
   * success: a start while charging; then, while the connection is up, the session it names, its turn
   * and an abort; then what its handler looks for.
   */
  lemma FaultIsNamed(c: Context, input: Incoming)
    requires InTable(c) && Used(input.req)
    ensures Names(AllFaults(c, input), Success(input.req), Step(c, input).1.code)
  {
    var own := OwnCode(Announced(c, input), input.req);
    var validated := ValidatedCode(Announced(c, input), own);
    var last, session, faults := RestartFaults(c, input.req), SessionFaults(c, input), OwnFaults(c.evse, input.req);
    OwnFaultIsNamed(c, input);
    SessionFaultIsNamed(c, input, own);
    NamesAppend(session, faults, Success(input.req), own, validated);
    NamesOneByOne(last, validated, Step(c, input).1.code);
    NamesAppend(last, session + faults, Success(input.req), validated, Step(c, input).1.code);
    assert AllFaults(c, input) == last + (session + faults);
  }

  /**
   * What the connection does next: unused requests are ignored, a lost connection ends without an answer,
   * and SessionStop, a start while charging and every other fault end it with one.
   */
  lemma EventExactly(c: Context, input: Incoming)
    requires InTable(c)
    ensures var event := Step(c, input).1.event;
            && (event == IgnoreMsg <==> !Used(input.req))
            && (event == SendAndTerminate <==>
                  && Used(input.req)
                  && (input.req.SessionStopReq? || AnyFault(RestartFaults(c, input.req))
                      || (!c.evse.connectionTerminated
                          && (AnyFault(SessionFaults(c, input)) || AnyFault(OwnFaults(c.evse, input.req))))))
            && (event == TerminateConnection <==>
                  && Used(input.req) && c.evse.connectionTerminated
                  && !input.req.SessionStopReq? && !AnyFault(RestartFaults(c, input.req)))
            && event != SendRecvExiMsg
  {
    if Used(input.req) {
      var own := OwnCode(Announced(c, input), input.req);
      OwnFaultIsNamed(c, input);
      NoFault(OwnFaults(c.evse, input.req), Success(input.req), own);
      SessionFailure(c, input, own);
      assert RestartFaults(c, input.req)[0].holds <==> RestartsCharging(Announced(c, input), input.req);
    }
  }

  lemma SessionFailure(c: Context, input: Incoming, own: ResponseCode)
    requires InTable(c) && Used(input.req)
    ensures ValidatedCode(Announced(c, input), own).IsFailure() <==>
              AnyFault(SessionFaults(c, input)) || own.IsFailure()
  {
    SessionFaultIsNamed(c, input, own);
    var faults := SessionFaults(c, input);
    assert forall k | 0 <= k < |faults| :: faults[k].code.IsFailure();
  }

  /** What a response reports about the charger; a start while charging is refused with a bare response. */
  lemma ReportsExactly(c: Context, input: Incoming)
    requires InTable(c)
    ensures var reply := Step(c, input).1;
            && (reply.finished <==>
                  && (input.req.ContractAuthenticationReq? ==> c.evse.authFinished)
                  && (input.req.ChargeParameterDiscoveryReq? ==> c.evse.parameterFinished)
                  && (input.req.CableCheckReq? ==> c.evse.isolationFinished))
            && (reply.isolation.Some? <==> input.req.CableCheckReq? && c.evse.isolationUsed)
            && (reply.isolation.Some? ==> reply.isolation.value == c.evse.isolation)
            && (!Used(input.req) ==> reply.code == OK)
  {
  }

  /** What else one request changes: an absent session gets its identifier, and the message is remembered. */
  lemma ContextExactly(c: Context, input: Incoming)
    requires InTable(c)
    ensures var c' := Step(c, input).0;
            && c'.sessionId ==
               (if input.req.SessionSetupReq? && c.sessionId == 0 then input.req.freshId else c.sessionId)
            && c'.receivedId == input.receivedId && c'.evse == c.evse
            && c'.lastMsg == (if Used(input.req) then TypeOf(input.req) else c.lastMsg)
            && c'.currentMsg ==
               (if Used(input.req) then TypeOf(input.req)
                else if input.req.ForeignReq? then UnknownMsg
                else c.currentMsg)
            && (!Used(input.req) ==> c'.state == c.state)
            && (input.req.SessionStopReq? ==> c'.state == TERMINATED_SESSION)
  {
  }

  /** PreCharge follows exactly a finished CableCheck of valid or warning isolation outside an emergency. */
  lemma PreChargeFollowsExactly(c: Context, input: Incoming)
    requires InTable(c) && input.req.CableCheckReq?
    ensures Step(c, input).0.state ==
              if && c.evse.isolationFinished && c.evse.isolationUsed && !c.evse.emergencyShutdown
                 && (c.evse.isolation == Valid || c.evse.isolation == Warning)
              then PRECHARGE else CABLECHECK
  {
  }
}
