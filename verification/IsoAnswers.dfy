/**
 * What an ISO 15118-2 request is answered with, told from the fields of the request, the inputs of
 * the charger and what came before: which condition each kind of request has to meet, which code
 * names which fault, and what else one request changes.
 */
module IsoAnswers {
  import opened Faults
  import opened V2g
  import opened IsoServer

  /** A contract has to be proven by each AuthorizationReq that does not follow another one. */
  predicate MustProve(payment: PaymentOption, last: Msg) {
    payment == Contract && last != Authorization
  }

  /** The faults of a request that its handler looks for, in order of precedence. */
  function OwnFaults(isDc: bool, payment: PaymentOption, evse: Evse, last: Msg, req: Request): seq<Objection> {
    match req
    case ServiceDiscoveryReq(left) => [Objection(!left, FAILED)]
    case ServiceDetailReq(known) => [Objection(!known, FAILED_ServiceIDInvalid)]
    case PaymentServiceSelectionReq(_, offered, known, charge) =>
      [Objection(!charge, FAILED_NoChargeServiceSelected), Objection(!known, FAILED_ServiceSelectionInvalid),
       Objection(!offered, FAILED_PaymentSelectionInvalid)]
    case PaymentDetailsReq(chain) =>
      [Objection(payment != Contract, FAILED), Objection(chain == ChainError, FAILED_CertChainError),
       Objection(chain == ChainExpired, FAILED_CertificateExpired),
       Objection(chain == ChainRevoked, FAILED_CertificateRevoked),
       Objection(chain == ChainUnavailable, FAILED_NoCertificateAvailable)]
    case AuthorizationReq(challengeOk, signed, signatureOk, overdue, rejected, revoked) =>
      [Objection(MustProve(payment, last) && !challengeOk, FAILED_ChallengeInvalid),
       Objection(MustProve(payment, last) && !(signed && signatureOk), FAILED_SignatureError),
       Objection(evse.authProcessing != Finished && overdue, FAILED),
       Objection(evse.authProcessing == Finished && rejected && revoked, FAILED_CertificateRevoked),
       Objection(evse.authProcessing == Finished && rejected, FAILED)]
    case ChargeParameterDiscoveryReq(supported, wrong) =>
      [Objection(wrong, FAILED_WrongChargeParameter), Objection(!supported, FAILED_WrongEnergyTransfer)]
    case PowerDeliveryReq(progress, tariffKnown, overdue) =>
      [Objection(!tariffKnown, FAILED_TariffSelectionInvalid),
       Objection(progress == Start && isDc && !(evse.chargeStatusReady && !evse.emergencyShutdown),
             FAILED_PowerDeliveryNotApplied),
       Objection(progress == Start && !isDc && !evse.contactorClosed && overdue, FAILED_ContactorError),
       Objection(progress == UnknownProgress, FAILED)]
    case CertificateInstallationReq(how) => [Objection(how == Refused || how == TimedOut, FAILED)]
    case _ => []
  }

  /** The faults of a request's place in the session, and of the session, in order of precedence. */
  function SessionFaults(c: Context, input: Incoming): seq<Objection>
    requires InTable(c)
  {
    if c.evse.connectionTerminated then []
    else
      [Objection(!input.req.SessionSetupReq? && c.sessionId != input.receivedId, FAILED_UnknownSession),
       Objection(TypeOf(input.req) !in Row(c.state, c.isDc), FAILED_SequenceError),
       Objection(c.evse.stopHlc || c.evse.emergencyShutdown || TimesOut(input.req), FAILED)]
  }

  /** An installation that times out raises the emergency shutdown before it is answered. */
  predicate TimesOut(req: Request) {
    req == CertificateInstallationReq(TimedOut)
  }

  /** The charging progress and the kind of stop do not go with the last message; this is found last and prevails. */
  function PlaceFaults(last: Msg, req: Request): seq<Objection> {
    match req
    case PowerDeliveryReq(progress, _, _) =>
      [Objection(progress == UnknownProgress, FAILED),
       Objection(progress == Start && (last == CurrentDemand || last == ChargingStatus), FAILED),
       Objection(progress == Renegotiate && last != CurrentDemand && last != ChargingStatus, FAILED)]
    case SessionStopReq(session) =>
      [Objection(session == PauseSession && last != PowerDelivery && last != WeldingDetection, FAILED)]
    case _ => []
  }

  /** A session is joined by naming it. */
  predicate Joins(c: Context, input: Incoming) {
    input.receivedId == c.sessionId && c.sessionId != 0
  }

  function Success(c: Context, input: Incoming): ResponseCode {
    if !input.req.SessionSetupReq? then OK
    else if Joins(c, input) then OK_OldSessionJoined
    else OK_NewSessionEstablished
  }

  predicate Validated(req: Request) {
    !req.UnsupportedReq? && !req.CertificateUpdateReq? && req != CertificateInstallationReq(Installed)
  }

  /** The handler's own code is the one of the first fault that it looks for. */
  lemma OwnFaultIsNamed(c: Context, input: Incoming)
    requires Validated(input.req)
    ensures Names(OwnFaults(c.isDc, c.payment, c.evse, c.lastMsg, input.req), Success(c, input),
                  OwnCode(Announced(c, input), input.req))
  {
    NamesOneByOne(OwnFaults(c.isDc, c.payment, c.evse, c.lastMsg, input.req), Success(c, input),
                  OwnCode(Announced(c, input), input.req));
  }

  /** Faults of the session hide those of the handler, and faults of the place prevail. */
  function AllFaults(c: Context, input: Incoming): seq<Objection>
    requires InTable(c)
  {
    PlaceFaults(c.lastMsg, input.req) + SessionFaults(c, input)
    + OwnFaults(c.isDc, c.payment, c.evse, c.lastMsg, input.req)
  }

  /** What a handler does before it validates changes nothing that validation looks at, except for two cases. */
  lemma PreparedForValidation(c: Context, input: Incoming)
    requires InTable(c) && Validated(input.req)
    ensures var p := Prepared(Announced(c, input), input.req);
            && p.currentMsg == TypeOf(input.req) && p.state == c.state && p.isDc == c.isDc
            && p.evse.connectionTerminated == c.evse.connectionTerminated
            && (ForeignSession(p) <==> !input.req.SessionSetupReq? && c.sessionId != input.receivedId)
            && (Aborting(p) <==> c.evse.stopHlc || c.evse.emergencyShutdown || TimesOut(input.req))
  {
  }

  lemma SessionFaultIsNamed(c: Context, input: Incoming, own: ResponseCode)
    requires InTable(c) && Validated(input.req)
    ensures Names(SessionFaults(c, input), own, ValidatedCode(Prepared(Announced(c, input), input.req), own))
  {
    PreparedForValidation(c, input);
    NamesOneByOne(SessionFaults(c, input), own, ValidatedCode(Prepared(Announced(c, input), input.req), own));
  }

  lemma PlaceFaultIsNamed(c: Context, input: Incoming, validated: ResponseCode)
    requires Validated(input.req)
    ensures Names(PlaceFaults(c.lastMsg, input.req), validated,
                  if LateFailure(Announced(c, input), input.req) then FAILED else validated)
  {
    NamesOneByOne(PlaceFaults(c.lastMsg, input.req), validated,
                  if LateFailure(Announced(c, input), input.req) then FAILED else validated);
  }

  /**
   * Every validated request is answered with the code of the first of its faults, or with success: its
   * place after the last message; then, while the connection is up, the session it names, its turn and
   * an abort; then what its handler looks for.
   */
  lemma FaultIsNamed(c: Context, input: Incoming)
    requires InTable(c) && Validated(input.req)
    ensures Names(AllFaults(c, input), Success(c, input), Step(c, input).1.code)
  {
    var own := OwnCode(Announced(c, input), input.req);
    var validated := ValidatedCode(Prepared(Announced(c, input), input.req), own);
    var faults := OwnFaults(c.isDc, c.payment, c.evse, c.lastMsg, input.req);
    OwnFaultIsNamed(c, input);
    SessionFaultIsNamed(c, input, own);
    PlaceFaultIsNamed(c, input, validated);
    NamesAppend(SessionFaults(c, input), faults, Success(c, input), own, validated);
    NamesAppend(PlaceFaults(c.lastMsg, input.req), SessionFaults(c, input) + faults, Success(c, input), validated,
                Step(c, input).1.code);
    assert AllFaults(c, input) == PlaceFaults(c.lastMsg, input.req) + (SessionFaults(c, input) + faults);
  }

  // ---------------------------------------------------------------------------
  // The event, and what is reported
  // ---------------------------------------------------------------------------

  /**
   * What the connection does next: ignored requests and those without validation let it go on, a lost
   * connection ends without an answer, SessionStop and every fault but one of the place end it with one.
   */
  lemma EventExactly(c: Context, input: Incoming)
    requires InTable(c)
    ensures var event := Step(c, input).1.event;
            && (event == IgnoreMsg <==> input.req.UnsupportedReq?)
            && (event == SendRecvExiMsg <==> input.req == CertificateInstallationReq(Installed))
            && (event == TerminateConnection <==>
                  Validated(input.req) && !input.req.SessionStopReq? && c.evse.connectionTerminated)
            && (event == SendAndTerminate <==>
                  && Validated(input.req)
                  && (input.req.SessionStopReq?
                      || (!c.evse.connectionTerminated
                          && (AnyFault(SessionFaults(c, input))
                              || AnyFault(OwnFaults(c.isDc, c.payment, c.evse, c.lastMsg, input.req))))))
  {
    if Validated(input.req) {
      var own := OwnCode(Announced(c, input), input.req);
      var faults := OwnFaults(c.isDc, c.payment, c.evse, c.lastMsg, input.req);
      OwnFaultIsNamed(c, input);
      SessionFaultIsNamed(c, input, own);
      NoFault(faults, Success(c, input), own);
      SessionFailure(c, input, own);
    }
  }

  lemma SessionFailure(c: Context, input: Incoming, own: ResponseCode)
    requires InTable(c) && Validated(input.req)
    ensures ValidatedCode(Prepared(Announced(c, input), input.req), own).IsFailure() <==>
              AnyFault(SessionFaults(c, input)) || own.IsFailure()
  {
    SessionFaultIsNamed(c, input, own);
    var faults := SessionFaults(c, input);
    assert forall k | 0 <= k < |faults| :: faults[k].code.IsFailure();
  }

  /** What a response reports about the charger, and whether it asks for a receipt. */
  lemma ReportsExactly(c: Context, input: Incoming)
    requires InTable(c)
    ensures var reply := Step(c, input).1;
            var unproven := && MustProve(c.payment, c.lastMsg) && input.req.AuthorizationReq?
                            && !(input.req.challengeOk && input.req.signed && input.req.signatureOk);
            && (input.req.AuthorizationReq? ==>
                  reply.processing == if unproven then Finished else c.evse.authProcessing)
            && (input.req.ChargeParameterDiscoveryReq? ==>
                  (reply.processing == Finished <==> c.evse.parameterProcessing == Finished)
                  && (reply.processing == Ongoing <==> c.evse.parameterProcessing != Finished))
            && (input.req.CableCheckReq? ==> reply.processing == c.evse.isolationProcessing)
            && (reply.processing != Finished ==>
                  input.req.AuthorizationReq? || input.req.ChargeParameterDiscoveryReq? || input.req.CableCheckReq?)
            && (reply.receipt <==>
                  && (input.req.CurrentDemandReq? || input.req.ChargingStatusReq?)
                  && c.payment == Contract && c.evse.receiptRequired)
  {
  }

  // ---------------------------------------------------------------------------
  // What else changes
  // ---------------------------------------------------------------------------

  /** The session identifier changes only when a SessionSetup does not join the session, and then to a fresh one. */
  lemma SessionIdExactly(c: Context, input: Incoming)
    requires InTable(c)
    ensures Step(c, input).0.sessionId ==
              if input.req.SessionSetupReq? && !Joins(c, input) then input.req.freshId else c.sessionId
    ensures Step(c, input).0.receivedId == input.receivedId
  {
  }

  /** A contract stays selected once it is, also if external payment is selected later. */
  lemma PaymentExactly(c: Context, input: Incoming)
    requires InTable(c)
    ensures Step(c, input).0.payment == Contract <==>
              c.payment == Contract || (input.req.PaymentServiceSelectionReq? && input.req.option == Contract)
  {
  }

  lemma PreparedEvse(c: Context, req: Request)
    ensures Prepared(c, req).evse == if TimesOut(req) then c.evse.(emergencyShutdown := true) else c.evse
    ensures Prepared(c, req).lastMsg == c.lastMsg && Prepared(c, req).isDc == c.isDc
  {
  }

  predicate Renegotiates(c: Context, req: Request) {
    c.isDc && req.PowerDeliveryReq? && req.progress == Renegotiate
    && (c.lastMsg == CurrentDemand || c.lastMsg == ChargingStatus)
  }

  predicate SelectsExternal(req: Request) {
    req.PaymentServiceSelectionReq? && req.option == ExternalPayment
  }

  lemma SettledEvse(c: Context, req: Request)
    ensures Settled(c, req).evse ==
              if SelectsExternal(req) then c.evse.(authProcessing := WaitingForCustomer)
              else if Renegotiates(c, req) then c.evse.(isolationProcessing := Ongoing)
              else c.evse
  {
  }

  lemma StepEvse(c: Context, input: Incoming)
    requires InTable(c)
    ensures Step(c, input).0.evse ==
              Settled(Prepared(Announced(c, input), input.req), input.req).evse
  {
  }

  /** Handlers change inputs of the charger in three places only. */
  lemma EvseExactly(c: Context, input: Incoming)
    requires InTable(c)
    ensures Step(c, input).0.evse ==
              if TimesOut(input.req) then c.evse.(emergencyShutdown := true)
              else if SelectsExternal(input.req) then c.evse.(authProcessing := WaitingForCustomer)
              else if Renegotiates(c, input.req) then c.evse.(isolationProcessing := Ongoing)
              else c.evse
  {
    var a := Announced(c, input);
    StepEvse(c, input);
    PreparedEvse(a, input.req);
    SettledEvse(Prepared(a, input.req), input.req);
  }

  /** After a SessionStop the server waits for a new session only if it was a pause in its place. */
  lemma StopLeaves(c: Context, input: Incoming)
    requires InTable(c) && input.req.SessionStopReq?
    ensures Step(c, input).0.state ==
              if input.req.session == PauseSession && (c.lastMsg == PowerDelivery || c.lastMsg == WeldingDetection)
              then SESSIONSETUP else DC_TERMINATED_SESSION
  {
  }
}
