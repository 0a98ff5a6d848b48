/**
 * Acceptance in ISO 15118-2 sessions told from the conversation alone: which requests may come next
 * follows from the last exchange that counts, without looking at the server's state.
 */
module IsoConversation {
  import opened Faults
  import opened V2g
  import opened IsoAnswers
  import opened IsoRestart
  import opened IsoSafety
  import opened IsoServer

  /** Exchanges that do not move the conversation on: ignored requests, and certificate updates. */
  predicate IsAside(req: Request) {
    req.UnsupportedReq? || req.CertificateUpdateReq?
  }

  /** What may follow a finished charging loop of this kind of charger. */
  function ChargingOn(isDc: bool): seq<Msg> {
    if isDc then [CurrentDemand, PowerDelivery] else [ChargingStatus, PowerDelivery]
  }

  function Ending(isDc: bool): seq<Msg> {
    if isDc then [WeldingDetection, SessionStop] else [SessionStop]
  }

  /** What may follow a PowerDelivery; one that is refused after validation counts as the end of charging. */
  function AfterPowerDelivery(progress: ChargeProgress, failed: bool, isDc: bool): seq<Msg> {
    if failed || progress == Stop then Ending(isDc)
    else if progress == Renegotiate then [ChargeParameterDiscovery, SessionStop]
    else if isDc then [CurrentDemand]
    else [ChargingStatus]
  }

  /** What may follow an exchange that moves the conversation on. */
  function Follow(e: Exchange, isDc: bool): seq<Msg> {
    match e.req
    case SessionSetupReq(_) => [ServiceDiscovery, SessionStop]
    case ServiceDiscoveryReq(_) => [ServiceDetail, PaymentServiceSelection, SessionStop]
    case ServiceDetailReq(_) => [ServiceDetail, PaymentServiceSelection, SessionStop]
    case PaymentServiceSelectionReq(Contract, _, _, _) =>
      if isDc then [PaymentDetails, Authorization, CertificateInstallation, CertificateUpdate, SessionStop]
      else [PaymentDetails, CertificateInstallation, CertificateUpdate, SessionStop]
    case PaymentServiceSelectionReq(ExternalPayment, _, _, _) => [Authorization, SessionStop]
    case PaymentDetailsReq(_) => [Authorization, SessionStop]
    case CertificateInstallationReq(_) => [PaymentDetails, SessionStop]
    case AuthorizationReq(_, _, _, _, _, _) =>
      if e.reply.processing == Finished then [ChargeParameterDiscovery, SessionStop] else [Authorization, SessionStop]
    case ChargeParameterDiscoveryReq(_, _) =>
      if e.reply.processing != Finished then [ChargeParameterDiscovery, SessionStop]
      else if isDc then [CableCheck, SessionStop]
      else [PowerDelivery, SessionStop]
    case CableCheckReq => if e.reply.processing == Finished then [PreCharge, SessionStop] else [CableCheck, SessionStop]
    case PreChargeReq => [PreCharge, PowerDelivery, SessionStop]
    case PowerDeliveryReq(progress, _, _) => AfterPowerDelivery(progress, e.reply.code.IsFailure(), isDc)
    case CurrentDemandReq => if e.reply.receipt then [MeteringReceipt] else ChargingOn(isDc)
    case ChargingStatusReq => if e.reply.receipt then [MeteringReceipt] else ChargingOn(isDc)
    case MeteringReceiptReq => ChargingOn(isDc)
    case WeldingDetectionReq => Ending(isDc)
    case _ => []
  }

  /** What may come next in a conversation. */
  function MayFollow(t: seq<Exchange>, isDc: bool): seq<Msg> {
    if t == [] then [SessionSetup]
    else if IsAside(t[|t| - 1].req) then MayFollow(t[..|t| - 1], isDc)
    else Follow(t[|t| - 1], isDc)
  }

  lemma OneMoreExchange(t: seq<Exchange>, e: Exchange, isDc: bool)
    ensures MayFollow(t + [e], isDc) == if IsAside(e.req) then MayFollow(t, isDc) else Follow(e, isDc)
  {
    assert (t + [e])[..|t|] == t;
  }

  lemma PowerDeliveryLeadsOn(c: Context, input: Incoming)
    requires InTable(c) && input.req.PowerDeliveryReq?
    ensures var (c', reply) := Step(c, input);
            Continues(reply.event) ==>
              c'.state < TableSize(c.isDc)
              && Row(c'.state, c.isDc) == AfterPowerDelivery(input.req.progress, reply.code.IsFailure(), c.isDc)
  {
  }

  /** Continuing requests of one kind of charger only are charging messages of that kind. */
  lemma RowsFollowCharging(c: Context, input: Incoming)
    requires InTable(c) && Id(TypeOf(input.req)) > 7 && !IsAside(input.req) && !input.req.PowerDeliveryReq?
    ensures var (c', reply) := Step(c, input);
            Continues(reply.event) ==>
              c'.state < TableSize(c.isDc)
              && Row(c'.state, c.isDc) == Follow(Exchange(input.req, reply, c.evse), c.isDc)
  {
    PassesTable(c, input);
  }

  lemma RowsFollowIdentification(c: Context, input: Incoming)
    requires InTable(c)
    requires input.req.SessionSetupReq? || input.req.ServiceDiscoveryReq? || input.req.ServiceDetailReq?
             || input.req.PaymentServiceSelectionReq?
    ensures var (c', reply) := Step(c, input);
            Continues(reply.event) ==>
              c'.state < TableSize(c.isDc)
              && Row(c'.state, c.isDc) == Follow(Exchange(input.req, reply, c.evse), c.isDc)
  {
  }

  lemma RowsFollowAuthorization(c: Context, input: Incoming)
    requires InTable(c)
    requires input.req.PaymentDetailsReq? || input.req.AuthorizationReq? || input.req.ChargeParameterDiscoveryReq?
    ensures var (c', reply) := Step(c, input);
            Continues(reply.event) ==>
              c'.state < TableSize(c.isDc)
              && Row(c'.state, c.isDc) == Follow(Exchange(input.req, reply, c.evse), c.isDc)
  {
  }

  /** The table row of the next state lists what may follow the exchange that leads there. */
  lemma RowsFollowExchanges(c: Context, input: Incoming)
    requires InTable(c) && !IsAside(input.req)
    ensures var (c', reply) := Step(c, input);
            Continues(reply.event) ==>
              c'.state < TableSize(c.isDc)
              && Row(c'.state, c.isDc) == Follow(Exchange(input.req, reply, c.evse), c.isDc)
  {
    if input.req.PowerDeliveryReq? {
      PowerDeliveryLeadsOn(c, input);
    } else if input.req.PaymentDetailsReq? || input.req.AuthorizationReq? || input.req.ChargeParameterDiscoveryReq? {
      RowsFollowAuthorization(c, input);
    } else if Id(TypeOf(input.req)) <= 7 {
      RowsFollowIdentification(c, input);
    } else {
      RowsFollowCharging(c, input);
    }
  }

  /** An open session's row lists exactly what may come next in its conversation. */
  predicate Told(s: Session)
    requires s.open ==> InTable(s.ctx)
  {
    s.open ==> Row(s.ctx.state, s.ctx.isDc) == MayFollow(s.trace, s.ctx.isDc)
  }

  lemma AsideStays(c: Context, input: Incoming)
    requires InTable(c) && IsAside(input.req)
    ensures Step(c, input).0.state == c.state && Step(c, input).0.isDc == c.isDc
  {
  }

  lemma ToldStep(s: Session, input: Incoming)
    requires IsoSafety.Inv(s) && s.open && Told(s)
    requires IsoSafety.Inv(Advance(s, Receive(input)))
    ensures Told(Advance(s, Receive(input)))
  {
    OneMoreExchange(s.trace, Exchange(input.req, Step(s.ctx, input).1, s.ctx.evse), s.ctx.isDc);
    StepRemembers(s.ctx, input);
    if IsAside(input.req) {
      AsideStays(s.ctx, input);
    } else {
      RowsFollowExchanges(s.ctx, input);
    }
  }

  lemma ToldAdvance(s: Session, a: Action)
    requires IsoSafety.Inv(s) && Told(s) && IsoSafety.Inv(Advance(s, a))
    ensures Told(Advance(s, a))
  {
    if a.Receive? && s.open {
      ToldStep(s, a.input);
    }
  }

  lemma ToldAtStart(c: Context)
    requires Initial(c)
    ensures Told(Session(c, true, []))
  {
  }

  lemma {:induction false} RunIsTold(c: Context, actions: seq<Action>)
    requires Initial(c)
    ensures Told(IsoSafety.Run(c, actions))
    decreases |actions|
  {
    if actions == [] {
      ToldAtStart(c);
    } else {
      var front, a := actions[..|actions| - 1], actions[|actions| - 1];
      assert front + [a] == actions;
      RunIsTold(c, front);
      RunOneMore(c, front, a);
      ToldAdvance(IsoSafety.Run(c, front), a);
    }
  }

  /** Requests that come too late or too early in the conversation for what they ask. */
  predicate Misplaced(t: seq<Exchange>, req: Request) {
    match req
    case PowerDeliveryReq(progress, _, _) =>
      progress != Stop && (progress == Renegotiate <==> !WasCharging(Remembered(t)))
    case SessionStopReq(session) =>
      session == PauseSession && Remembered(t) != PowerDelivery && Remembered(t) != WeldingDetection
    case _ => false
  }

  /** The request comes in turn, names the session, and nothing aborts it. */
  predicate InTurn(s: Session, input: Incoming) {
    && TypeOf(input.req) in MayFollow(s.trace, s.ctx.isDc)
    && (input.req.SessionSetupReq? || s.ctx.sessionId == input.receivedId)
    && !s.ctx.evse.connectionTerminated && !s.ctx.evse.stopHlc && !s.ctx.evse.emergencyShutdown
  }

  /** What a request has to meet besides its turn, by its kind. */
  predicate Meets(isDc: bool, payment: PaymentOption, evse: Evse, last: Msg, req: Request) {
    match req
    case ServiceDiscoveryReq(paymentOptionLeft) => paymentOptionLeft
    case ServiceDetailReq(serviceKnown) => serviceKnown
    case PaymentServiceSelectionReq(_, offered, servicesKnown, chargeService) =>
      offered && servicesKnown && chargeService
    case PaymentDetailsReq(chain) => payment == Contract && chain == ChainAccepted
    case AuthorizationReq(_, _, _, overdue, rejected, _) =>
      && (payment == Contract && last != Authorization ==> Proves(req))
      && (if evse.authProcessing == Finished then !rejected else !overdue)
    case ChargeParameterDiscoveryReq(modeSupported, wrongParameter) => modeSupported && !wrongParameter
    case PowerDeliveryReq(progress, tariffKnown, _) =>
      tariffKnown && progress != UnknownProgress && (progress == Start ==> MayStart(isDc, evse, req))
    case CertificateInstallationReq(installation) => installation != Refused && installation != TimedOut
    case _ => true
  }

  lemma MeetsMeansNoOwnFault(c: Context, input: Incoming)
    requires Validated(input.req)
    ensures OwnCode(Announced(c, input), input.req).IsFailure() <==>
              !Meets(c.isDc, c.payment, c.evse, c.lastMsg, input.req)
  {
    var faults := OwnFaults(c.isDc, c.payment, c.evse, c.lastMsg, input.req);
    OwnFaultIsNamed(c, input);
    NoFault(faults, Success(c, input), OwnCode(Announced(c, input), input.req));
    if k :| 0 <= k < |faults| && faults[k].holds {
      assert k == 0 || k == 1 || k == 2 || k == 3 || k == 4;
    }
  }

  /** What is told of an open session: its last message, its payment option and its row. */
  lemma RunIsRemembered(c: Context, actions: seq<Action>)
    requires Initial(c) && IsoSafety.Run(c, actions).open
    ensures var s := IsoSafety.Run(c, actions);
            && Told(s) && s.ctx.lastMsg == Remembered(s.trace) && s.ctx.payment == PaymentOf(c.payment, s.trace)
            && s.ctx.isDc == c.isDc
  {
    RunIsTold(c, actions);
    RunIsSound(c, actions);
  }

  /**
   * In every run: a request is accepted if and only if it is one that is answered without validation, or it
   * comes in turn, by the last exchange that counts, for the session and with nothing to abort, meets what its
   * kind has to meet, and does not come in the wrong place after the last message. Once the physical
   * connection is gone, only a SessionStop is still accepted, and in any turn.
   */
  lemma AcceptedExactlyInTurn(c: Context, actions: seq<Action>, input: Incoming)
    requires Initial(c) && IsoSafety.Run(c, actions).open && !input.req.UnsupportedReq?
    ensures var s := IsoSafety.Run(c, actions);
            Accepted(Step(s.ctx, input).1) <==>
              || !Validated(input.req)
              || (&& (InTurn(s, input) || (input.req.SessionStopReq? && s.ctx.evse.connectionTerminated))
                  && Meets(c.isDc, PaymentOf(c.payment, s.trace), s.ctx.evse, Remembered(s.trace), input.req)
                  && !Misplaced(s.trace, input.req))
  {
    var s := IsoSafety.Run(c, actions);
    RunIsRemembered(c, actions);
    AcceptedExactly(s.ctx, input);
    if Validated(input.req) {
      MeetsMeansNoOwnFault(s.ctx, input);
    }
  }

  /** The faults of a request in a session, told from the conversation. */
  function FaultsTold(initial: PaymentOption, s: Session, input: Incoming): seq<Objection> {
    var evse, last := s.ctx.evse, Remembered(s.trace);
    PlaceFaults(last, input.req)
    + (if evse.connectionTerminated then []
       else
         [Objection(!input.req.SessionSetupReq? && s.ctx.sessionId != input.receivedId, FAILED_UnknownSession),
          Objection(TypeOf(input.req) !in MayFollow(s.trace, s.ctx.isDc), FAILED_SequenceError),
          Objection(evse.stopHlc || evse.emergencyShutdown || TimesOut(input.req), FAILED)])
    + OwnFaults(s.ctx.isDc, PaymentOf(initial, s.trace), evse, last, input.req)
  }

  /**
   * In every run, a validated request is answered with the code of the first of its faults: its place after
   * the last message; the session it names, its turn by the last exchange that counts, and an abort; and
   * what its handler looks for. Without a fault the code is OK, or tells a new session from a joined one.
   */
  lemma AnsweredExactly(c: Context, actions: seq<Action>, input: Incoming)
    requires Initial(c) && IsoSafety.Run(c, actions).open && Validated(input.req)
    ensures var s := IsoSafety.Run(c, actions);
            Names(FaultsTold(c.payment, s, input), Success(s.ctx, input), Step(s.ctx, input).1.code)
  {
    var s := IsoSafety.Run(c, actions);
    RunIsRemembered(c, actions);
    FaultIsNamed(s.ctx, input);
    assert FaultsTold(c.payment, s, input) == AllFaults(s.ctx, input);
  }

  /**
   * In every run, an AuthorizationReq is accepted as finished if and only if it comes in turn, the charger's
   * authorisation is finished, it is not rejected, and a contract is proven by it or by the one before.
   */
  lemma AuthorizedExactly(c: Context, actions: seq<Action>, input: Incoming)
    requires Initial(c) && IsoSafety.Run(c, actions).open && input.req.AuthorizationReq?
    ensures var s := IsoSafety.Run(c, actions);
            var reply := Step(s.ctx, input).1;
            Accepted(reply) && reply.processing == Finished <==>
              && InTurn(s, input) && s.ctx.evse.authProcessing == Finished && !input.req.rejected
              && (PaymentOf(c.payment, s.trace) == Contract && Remembered(s.trace) != Authorization ==>
                    Proves(input.req))
  {
    var s := IsoSafety.Run(c, actions);
    AcceptedExactlyInTurn(c, actions, input);
    RunIsRemembered(c, actions);
    ReportsExactly(s.ctx, input);
  }
}
