/**
 * The ISO 15118-2 server: sequencing tables, validation of state and response code,
 * and every request handler. `Step` specifies one handled request on a value of the
 * session context; the class `Server` performs it on fields, in the source's order.
 */
module IsoServer {
  import opened V2g
  import opened Wrappers

  datatype PaymentOption = Contract | ExternalPayment

  datatype ChargeProgress = Start | Stop | Renegotiate | UnknownProgress

  datatype ChargingSession = TerminateSession | PauseSession | OtherSession

  /** Result of checking the contract certificate chain of a PaymentDetailsReq. */
  datatype ChainCheck = ChainAccepted | ChainError | ChainExpired | ChainRevoked | ChainUnavailable

  /** How the attempt to obtain a CertificateInstallationRes ended. */
  datatype Installation = PublishFailed | Installed | DecodeFailed | Refused | TimedOut

  /** The parts of a request, and of the checks made on it, that a handler branches on. */
  datatype Request =
    | SessionSetupReq(freshId: nat)
    | ServiceDiscoveryReq(paymentOptionLeft: bool)
    | ServiceDetailReq(serviceKnown: bool)
    | PaymentServiceSelectionReq(option: PaymentOption, offered: bool, servicesKnown: bool, chargeService: bool)
    | PaymentDetailsReq(chain: ChainCheck)
    | AuthorizationReq(challengeOk: bool, signed: bool, signatureOk: bool, overdue: bool, rejected: bool, revoked: bool)
    | ChargeParameterDiscoveryReq(modeSupported: bool, wrongParameter: bool)
    | PowerDeliveryReq(progress: ChargeProgress, tariffKnown: bool, contactorOverdue: bool)
    | ChargingStatusReq
    | MeteringReceiptReq
    | CertificateUpdateReq
    | CertificateInstallationReq(installation: Installation)
    | CableCheckReq
    | PreChargeReq
    | CurrentDemandReq
    | WeldingDetectionReq
    | SessionStopReq(session: ChargingSession)
    | UnsupportedReq

  function TypeOf(req: Request): Msg {
    match req
    case SessionSetupReq(_) => SessionSetup
    case ServiceDiscoveryReq(_) => ServiceDiscovery
    case ServiceDetailReq(_) => ServiceDetail
    case PaymentServiceSelectionReq(_, _, _, _) => PaymentServiceSelection
    case PaymentDetailsReq(_) => PaymentDetails
    case AuthorizationReq(_, _, _, _, _, _) => Authorization
    case ChargeParameterDiscoveryReq(_, _) => ChargeParameterDiscovery
    case PowerDeliveryReq(_, _, _) => PowerDelivery
    case ChargingStatusReq => ChargingStatus
    case MeteringReceiptReq => MeteringReceipt
    case CertificateUpdateReq => CertificateUpdate
    case CertificateInstallationReq(_) => CertificateInstallation
    case CableCheckReq => CableCheck
    case PreChargeReq => PreCharge
    case CurrentDemandReq => CurrentDemand
    case WeldingDetectionReq => WeldingDetection
    case SessionStopReq(_) => SessionStop
    case UnsupportedReq => UnknownMsg
  }

  /** A decoded request together with the session identifier of its header. */
  datatype Incoming = Incoming(receivedId: nat, req: Request)

  /** EVSE-side inputs that other threads may change between two requests. */
  datatype Evse = Evse(
    stopHlc: bool,
    emergencyShutdown: bool,
    connectionTerminated: bool,
    authProcessing: Processing,
    parameterProcessing: Processing,
    isolationProcessing: Processing,
    chargeStatusReady: bool,
    receiptRequired: bool,
    contactorClosed: bool)

  datatype Context = Context(
    isDc: bool,
    state: nat,
    lastMsg: Msg,
    currentMsg: Msg,
    sessionId: nat,
    receivedId: nat,
    payment: PaymentOption,
    evse: Evse)

  /** An answer; `receipt` is whether it asks for a metering receipt. */
  datatype Reply = Reply(event: V2gEvent, code: ResponseCode, processing: Processing, receipt: bool := false)

  // ---------------------------------------------------------------------------
  // State identifiers; the AC and the DC enumeration agree up to 6
  // ---------------------------------------------------------------------------

  const SESSIONSETUP := 0
  const SERVICEDISCOVERY := 1
  const SVCDETAIL_PAYMENTSVCSEL := 2
  const PAYMENTDETAILS_CERTINST_CERTUPD := 3
  const PAYMENTDETAILS := 4
  const AUTHORIZATION := 5
  const CHARGEPARAMETERDISCOVERY := 6

  const DC_CABLECHECK := 7
  const DC_PRECHARGE := 8
  const DC_PRECHARGE_POWERDELIVERY := 9
  const DC_CURRENTDEMAND_POWERDELIVERY := 10
  const DC_CURRENTDEMAND := 11
  const DC_METERINGRECEIPT := 12
  const DC_WELDINGDETECTION_SESSIONSTOP := 13
  const DC_TERMINATED_SESSION := 14

  const AC_POWERDELIVERY := 7
  const AC_CHARGINGSTATUS := 8
  const AC_CHARGINGSTATUS_POWERDELIVERY := 9
  const AC_METERINGRECEIPT := 10
  const AC_SESSIONSTOP := 11
  const AC_TERMINATED_SESSION := 12

  /** Number of rows of the table that is selected by the kind of charger. */
  function TableSize(isDc: bool): nat {
    1 + if isDc then DC_TERMINATED_SESSION else AC_TERMINATED_SESSION
  }

  function DcRow(state: nat): seq<Msg>
    requires state < TableSize(true)
  {
    if state == SESSIONSETUP then [SessionSetup]
    else if state == SERVICEDISCOVERY then [ServiceDiscovery, SessionStop]
    else if state == SVCDETAIL_PAYMENTSVCSEL then [ServiceDetail, PaymentServiceSelection, SessionStop]
    else if state == PAYMENTDETAILS_CERTINST_CERTUPD then
      [PaymentDetails, Authorization, CertificateInstallation, CertificateUpdate, SessionStop]
    else if state == PAYMENTDETAILS then [PaymentDetails, SessionStop]
    else if state == AUTHORIZATION then [Authorization, SessionStop]
    else if state == CHARGEPARAMETERDISCOVERY then [ChargeParameterDiscovery, SessionStop]
    else if state == DC_CABLECHECK then [CableCheck, SessionStop]
    else if state == DC_PRECHARGE then [PreCharge, SessionStop]
    else if state == DC_PRECHARGE_POWERDELIVERY then [PreCharge, PowerDelivery, SessionStop]
    else if state == DC_CURRENTDEMAND_POWERDELIVERY then [CurrentDemand, PowerDelivery]
    else if state == DC_CURRENTDEMAND then [CurrentDemand]
    else if state == DC_METERINGRECEIPT then [MeteringReceipt]
    else if state == DC_WELDINGDETECTION_SESSIONSTOP then [WeldingDetection, SessionStop]
    else []
  }

  function AcRow(state: nat): seq<Msg>
    requires state < TableSize(false)
  {
    if state == SESSIONSETUP then [SessionSetup]
    else if state == SERVICEDISCOVERY then [ServiceDiscovery, SessionStop]
    else if state == SVCDETAIL_PAYMENTSVCSEL then [ServiceDetail, PaymentServiceSelection, SessionStop]
    else if state == PAYMENTDETAILS_CERTINST_CERTUPD then
      [PaymentDetails, CertificateInstallation, CertificateUpdate, SessionStop]
    else if state == PAYMENTDETAILS then [PaymentDetails, SessionStop]
    else if state == AUTHORIZATION then [Authorization, SessionStop]
    else if state == CHARGEPARAMETERDISCOVERY then [ChargeParameterDiscovery, SessionStop]
    else if state == AC_POWERDELIVERY then [PowerDelivery, SessionStop]
    else if state == AC_CHARGINGSTATUS then [ChargingStatus]
    else if state == AC_CHARGINGSTATUS_POWERDELIVERY then [ChargingStatus, PowerDelivery]
    else if state == AC_METERINGRECEIPT then [MeteringReceipt]
    else if state == AC_SESSIONSTOP then [SessionStop]
    else []
  }

  function Row(state: nat, isDc: bool): seq<Msg>
    requires state < TableSize(isDc)
  {
    if isDc then DcRow(state) else AcRow(state)
  }

  /** Sequence check: looks the message's bit up in the mask of the state's row. */
  function ValidateState(state: nat, msg: Msg, isDc: bool): (code: ResponseCode)
    requires state < TableSize(isDc)
    ensures code == OK <==> msg in Row(state, isDc)
    ensures code != OK ==> code == FAILED_SequenceError
  {
    MaskTestsMembership(Row(state, isDc), msg);
    if MaskOf(Row(state, isDc)) & Bit(Id(msg)) != 0 then OK else FAILED_SequenceError
  }

  // ---------------------------------------------------------------------------
  // Specification of one handled request
  // ---------------------------------------------------------------------------

  /** The table index is in range. */
  predicate InTable(c: Context) {
    c.state < TableSize(c.isDc)
  }

  predicate ForeignSession(c: Context) {
    c.currentMsg != SessionSetup && c.sessionId != c.receivedId
  }

  predicate Aborting(c: Context) {
    c.evse.stopHlc || c.evse.emergencyShutdown
  }

  /** The code that leaves validation: an unknown session hides a sequence error, which hides an abort. */
  function ValidatedCode(c: Context, own: ResponseCode): ResponseCode
    requires InTable(c)
  {
    if c.evse.connectionTerminated then own
    else if ForeignSession(c) then FAILED_UnknownSession
    else if c.currentMsg !in Row(c.state, c.isDc) then FAILED_SequenceError
    else if Aborting(c) then FAILED
    else own
  }

  function ValidatedEvent(c: Context, own: ResponseCode): V2gEvent
    requires InTable(c)
  {
    if c.evse.connectionTerminated then TerminateConnection
    else if ValidatedCode(c, own).IsFailure() then SendAndTerminate
    else NoEvent
  }

  /** First error that the EV's proof of a contract runs into, if any. */
  function ChallengeFault(c: Context, req: Request): Option<ResponseCode>
    requires req.AuthorizationReq?
  {
    if c.lastMsg == Authorization || c.payment != Contract then None
    else if !req.challengeOk then Some(FAILED_ChallengeInvalid)
    else if !req.signed || !req.signatureOk then Some(FAILED_SignatureError)
    else None
  }

  function AuthorizationCode(c: Context, req: Request): ResponseCode
    requires req.AuthorizationReq?
  {
    match ChallengeFault(c, req)
    case Some(code) => code
    case None =>
      if c.evse.authProcessing != Finished then (if req.overdue then FAILED else OK)
      else if !req.rejected then OK
      else if req.revoked then FAILED_CertificateRevoked
      else FAILED
  }

  function PowerDeliveryCode(c: Context, req: Request): ResponseCode
    requires req.PowerDeliveryReq?
  {
    if !req.tariffKnown then FAILED_TariffSelectionInvalid
    else if c.isDc && req.progress == Start && (c.evse.emergencyShutdown || !c.evse.chargeStatusReady) then
      FAILED_PowerDeliveryNotApplied
    else if !c.isDc && req.progress == Start && !c.evse.contactorClosed && req.contactorOverdue then
      FAILED_ContactorError
    else if req.progress == UnknownProgress then FAILED
    else OK
  }

  /** The code a handler arrives at by its own checks, before validation. */
  function OwnCode(c: Context, req: Request): ResponseCode {
    match req
    case SessionSetupReq(_) =>
      if c.sessionId != 0 && c.sessionId == c.receivedId then OK_OldSessionJoined else OK_NewSessionEstablished
    case ServiceDiscoveryReq(left) => if left then OK else FAILED
    case ServiceDetailReq(known) => if known then OK else FAILED_ServiceIDInvalid
    case PaymentServiceSelectionReq(_, offered, known, charge) =>
      if !charge then FAILED_NoChargeServiceSelected
      else if !known then FAILED_ServiceSelectionInvalid
      else if !offered then FAILED_PaymentSelectionInvalid
      else OK
    case PaymentDetailsReq(chain) =>
      if c.payment != Contract then FAILED
      else (match chain
        case ChainAccepted => OK
        case ChainError => FAILED_CertChainError
        case ChainExpired => FAILED_CertificateExpired
        case ChainRevoked => FAILED_CertificateRevoked
        case ChainUnavailable => FAILED_NoCertificateAvailable)
    case AuthorizationReq(_, _, _, _, _, _) => AuthorizationCode(c, req)
    case ChargeParameterDiscoveryReq(supported, wrong) =>
      if wrong then FAILED_WrongChargeParameter
      else if !supported then FAILED_WrongEnergyTransfer
      else OK
    case PowerDeliveryReq(_, _, _) => PowerDeliveryCode(c, req)
    case CertificateInstallationReq(how) => if how == Refused || how == TimedOut then FAILED else OK
    case _ => OK
  }

  /** Processing reported by the response; a response that never sets it reports zero, that is Finished. */
  function ReportedProcessing(c: Context, req: Request): Processing {
    match req
    case AuthorizationReq(_, _, _, _, _, _) =>
      if ChallengeFault(c, req).Some? then Finished else c.evse.authProcessing
    case ChargeParameterDiscoveryReq(_, _) =>
      if c.evse.parameterProcessing == Finished then Finished else Ongoing
    case CableCheckReq => c.evse.isolationProcessing
    case _ => Finished
  }

  /** Whether the response asks for a metering receipt. */
  predicate AsksForReceipt(c: Context, req: Request) {
    (req.CurrentDemandReq? || req.ChargingStatusReq?) && c.payment == Contract && c.evse.receiptRequired
  }

  predicate WasCharging(m: Msg) {
    m == CurrentDemand || m == ChargingStatus
  }

  /** The state a handler expects next; it is set whether or not the response failed. */
  function NextState(c: Context, req: Request): nat {
    match req
    case SessionSetupReq(_) => SERVICEDISCOVERY
    case ServiceDiscoveryReq(_) => SVCDETAIL_PAYMENTSVCSEL
    case ServiceDetailReq(_) => SVCDETAIL_PAYMENTSVCSEL
    case PaymentServiceSelectionReq(option, _, _, _) =>
      if option == Contract then PAYMENTDETAILS_CERTINST_CERTUPD else AUTHORIZATION
    case PaymentDetailsReq(_) => AUTHORIZATION
    case AuthorizationReq(_, _, _, _, _, _) =>
      if ReportedProcessing(c, req) == Finished then CHARGEPARAMETERDISCOVERY else AUTHORIZATION
    case ChargeParameterDiscoveryReq(_, _) =>
      if ReportedProcessing(c, req) != Finished then CHARGEPARAMETERDISCOVERY
      else if c.isDc then DC_CABLECHECK
      else AC_POWERDELIVERY
    case PowerDeliveryReq(progress, _, _) =>
      if progress == Renegotiate && WasCharging(c.lastMsg) then CHARGEPARAMETERDISCOVERY
      else if progress == Start && !WasCharging(c.lastMsg) then
        (if c.isDc then DC_CURRENTDEMAND else AC_CHARGINGSTATUS)
      else if c.isDc then DC_WELDINGDETECTION_SESSIONSTOP
      else AC_SESSIONSTOP
    case ChargingStatusReq =>
      if AsksForReceipt(c, req) then AC_METERINGRECEIPT
      else AC_CHARGINGSTATUS_POWERDELIVERY
    case MeteringReceiptReq =>
      if c.isDc then DC_CURRENTDEMAND_POWERDELIVERY else AC_CHARGINGSTATUS_POWERDELIVERY
    case CertificateUpdateReq => c.state
    case CertificateInstallationReq(_) => PAYMENTDETAILS
    case CableCheckReq => if c.evse.isolationProcessing == Finished then DC_PRECHARGE else DC_CABLECHECK
    case PreChargeReq => DC_PRECHARGE_POWERDELIVERY
    case CurrentDemandReq =>
      if AsksForReceipt(c, req) then DC_METERINGRECEIPT
      else DC_CURRENTDEMAND_POWERDELIVERY
    case WeldingDetectionReq => DC_WELDINGDETECTION_SESSIONSTOP
    case SessionStopReq(session) =>
      if session == PauseSession && (c.lastMsg == PowerDelivery || c.lastMsg == WeldingDetection) then SESSIONSETUP
      else DC_TERMINATED_SESSION
    case UnsupportedReq => c.state
  }

  /** Failures that a handler reports only after validation, so that they do not end the session by themselves. */
  predicate LateFailure(c: Context, req: Request) {
    match req
    case PowerDeliveryReq(progress, _, _) =>
      !(progress == Renegotiate && WasCharging(c.lastMsg)) &&
      !(progress == Start && !WasCharging(c.lastMsg)) &&
      progress != Stop
    case SessionStopReq(session) =>
      session == PauseSession && c.lastMsg != PowerDelivery && c.lastMsg != WeldingDetection
    case _ => false
  }

  /** Context at the moment of validation: only what handlers write before they validate. */
  function Prepared(c: Context, req: Request): Context {
    match req
    case SessionSetupReq(freshId) =>
      c.(sessionId := if c.sessionId != 0 && c.sessionId == c.receivedId then c.sessionId else freshId)
    case CertificateInstallationReq(TimedOut) => c.(evse := c.evse.(emergencyShutdown := true))
    case _ => c
  }

  /** What a handler writes besides the state, after validation. */
  function Settled(c: Context, req: Request): Context {
    match req
    case PaymentServiceSelectionReq(Contract, _, _, _) => c.(payment := Contract)
    case PaymentServiceSelectionReq(ExternalPayment, _, _, _) =>
      c.(evse := c.evse.(authProcessing := WaitingForCustomer))
    case PowerDeliveryReq(Renegotiate, _, _) =>
      if c.isDc && WasCharging(c.lastMsg) then c.(evse := c.evse.(isolationProcessing := Ongoing)) else c
    case _ => c
  }

  /** Requests that are answered without any validation. */
  predicate Unvalidated(req: Request) {
    req.CertificateUpdateReq? || req == CertificateInstallationReq(Installed)
  }

  function ReplyTo(c: Context, req: Request): Reply
    requires InTable(c)
  {
    if req.UnsupportedReq? then Reply(IgnoreMsg, OK, Finished)
    else if req.CertificateUpdateReq? then Reply(NoEvent, OK, Finished)
    else if Unvalidated(req) then Reply(SendRecvExiMsg, OK, Finished)
    else
      var p := Prepared(c, req);
      var own := OwnCode(c, req);
      var code := if LateFailure(c, req) then FAILED else ValidatedCode(p, own);
      var event := if req.SessionStopReq? then SendAndTerminate else ValidatedEvent(p, own);
      Reply(event, code, ReportedProcessing(c, req), AsksForReceipt(c, req))
  }

  /** The request is announced, handled, and remembered as the last message unless it was ignored. */
  function Announced(c: Context, input: Incoming): Context {
    var msg := TypeOf(input.req);
    c.(receivedId := input.receivedId, currentMsg := if msg == UnknownMsg then c.currentMsg else msg)
  }

  function Handled(c: Context, req: Request): Context {
    Settled(Prepared(c, req), req).(state := NextState(c, req))
  }

  function Step(c: Context, input: Incoming): (result: (Context, Reply))
    requires InTable(c)
  {
    var a := Announced(c, input);
    var reply := ReplyTo(a, input.req);
    var h := Handled(a, input.req);
    (if reply.event == IgnoreMsg then h else h.(lastMsg := h.currentMsg), reply)
  }

  predicate Accepted(reply: Reply) {
    Sends(reply.event) && !reply.code.IsFailure()
  }

  /** Validation itself does not object: the session is known, the row lists the request, and nothing aborts. */
  predicate Validates(c: Context, input: Incoming)
    requires InTable(c)
  {
    && !c.evse.connectionTerminated && !c.evse.stopHlc && !c.evse.emergencyShutdown
    && (input.req.SessionSetupReq? || c.sessionId == input.receivedId)
    && TypeOf(input.req) in Row(c.state, c.isDc)
  }

  /**
   * Exactly when a request is answered below FAILED: it is not ignored; unless it is answered without
   * validation, validation does not object, and neither the handler's own checks nor its late
   * ones do. Once the physical connection is gone, only a SessionStop is still answered.
   */
  lemma AcceptedExactly(c: Context, input: Incoming)
    requires InTable(c)
    ensures Accepted(Step(c, input).1) <==>
              var a := Announced(c, input);
              && !input.req.UnsupportedReq?
              && (Unvalidated(input.req)
                  || (&& (Validates(c, input) || (input.req.SessionStopReq? && c.evse.connectionTerminated))
                      && !OwnCode(a, input.req).IsFailure()
                      && !LateFailure(a, input.req)))
  {
    var a := Announced(c, input);
    var p := Prepared(a, input.req);
    assert p.state == c.state && p.isDc == c.isDc;
    assert !input.req.UnsupportedReq? ==> p.currentMsg == TypeOf(input.req);
  }

  /** A failed answer ends the session, except for the one PowerDelivery failure that is raised after validation. */
  lemma FailureEndsSession(c: Context, input: Incoming)
    requires InTable(c)
    ensures var r := Step(c, input).1;
            Continues(r.event) && r.code.IsFailure() ==>
              input.req.PowerDeliveryReq? && input.req.progress != Stop && LateFailure(Announced(c, input), input.req)
  {
  }

  // ---------------------------------------------------------------------------
  // The server object
  // ---------------------------------------------------------------------------

  class Server {
    const isDc: bool
    var state: nat
    var lastMsg: Msg
    var currentMsg: Msg
    var sessionId: nat
    var receivedId: nat
    var payment: PaymentOption
    var evse: Evse

    function Ctx(): Context
      reads this
    {
      Context(isDc, state, lastMsg, currentMsg, sessionId, receivedId, payment, evse)
    }

    constructor (isDc: bool, sessionId: nat, evse: Evse)
      ensures Ctx() == Context(isDc, SESSIONSETUP, UnknownMsg, UnknownMsg, sessionId, 0, ExternalPayment, evse)
    {
      this.isDc := isDc;
      this.sessionId := sessionId;
      this.evse := evse;
      state, lastMsg, currentMsg := SESSIONSETUP, UnknownMsg, UnknownMsg;
      receivedId, payment := 0, ExternalPayment;
    }

    method ValidateResponseCode(own: ResponseCode) returns (event: V2gEvent, code: ResponseCode)
      requires InTable(Ctx())
      ensures event == ValidatedEvent(Ctx(), own) && code == ValidatedCode(Ctx(), own)
    {
      event, code := NoEvent, own;
      if evse.connectionTerminated {
        return TerminateConnection, code;
      }
      if evse.stopHlc || evse.emergencyShutdown {
        code := FAILED;
      }
      var sequence := ValidateState(state, currentMsg, isDc);
      if sequence.IsFailure() {
        code := sequence;
      }
      if currentMsg != SessionSetup && sessionId != receivedId {
        code := FAILED_UnknownSession;
      }
      if code.IsFailure() {
        event := SendAndTerminate;
      }
    }

    /** Handlers whose response code and next state do not depend on further session data. */
    method Answer(own: ResponseCode, processing: Processing, next: nat, receipt: bool := false) returns (reply: Reply)
      requires InTable(Ctx())
      modifies this`state
      ensures Ctx() == old(Ctx()).(state := next)
      ensures reply == Reply(ValidatedEvent(old(Ctx()), own), ValidatedCode(old(Ctx()), own), processing, receipt)
    {
      var event, code := ValidateResponseCode(own);
      state := next;
      reply := Reply(event, code, processing, receipt);
    }

    method HandleSessionSetup(freshId: nat) returns (reply: Reply)
      requires InTable(Ctx())
      modifies this
      ensures Ctx() == Handled(old(Ctx()), SessionSetupReq(freshId))
      ensures reply == ReplyTo(old(Ctx()), SessionSetupReq(freshId))
    {
      var code := OK_NewSessionEstablished;
      if sessionId == 0 || sessionId != receivedId {
        sessionId := freshId;
      } else {
        code := OK_OldSessionJoined;
      }
      reply := Answer(code, Finished, SERVICEDISCOVERY);
    }

    method HandlePaymentServiceSelection(option: PaymentOption, offered: bool, known: bool, charge: bool)
      returns (reply: Reply)
      requires InTable(Ctx())
      modifies this
      ensures Ctx() == Handled(old(Ctx()), PaymentServiceSelectionReq(option, offered, known, charge))
      ensures reply == ReplyTo(old(Ctx()), PaymentServiceSelectionReq(option, offered, known, charge))
    {
      var code := OK;
      if !offered { code := FAILED_PaymentSelectionInvalid; }
      if !known { code := FAILED_ServiceSelectionInvalid; }
      if !charge { code := FAILED_NoChargeServiceSelected; }
      var event;
      event, code := ValidateResponseCode(code);
      if option == Contract {
        payment := Contract;
        state := PAYMENTDETAILS_CERTINST_CERTUPD;
      } else {
        evse := evse.(authProcessing := WaitingForCustomer);
        state := AUTHORIZATION;
      }
      reply := Reply(event, code, Finished);
    }

    method HandlePaymentDetails(chain: ChainCheck) returns (reply: Reply)
      requires InTable(Ctx())
      modifies this
      ensures Ctx() == Handled(old(Ctx()), PaymentDetailsReq(chain))
      ensures reply == ReplyTo(old(Ctx()), PaymentDetailsReq(chain))
    {
      var code := OK;
      if payment == Contract {
        match chain {
          case ChainAccepted =>
          case ChainExpired => code := FAILED_CertificateExpired;
          case ChainRevoked => code := FAILED_CertificateRevoked;
          case ChainUnavailable => code := FAILED_NoCertificateAvailable;
          case ChainError => code := FAILED_CertChainError;
        }
      } else {
        code := FAILED;
      }
      reply := Answer(code, Finished, AUTHORIZATION);
    }

    method HandleAuthorization(req: Request) returns (reply: Reply)
      requires InTable(Ctx()) && req.AuthorizationReq?
      modifies this
      ensures Ctx() == Handled(old(Ctx()), req)
      ensures reply == ReplyTo(old(Ctx()), req)
      ensures !reply.code.IsFailure() && reply.processing == Finished ==>
                && old(evse).authProcessing == Finished && !req.rejected
                && (old(payment) == Contract && old(lastMsg) != Authorization ==>
                      req.challengeOk && req.signed && req.signatureOk)
    {
      var code := OK;
      var processing := Finished; // the zeroed response
      if lastMsg != Authorization && payment == Contract && !req.challengeOk {
        code := FAILED_ChallengeInvalid;
      } else if lastMsg != Authorization && payment == Contract && !(req.signed && req.signatureOk) {
        code := FAILED_SignatureError;
      } else {
        processing := evse.authProcessing;
        if processing != Finished {
          if req.overdue {
            code := FAILED;
          }
        } else if req.rejected {
          code := if req.revoked then FAILED_CertificateRevoked else FAILED;
        }
      }
      reply := Answer(code, processing,
                      if processing == Finished then CHARGEPARAMETERDISCOVERY else AUTHORIZATION);
    }

    method HandleChargeParameterDiscovery(supported: bool, wrongParameter: bool) returns (reply: Reply)
      requires InTable(Ctx())
      modifies this
      ensures Ctx() == Handled(old(Ctx()), ChargeParameterDiscoveryReq(supported, wrongParameter))
      ensures reply == ReplyTo(old(Ctx()), ChargeParameterDiscoveryReq(supported, wrongParameter))
    {
      var code := FAILED_WrongEnergyTransfer;
      if supported {
        code := OK;
      }
      var processing := evse.parameterProcessing;
      if processing != Finished {
        processing := Ongoing;
      }
      if wrongParameter {
        code := FAILED_WrongChargeParameter;
      }
      var next := CHARGEPARAMETERDISCOVERY;
      if processing == Finished {
        next := if isDc then DC_CABLECHECK else AC_POWERDELIVERY;
      }
      reply := Answer(code, processing, next);
    }

    method HandlePowerDelivery(progress: ChargeProgress, tariffKnown: bool, contactorOverdue: bool)
      returns (reply: Reply)
      requires InTable(Ctx())
      modifies this
      ensures Ctx() == Handled(old(Ctx()), PowerDeliveryReq(progress, tariffKnown, contactorOverdue))
      ensures reply == ReplyTo(old(Ctx()), PowerDeliveryReq(progress, tariffKnown, contactorOverdue))
    {
      var code := OK;
      match progress {
        case Start =>
          if !isDc && !evse.contactorClosed && contactorOverdue {
            code := FAILED_ContactorError;
          }
        case Stop =>
        case Renegotiate =>
        case UnknownProgress => code := FAILED;
      }
      if isDc && progress == Start && (evse.emergencyShutdown || !evse.chargeStatusReady) {
        code := FAILED_PowerDeliveryNotApplied;
      }
      if !tariffKnown {
        code := FAILED_TariffSelectionInvalid;
      }
      var event;
      event, code := ValidateResponseCode(code);
      if progress == Renegotiate && (lastMsg == CurrentDemand || lastMsg == ChargingStatus) {
        state := CHARGEPARAMETERDISCOVERY;
        if isDc {
          evse := evse.(isolationProcessing := Ongoing);
        }
      } else if progress == Start && lastMsg != CurrentDemand && lastMsg != ChargingStatus {
        state := if isDc then DC_CURRENTDEMAND else AC_CHARGINGSTATUS;
      } else {
        if progress != Stop {
          code := FAILED;
        }
        state := if isDc then DC_WELDINGDETECTION_SESSIONSTOP else AC_SESSIONSTOP;
      }
      reply := Reply(event, code, Finished);
    }

    method HandleChargingStatus() returns (reply: Reply)
      requires InTable(Ctx())
      modifies this
      ensures Ctx() == Handled(old(Ctx()), ChargingStatusReq)
      ensures reply == ReplyTo(old(Ctx()), ChargingStatusReq)
    {
      var receipt := false;
      if payment == Contract {
        receipt := evse.receiptRequired;
      }
      reply := Answer(OK, Finished, if receipt then AC_METERINGRECEIPT else AC_CHARGINGSTATUS_POWERDELIVERY, receipt);
    }

    method HandleCertificateInstallation(how: Installation) returns (reply: Reply)
      requires InTable(Ctx())
      modifies this
      ensures Ctx() == Handled(old(Ctx()), CertificateInstallationReq(how))
      ensures reply == ReplyTo(old(Ctx()), CertificateInstallationReq(how))
    {
      var event, code := SendAndTerminate, OK;
      if how != PublishFailed {
        if how == TimedOut {
          evse := evse.(emergencyShutdown := true);
        }
        if how == Installed {
          event := SendRecvExiMsg;
        } else if how != DecodeFailed {
          code := FAILED;
        }
      }
      if event != SendRecvExiMsg {
        event, code := ValidateResponseCode(code);
      }
      state := PAYMENTDETAILS;
      reply := Reply(event, code, Finished);
    }

    method HandleCurrentDemand() returns (reply: Reply)
      requires InTable(Ctx())
      modifies this
      ensures Ctx() == Handled(old(Ctx()), CurrentDemandReq)
      ensures reply == ReplyTo(old(Ctx()), CurrentDemandReq)
    {
      var receiptRequired := evse.receiptRequired;
      var receiptIsUsed := if payment == Contract then receiptRequired else false;
      reply := Answer(OK, Finished, if receiptIsUsed && receiptRequired then DC_METERINGRECEIPT
                                    else DC_CURRENTDEMAND_POWERDELIVERY,
                      receiptIsUsed && receiptRequired);
    }

    method HandleSessionStop(session: ChargingSession) returns (reply: Reply)
      requires InTable(Ctx())
      modifies this
      ensures Ctx() == Handled(old(Ctx()), SessionStopReq(session))
      ensures reply == ReplyTo(old(Ctx()), SessionStopReq(session))
    {
      var _, code := ValidateResponseCode(OK);
      match session {
        case TerminateSession => state := DC_TERMINATED_SESSION;
        case PauseSession =>
          if lastMsg != PowerDelivery && lastMsg != WeldingDetection {
            code := FAILED;
            state := DC_TERMINATED_SESSION;
          } else {
            state := SESSIONSETUP;
          }
        case OtherSession => state := DC_TERMINATED_SESSION;
      }
      reply := Reply(SendAndTerminate, code, Finished);
    }

    /** Requests of the set-up phase, up to ChargeParameterDiscovery. */
    method HandleSetupRequest(req: Request) returns (reply: Reply)
      requires InTable(Ctx()) && Id(TypeOf(req)) <= 7
      modifies this
      ensures Ctx() == Handled(old(Ctx()), req) && reply == ReplyTo(old(Ctx()), req)
    {
      match req {
        case SessionSetupReq(freshId) => reply := HandleSessionSetup(freshId);
        case ServiceDiscoveryReq(left) =>
          reply := Answer(if left then OK else FAILED, Finished, SVCDETAIL_PAYMENTSVCSEL);
        case ServiceDetailReq(known) =>
          reply := Answer(if known then OK else FAILED_ServiceIDInvalid, Finished, SVCDETAIL_PAYMENTSVCSEL);
        case PaymentServiceSelectionReq(option, offered, known, charge) =>
          reply := HandlePaymentServiceSelection(option, offered, known, charge);
        case PaymentDetailsReq(chain) => reply := HandlePaymentDetails(chain);
        case AuthorizationReq(_, _, _, _, _, _) => reply := HandleAuthorization(req);
        case ChargeParameterDiscoveryReq(supported, wrong) =>
          reply := HandleChargeParameterDiscovery(supported, wrong);
      }
    }

    /** Requests from MeteringReceipt on, in the order of their identifiers. */
    method HandleChargingRequest(req: Request) returns (reply: Reply)
      requires InTable(Ctx()) && Id(TypeOf(req)) > 7
      modifies this
      ensures Ctx() == Handled(old(Ctx()), req) && reply == ReplyTo(old(Ctx()), req)
    {
      match req {
        case MeteringReceiptReq =>
          reply := Answer(OK, Finished, if isDc then DC_CURRENTDEMAND_POWERDELIVERY
                                        else AC_CHARGINGSTATUS_POWERDELIVERY);
        case CertificateUpdateReq => reply := Reply(NoEvent, OK, Finished);
        case CertificateInstallationReq(how) => reply := HandleCertificateInstallation(how);
        case ChargingStatusReq => reply := HandleChargingStatus();
        case CableCheckReq =>
          var processing := evse.isolationProcessing;
          reply := Answer(OK, processing, if processing == Finished then DC_PRECHARGE else DC_CABLECHECK);
        case PreChargeReq => reply := Answer(OK, Finished, DC_PRECHARGE_POWERDELIVERY);
        case PowerDeliveryReq(progress, tariffKnown, overdue) =>
          reply := HandlePowerDelivery(progress, tariffKnown, overdue);
        case CurrentDemandReq => reply := HandleCurrentDemand();
        case WeldingDetectionReq => reply := Answer(OK, Finished, DC_WELDINGDETECTION_SESSIONSTOP);
        case SessionStopReq(session) => reply := HandleSessionStop(session);
        case UnsupportedReq => reply := Reply(IgnoreMsg, OK, Finished);
      }
    }

    /** Handles a decoded request; `Step` says what it answers and what it leaves behind. */
    method HandleRequest(input: Incoming) returns (reply: Reply)
      requires InTable(Ctx())
      modifies this
      ensures Ctx() == Step(old(Ctx()), input).0
      ensures reply == Step(old(Ctx()), input).1
    {
      receivedId := input.receivedId;
      if TypeOf(input.req) != UnknownMsg {
        currentMsg := TypeOf(input.req);
      }
      if Id(TypeOf(input.req)) <= 7 {
        reply := HandleSetupRequest(input.req);
      } else {
        reply := HandleChargingRequest(input.req);
      }
      if reply.event != IgnoreMsg {
        lastMsg := currentMsg;
      }
    }
  }
}
