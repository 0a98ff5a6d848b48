/**
 * The DIN SPEC 70121 server: sequencing table, validation, and every request handler.
 * As for ISO 15118-2, `Step` specifies one handled request and `Server` performs it.
 */
module DinServer {
  import opened V2g
  import opened Wrappers

  datatype IsolationLevel = Invalid | Valid | Warning | Fault | NoImd

  datatype Request =
    | SessionSetupReq(freshId: nat)
    | ServiceDiscoveryReq
    | ServicePaymentSelectionReq(external: bool, onlyChargeService: bool)
    | ContractAuthenticationReq
    | ChargeParameterDiscoveryReq(typeOffered: bool, acParameter: bool)
    | CableCheckReq
    | PreChargeReq
    | PowerDeliveryReq(readyToCharge: bool, tariffKnown: bool)
    | CurrentDemandReq
    | WeldingDetectionReq
    | SessionStopReq
    | ForeignReq(msg: Msg)      // one of the six messages that DIN SPEC 70121 does not use
    | UnsupportedReq

  function TypeOf(req: Request): Msg {
    match req
    case SessionSetupReq(_) => SessionSetup
    case ServiceDiscoveryReq => ServiceDiscovery
    case ServicePaymentSelectionReq(_, _) => PaymentServiceSelection
    case ContractAuthenticationReq => Authorization
    case ChargeParameterDiscoveryReq(_, _) => ChargeParameterDiscovery
    case CableCheckReq => CableCheck
    case PreChargeReq => PreCharge
    case PowerDeliveryReq(_, _) => PowerDelivery
    case CurrentDemandReq => CurrentDemand
    case WeldingDetectionReq => WeldingDetection
    case SessionStopReq => SessionStop
    case ForeignReq(_) => UnknownMsg
    case UnsupportedReq => UnknownMsg
  }

  predicate Ignored(req: Request) {
    req.ForeignReq? || req.UnsupportedReq?
  }

  datatype Incoming = Incoming(receivedId: nat, req: Request)

  datatype Evse = Evse(
    stopHlc: bool,
    emergencyShutdown: bool,
    connectionTerminated: bool,
    authFinished: bool,
    parameterFinished: bool,
    isolationFinished: bool,
    isolationUsed: bool,
    isolation: IsolationLevel,
    chargeStatusReady: bool,
    externalPaymentAllowed: bool)

  datatype Context = Context(
    state: nat,
    lastMsg: Msg,
    currentMsg: Msg,
    sessionId: nat,
    receivedId: nat,
    evse: Evse)

  /** The fields of a response that the sequencing depends on. */
  datatype Reply = Reply(event: V2gEvent, code: ResponseCode, finished: bool, isolation: Option<IsolationLevel>)

  const SESSIONSETUP := 0
  const SERVICEDISCOVERY := 1
  const PAYMENTSERVICESELECTION := 2
  const AUTHORIZATION := 3
  const CHARGEPARAMETERDISCOVERY := 4
  const CABLECHECK := 5
  const PRECHARGE := 6
  const PRECHARGE_POWERDELIVERY := 7
  const CURRENTDEMAND := 8
  const CURRENTDEMAND_POWERDELIVERY := 9
  const WELDINGDETECTION_SESSIONSTOP := 10
  const SESSIONSTOP := 11
  const TERMINATED_SESSION := 12
  const TABLE_SIZE := 13

  function Row(state: nat): seq<Msg>
    requires state < TABLE_SIZE
  {
    if state == SESSIONSETUP then [SessionSetup]
    else if state == SERVICEDISCOVERY then [ServiceDiscovery, SessionStop]
    else if state == PAYMENTSERVICESELECTION then [PaymentServiceSelection, SessionStop]
    else if state == AUTHORIZATION then [Authorization, SessionStop]
    else if state == CHARGEPARAMETERDISCOVERY then [ChargeParameterDiscovery, SessionStop]
    else if state == CABLECHECK then [CableCheck, SessionStop]
    else if state == PRECHARGE then [PreCharge, SessionStop]
    else if state == PRECHARGE_POWERDELIVERY then [PowerDelivery, PreCharge, SessionStop]
    else if state == CURRENTDEMAND then [CurrentDemand]
    else if state == CURRENTDEMAND_POWERDELIVERY then [CurrentDemand, PowerDelivery]
    else if state == WELDINGDETECTION_SESSIONSTOP then [WeldingDetection, SessionStop]
    else if state == SESSIONSTOP then [SessionStop]
    else []
  }

  /** Sequence check by a bit test in the mask of the state's row. */
  function ValidateState(state: nat, msg: Msg): (code: ResponseCode)
    requires state < TABLE_SIZE
    ensures code == OK <==> msg in Row(state)
    ensures code != OK ==> code == FAILED_SequenceError
  {
    MaskTestsMembership(Row(state), msg);
    if MaskOf(Row(state)) & Bit(Id(msg)) != 0 then OK else FAILED_SequenceError
  }

  // ---------------------------------------------------------------------------
  // Specification of one handled request
  // ---------------------------------------------------------------------------

  predicate InTable(c: Context) {
    c.state < TABLE_SIZE
  }

  function ValidatedCode(c: Context, own: ResponseCode): ResponseCode
    requires InTable(c)
  {
    if c.evse.connectionTerminated then own
    else if c.currentMsg != SessionSetup && c.sessionId != c.receivedId then FAILED_UnknownSession
    else if c.currentMsg !in Row(c.state) then FAILED_SequenceError
    else if c.evse.stopHlc || c.evse.emergencyShutdown then FAILED
    else own
  }

  function ValidatedEvent(c: Context, own: ResponseCode): V2gEvent
    requires InTable(c)
  {
    if c.evse.connectionTerminated then TerminateConnection
    else if ValidatedCode(c, own).IsFailure() then SendAndTerminate
    else NoEvent
  }

  function OwnCode(c: Context, req: Request): ResponseCode {
    match req
    case SessionSetupReq(_) => OK_NewSessionEstablished
    case ServiceDiscoveryReq => if c.evse.externalPaymentAllowed then OK else FAILED
    case ServicePaymentSelectionReq(external, onlyCharge) =>
      if !onlyCharge then FAILED_ServiceSelectionInvalid
      else if !external then FAILED_PaymentSelectionInvalid
      else OK
    case ChargeParameterDiscoveryReq(offered, ac) =>
      if ac then FAILED_WrongChargeParameter
      else if !offered then FAILED_WrongEnergyTransfer
      else OK
    case PowerDeliveryReq(ready, tariffKnown) =>
      if ready && (c.evse.emergencyShutdown || !c.evse.chargeStatusReady) then FAILED_PowerDeliveryNotApplied
      else if !tariffKnown then FAILED_TariffSelectionInvalid
      else OK
    case _ => OK
  }

  function ReportedFinished(c: Context, req: Request): bool {
    match req
    case ContractAuthenticationReq => c.evse.authFinished
    case ChargeParameterDiscoveryReq(_, _) => c.evse.parameterFinished
    case CableCheckReq => c.evse.isolationFinished
    case _ => true
  }

  function ReportedIsolation(c: Context, req: Request): Option<IsolationLevel> {
    if req.CableCheckReq? && c.evse.isolationUsed then Some(c.evse.isolation) else None
  }

  predicate Insulated(level: Option<IsolationLevel>) {
    level == Some(Valid) || level == Some(Warning)
  }

  /** The EV asks to start charging although it was charging already. */
  predicate RestartsCharging(c: Context, req: Request) {
    req.PowerDeliveryReq? && req.readyToCharge && c.lastMsg == CurrentDemand
  }

  function NextState(c: Context, req: Request): nat {
    match req
    case SessionSetupReq(_) => SERVICEDISCOVERY
    case ServiceDiscoveryReq => PAYMENTSERVICESELECTION
    case ServicePaymentSelectionReq(_, _) => AUTHORIZATION
    case ContractAuthenticationReq => if c.evse.authFinished then CHARGEPARAMETERDISCOVERY else AUTHORIZATION
    case ChargeParameterDiscoveryReq(_, _) =>
      if c.evse.parameterFinished then CABLECHECK else CHARGEPARAMETERDISCOVERY
    case CableCheckReq =>
      if c.evse.isolationFinished && Insulated(ReportedIsolation(c, req)) && !c.evse.emergencyShutdown
      then PRECHARGE else CABLECHECK
    case PreChargeReq => PRECHARGE_POWERDELIVERY
    case PowerDeliveryReq(ready, _) =>
      if ready && c.lastMsg != CurrentDemand then CURRENTDEMAND else WELDINGDETECTION_SESSIONSTOP
    case CurrentDemandReq => CURRENTDEMAND_POWERDELIVERY
    case WeldingDetectionReq => WELDINGDETECTION_SESSIONSTOP
    case SessionStopReq => TERMINATED_SESSION
    case _ => c.state
  }

  /** Context when validation begins. */
  function Announced(c: Context, input: Incoming): Context {
    var current := if input.req.UnsupportedReq? then c.currentMsg else TypeOf(input.req);
    var id := if input.req.SessionSetupReq? && c.sessionId == 0 then input.req.freshId else c.sessionId;
    c.(receivedId := input.receivedId, currentMsg := current, sessionId := id)
  }

  function ReplyTo(c: Context, req: Request): Reply
    requires InTable(c)
  {
    if Ignored(req) then Reply(IgnoreMsg, OK, true, None)
    else if RestartsCharging(c, req) then Reply(SendAndTerminate, FAILED, true, None)
    else
      var own := OwnCode(c, req);
      Reply(if req.SessionStopReq? then SendAndTerminate else ValidatedEvent(c, own),
            ValidatedCode(c, own), ReportedFinished(c, req), ReportedIsolation(c, req))
  }

  function Step(c: Context, input: Incoming): (result: (Context, Reply))
    requires InTable(c)
  {
    var a := Announced(c, input);
    var next := a.(state := NextState(a, input.req));
    (if Ignored(input.req) then next else next.(lastMsg := a.currentMsg), ReplyTo(a, input.req))
  }

  predicate Accepted(reply: Reply) {
    Sends(reply.event) && !reply.code.IsFailure()
  }

  // ---------------------------------------------------------------------------
  // The server object
  // ---------------------------------------------------------------------------

  class Server {
    var state: nat
    var lastMsg: Msg
    var currentMsg: Msg
    var sessionId: nat
    var receivedId: nat
    var evse: Evse

    function Ctx(): Context
      reads this
    {
      Context(state, lastMsg, currentMsg, sessionId, receivedId, evse)
    }

    constructor (sessionId: nat, evse: Evse)
      ensures Ctx() == Context(SESSIONSETUP, UnknownMsg, UnknownMsg, sessionId, 0, evse)
    {
      this.sessionId := sessionId;
      this.evse := evse;
      state, lastMsg, currentMsg, receivedId := SESSIONSETUP, UnknownMsg, UnknownMsg, 0;
    }

    method ValidateResponseCode(own: ResponseCode) returns (event: V2gEvent, code: ResponseCode)
      requires InTable(Ctx())
      ensures event == ValidatedEvent(Ctx(), own) && code == ValidatedCode(Ctx(), own)
    {
      event, code := NoEvent, own;
      if evse.connectionTerminated {
        return TerminateConnection, code;
      }
      if evse.stopHlc || evse.emergencyShutdown {
        code := FAILED;
      }
      var sequence := ValidateState(state, currentMsg);
      if sequence.IsFailure() {
        code := sequence;
      }
      if currentMsg != SessionSetup && sessionId != receivedId {
        code := FAILED_UnknownSession;
      }
      if code.IsFailure() {
        event := SendAndTerminate;
      }
    }

    method Answer(own: ResponseCode, finished: bool, next: nat) returns (reply: Reply)
      requires InTable(Ctx())
      modifies this`state
      ensures Ctx() == old(Ctx()).(state := next)
      ensures reply == Reply(ValidatedEvent(old(Ctx()), own), ValidatedCode(old(Ctx()), own), finished, None)
    {
      var event, code := ValidateResponseCode(own);
      state := next;
      reply := Reply(event, code, finished, None);
    }

    method HandleServicePaymentSelection(external: bool, onlyCharge: bool) returns (reply: Reply)
      requires InTable(Ctx())
      modifies this`state
      ensures Ctx() == old(Ctx()).(state := AUTHORIZATION)
      ensures reply == ReplyTo(old(Ctx()), ServicePaymentSelectionReq(external, onlyCharge))
    {
      var code := OK;
      if !external { code := FAILED_PaymentSelectionInvalid; }
      if !onlyCharge { code := FAILED_ServiceSelectionInvalid; }
      reply := Answer(code, true, AUTHORIZATION);
    }

    method HandleChargeParameter(offered: bool, ac: bool) returns (reply: Reply)
      requires InTable(Ctx())
      modifies this`state
      ensures Ctx() == old(Ctx()).(state := NextState(old(Ctx()), ChargeParameterDiscoveryReq(offered, ac)))
      ensures reply == ReplyTo(old(Ctx()), ChargeParameterDiscoveryReq(offered, ac))
    {
      var code := OK;
      if !offered { code := FAILED_WrongEnergyTransfer; }
      if ac { code := FAILED_WrongChargeParameter; }
      var finished := evse.parameterFinished;
      reply := Answer(code, finished, if finished then CABLECHECK else CHARGEPARAMETERDISCOVERY);
    }

    method HandlePowerDelivery(ready: bool, tariffKnown: bool) returns (reply: Reply)
      requires InTable(Ctx())
      modifies this`state
      ensures Ctx() == old(Ctx()).(state := NextState(old(Ctx()), PowerDeliveryReq(ready, tariffKnown)))
      ensures reply == ReplyTo(old(Ctx()), PowerDeliveryReq(ready, tariffKnown))
      ensures !reply.code.IsFailure() ==>
                && tariffKnown
                && (ready ==> evse.chargeStatusReady && !evse.emergencyShutdown && lastMsg != CurrentDemand)
    {
      var code := OK;
      if !tariffKnown { code := FAILED_TariffSelectionInvalid; }
      if ready && (evse.emergencyShutdown || !evse.chargeStatusReady) {
        code := FAILED_PowerDeliveryNotApplied;
      }
      var event;
      event, code := ValidateResponseCode(code);
      if ready && lastMsg != CurrentDemand {
        state := CURRENTDEMAND;
      } else {
        if ready {
          event, code := SendAndTerminate, FAILED;
        }
        state := WELDINGDETECTION_SESSIONSTOP;
      }
      reply := Reply(event, code, true, None);
    }

    method HandleCableCheck() returns (reply: Reply)
      requires InTable(Ctx())
      modifies this`state
      ensures Ctx() == old(Ctx()).(state := NextState(old(Ctx()), CableCheckReq))
      ensures reply == ReplyTo(old(Ctx()), CableCheckReq)
    {
      var isolation := if evse.isolationUsed then Some(evse.isolation) else None;
      var finished := evse.isolationFinished;
      var ready := !evse.emergencyShutdown && finished;
      var event, code := ValidateResponseCode(OK);
      if finished && isolation.Some? && (isolation.value == Valid || isolation.value == Warning) && ready {
        state := PRECHARGE;
      } else {
        state := CABLECHECK;
      }
      reply := Reply(event, code, finished, isolation);
    }

    method HandleSessionStop() returns (reply: Reply)
      requires InTable(Ctx())
      modifies this`state
      ensures Ctx() == old(Ctx()).(state := TERMINATED_SESSION)
      ensures reply == ReplyTo(old(Ctx()), SessionStopReq)
    {
      var _, code := ValidateResponseCode(OK);
      state := TERMINATED_SESSION;
      reply := Reply(SendAndTerminate, code, true, None);
    }

    method HandleRequest(input: Incoming) returns (reply: Reply)
      requires InTable(Ctx())
      modifies this
      ensures Ctx() == Step(old(Ctx()), input).0
      ensures reply == Step(old(Ctx()), input).1
    {
      receivedId := input.receivedId;
      if !input.req.UnsupportedReq? {
        currentMsg := TypeOf(input.req);
      }
      match input.req {
        case SessionSetupReq(freshId) =>
          if sessionId == 0 {
            sessionId := freshId;
          }
          reply := Answer(OK_NewSessionEstablished, true, SERVICEDISCOVERY);
        case ServiceDiscoveryReq =>
          reply := Answer(if evse.externalPaymentAllowed then OK else FAILED, true, PAYMENTSERVICESELECTION);
        case ServicePaymentSelectionReq(external, onlyCharge) =>
          reply := HandleServicePaymentSelection(external, onlyCharge);
        case ContractAuthenticationReq =>
          var finished := evse.authFinished;
          reply := Answer(OK, finished, if !finished then AUTHORIZATION else CHARGEPARAMETERDISCOVERY);
        case ChargeParameterDiscoveryReq(offered, ac) => reply := HandleChargeParameter(offered, ac);
        case CableCheckReq => reply := HandleCableCheck();
        case PreChargeReq => reply := Answer(OK, true, PRECHARGE_POWERDELIVERY);
        case PowerDeliveryReq(ready, tariffKnown) => reply := HandlePowerDelivery(ready, tariffKnown);
        case CurrentDemandReq => reply := Answer(OK, true, CURRENTDEMAND_POWERDELIVERY);
        case WeldingDetectionReq => reply := Answer(OK, true, WELDINGDETECTION_SESSIONSTOP);
        case SessionStopReq => reply := HandleSessionStop();
        case ForeignReq(_) => reply := Reply(IgnoreMsg, OK, true, None);
        case UnsupportedReq => reply := Reply(IgnoreMsg, OK, true, None);
      }
      if reply.event != IgnoreMsg {
        lastMsg := currentMsg;
      }
    }
  }
}
