/**
 * Safety of the DIN SPEC 70121 server over whole sessions. The accepted exchanges of a
 * session form a conversation of a small regular grammar, and conversely every request
 * that continues the conversation is accepted unless something outside it objects.
 */
module DinSafety {
  import opened Faults
  import opened DinAnswers
  import opened V2g
  import opened DinServer

  /** A request, its answer, and the EVSE-side inputs that the server found. */
  datatype Exchange = Exchange(req: Request, reply: Reply, evse: Evse)

  datatype Action =
    | Environment(evse: Evse)
    | Receive(input: Incoming)
    | Disconnect

  /** `accepted` lists the exchanges answered below FAILED, oldest first. */
  datatype Session = Session(ctx: Context, open: bool, accepted: seq<Exchange>)

  // ---------------------------------------------------------------------------
  // The grammar of accepted exchanges, independent of the server's state numbers
  // ---------------------------------------------------------------------------

  function Init(t: seq<Exchange>): seq<Exchange>
    requires t != []
  {
    t[..|t| - 1]
  }

  function Last(t: seq<Exchange>): Exchange
    requires t != []
  {
    t[|t| - 1]
  }

  predicate Begins(e: Exchange) { e.req.SessionSetupReq? }

  predicate IsAuthorization(e: Exchange, finished: bool) {
    e.req.ContractAuthenticationReq? && e.reply.finished == finished
  }

  predicate IsParameter(e: Exchange, finished: bool) {
    e.req.ChargeParameterDiscoveryReq? && e.reply.finished == finished
  }

  /** A CableCheck answered as finished with a valid or warning isolation level. */
  predicate CablePassed(e: Exchange) {
    e.req.CableCheckReq? && e.reply.finished && Insulated(e.reply.isolation)
  }

  predicate IsReady(e: Exchange) { e.req.PowerDeliveryReq? && e.req.readyToCharge }

  predicate IsUnready(e: Exchange) { e.req.PowerDeliveryReq? && !e.req.readyToCharge }

  predicate Authorizing(t: seq<Exchange>) {
    if |t| <= 3 then
      |t| == 3 && Begins(t[0]) && t[1].req.ServiceDiscoveryReq? && t[2].req.ServicePaymentSelectionReq?
    else IsAuthorization(Last(t), false) && Authorizing(Init(t))
  }

  predicate Parametrizing(t: seq<Exchange>) {
    t != [] &&
    if IsAuthorization(Last(t), true) then Authorizing(Init(t))
    else IsParameter(Last(t), false) && Parametrizing(Init(t))
  }

  predicate CableChecking(t: seq<Exchange>) {
    t != [] &&
    if IsParameter(Last(t), true) then Parametrizing(Init(t))
    else Last(t).req.CableCheckReq? && !CablePassed(Last(t)) && CableChecking(Init(t))
  }

  predicate CableChecked(t: seq<Exchange>) {
    t != [] && CablePassed(Last(t)) && CableChecking(Init(t))
  }

  predicate PreCharging(t: seq<Exchange>) {
    t != [] && Last(t).req.PreChargeReq? && (CableChecked(Init(t)) || PreCharging(Init(t)))
  }

  predicate ReadyToCharge(t: seq<Exchange>) {
    t != [] && IsReady(Last(t)) && PreCharging(Init(t))
  }

  predicate Charging(t: seq<Exchange>) {
    t != [] && Last(t).req.CurrentDemandReq? && (ReadyToCharge(Init(t)) || Charging(Init(t)))
  }

  predicate Ending(t: seq<Exchange>) {
    t != [] &&
    if IsUnready(Last(t)) then PreCharging(Init(t)) || Charging(Init(t))
    else Last(t).req.WeldingDetectionReq? && Ending(Init(t))
  }

  /** Phases in which the EV may end the session. */
  predicate MayStop(t: seq<Exchange>) {
    || (|t| == 1 && Begins(t[0]))
    || (|t| == 2 && Begins(t[0]) && t[1].req.ServiceDiscoveryReq?)
    || Authorizing(t) || Parametrizing(t) || CableChecking(t) || CableChecked(t) || PreCharging(t) || Ending(t)
  }

  predicate Unfinished(t: seq<Exchange>) {
    t == [] || MayStop(t) || ReadyToCharge(t) || Charging(t)
  }

  /**
   * A SessionStop ends every conversation. Outside the phases of `MayStop` it is accepted only
   * once the physical connection is gone, see `StopOutOfTurn`.
   */
  predicate Stopped(t: seq<Exchange>) {
    t != [] && Last(t).req.SessionStopReq? && Unfinished(Init(t))
  }

  predicate Conversation(t: seq<Exchange>) {
    Unfinished(t) || Stopped(t)
  }

  // ---------------------------------------------------------------------------
  // Runs
  // ---------------------------------------------------------------------------

  function Advance(s: Session, a: Action): Session
    requires s.open ==> InTable(s.ctx)
  {
    match a
    case Environment(evse) => s.(ctx := s.ctx.(evse := evse))
    case Disconnect => s.(open := false)
    case Receive(input) =>
      if !s.open then s
      else
        var (ctx, reply) := Step(s.ctx, input);
        Session(ctx, Continues(reply.event),
                if Accepted(reply) then s.accepted + [Exchange(input.req, reply, s.ctx.evse)] else s.accepted)
  }

  predicate Initial(c: Context) {
    && c.state == SESSIONSETUP
    && c.lastMsg == UnknownMsg
    && c.currentMsg == UnknownMsg
  }

  function Run(c: Context, actions: seq<Action>): (s: Session)
    requires Initial(c)
    ensures Inv(s)
  {
    if actions == [] then Session(c, true, [])
    else
      var s := Run(c, actions[..|actions| - 1]);
      InvStep(s, actions[|actions| - 1]);
      Advance(s, actions[|actions| - 1])
  }

  /** The phase of the conversation that each state stands for. */
  predicate InPhase(t: seq<Exchange>, state: nat) {
    if state == SESSIONSETUP then t == []
    else if state == SERVICEDISCOVERY then |t| == 1 && Begins(t[0])
    else if state == PAYMENTSERVICESELECTION then |t| == 2 && Begins(t[0]) && t[1].req.ServiceDiscoveryReq?
    else if state == AUTHORIZATION then Authorizing(t)
    else if state == CHARGEPARAMETERDISCOVERY then Parametrizing(t)
    else if state == CABLECHECK then CableChecking(t)
    else if state == PRECHARGE then CableChecked(t)
    else if state == PRECHARGE_POWERDELIVERY then PreCharging(t)
    else if state == CURRENTDEMAND then ReadyToCharge(t)
    else if state == CURRENTDEMAND_POWERDELIVERY then Charging(t)
    else state == WELDINGDETECTION_SESSIONSTOP && Ending(t)
  }

  /** An open session is in the phase of its state, and remembers CurrentDemand exactly while it charges. */
  predicate Inv(s: Session) {
    && Conversation(s.accepted)
    && (s.open ==>
          && InTable(s.ctx)
          && InPhase(s.accepted, s.ctx.state)
          && (s.ctx.lastMsg == CurrentDemand <==> s.ctx.state == CURRENTDEMAND_POWERDELIVERY))
  }

  /** An accepted request leads from the phase of one state to the phase of the next. */
  predicate Leads(t: seq<Exchange>, c: Context, input: Incoming)
    requires InTable(c)
  {
    var (c', reply) := Step(c, input);
    var t' := t + [Exchange(input.req, reply, c.evse)];
    if reply.event == SendAndTerminate then Stopped(t')
    else
      && reply.event == NoEvent && c'.state < TABLE_SIZE && InPhase(t', c'.state)
      && (c'.lastMsg == CurrentDemand <==> c'.state == CURRENTDEMAND_POWERDELIVERY)
  }

  lemma PhaseStep(t: seq<Exchange>, c: Context, input: Incoming)
    requires InTable(c) && InPhase(t, c.state)
    requires c.lastMsg == CurrentDemand <==> c.state == CURRENTDEMAND_POWERDELIVERY
    requires Accepted(Step(c, input).1)
    ensures Leads(t, c, input)
  {
    if input.req.SessionStopReq? {
      assert Init(t + [Exchange(input.req, Step(c, input).1, c.evse)]) == t;
    } else if c.state <= CABLECHECK {
      SetUpStep(t, c, input);
    } else {
      ChargingStep(t, c, input);
    }
  }

  lemma SetUpStep(t: seq<Exchange>, c: Context, input: Incoming)
    requires InTable(c) && InPhase(t, c.state) && c.state <= CABLECHECK && c.lastMsg != CurrentDemand
    requires Accepted(Step(c, input).1) && !input.req.SessionStopReq?
    ensures Leads(t, c, input)
  {
    var e := Exchange(input.req, Step(c, input).1, c.evse);
    assert Init(t + [e]) == t && Last(t + [e]) == e;
    assert TypeOf(input.req) in Row(c.state);
    assert c.state != SESSIONSETUP ==> (t + [e])[0] == t[0];
    assert |t| > 1 ==> (t + [e])[1] == t[1];
  }

  lemma ChargingStep(t: seq<Exchange>, c: Context, input: Incoming)
    requires InTable(c) && InPhase(t, c.state) && c.state > CABLECHECK
    requires c.lastMsg == CurrentDemand <==> c.state == CURRENTDEMAND_POWERDELIVERY
    requires Accepted(Step(c, input).1) && !input.req.SessionStopReq?
    ensures Leads(t, c, input)
  {
    var e := Exchange(input.req, Step(c, input).1, c.evse);
    assert Init(t + [e]) == t && Last(t + [e]) == e;
    assert TypeOf(input.req) in Row(c.state);
  }

  /** A request that is not accepted ends the session or was ignored without a trace. */
  lemma RefusedEndsOrIsIgnored(c: Context, input: Incoming)
    requires InTable(c)
    ensures var (c', reply) := Step(c, input);
            Continues(reply.event) && !Accepted(reply) ==> c'.state == c.state && c'.lastMsg == c.lastMsg
  {
  }

  lemma InvStep(s: Session, a: Action)
    requires Inv(s)
    ensures Inv(Advance(s, a))
  {
    if a.Receive? && s.open {
      if Accepted(Step(s.ctx, a.input).1) {
        PhaseStep(s.accepted, s.ctx, a.input);
      } else {
        RefusedEndsOrIsIgnored(s.ctx, a.input);
      }
    }
  }

  // ---------------------------------------------------------------------------
  // Charging is one block
  // ---------------------------------------------------------------------------

  predicate PartOfCharging(e: Exchange) {
    IsReady(e) || e.req.CurrentDemandReq?
  }

  /** Nothing before PowerDelivery(ready) belongs to the charging block. */
  lemma {:induction false} PreambleIsQuiet(t: seq<Exchange>, i: nat)
    requires Authorizing(t) || Parametrizing(t) || CableChecking(t) || CableChecked(t) || PreCharging(t)
    requires i < |t|
    ensures !PartOfCharging(t[i])
  {
    if i < |t| - 1 && !(|t| == 3 && Authorizing(t)) {
      PreambleIsQuiet(Init(t), i);
    }
  }

  /** The set-up in the first `n` exchanges: identification, authorization, parameters, insulation, precharge. */
  predicate SetUpChain(t: seq<Exchange>, n: nat, a: nat, p: nat, k: nat) {
    && 2 < a < p < k < n - 1 && n <= |t|
    && Begins(t[0]) && t[1].req.ServiceDiscoveryReq? && t[2].req.ServicePaymentSelectionReq?
    && IsAuthorization(t[a], true) && IsParameter(t[p], true) && CablePassed(t[k])
    && forall i | k < i < n :: t[i].req.PreChargeReq?
  }

  lemma {:induction false} PreambleChain(t: seq<Exchange>) returns (a: nat, p: nat, k: nat)
    requires PreCharging(t)
    ensures SetUpChain(t, |t|, a, p, k)
  {
    if CableChecked(Init(t)) {
      k := |t| - 2;
      assert Init(Init(t)) == t[..k];
      a, p := CableChain(t[..k]);
    } else {
      a, p, k := PreambleChain(Init(t));
    }
  }

  lemma {:induction false} CableChain(t: seq<Exchange>) returns (a: nat, p: nat)
    requires CableChecking(t)
    ensures 2 < a < p < |t|
    ensures Begins(t[0]) && t[1].req.ServiceDiscoveryReq? && t[2].req.ServicePaymentSelectionReq?
    ensures IsAuthorization(t[a], true) && IsParameter(t[p], true)
  {
    if IsParameter(Last(t), true) {
      p := |t| - 1;
      a := ParameterChain(t[..p]);
    } else {
      a, p := CableChain(Init(t));
    }
  }

  lemma {:induction false} ParameterChain(t: seq<Exchange>) returns (a: nat)
    requires Parametrizing(t)
    ensures 2 < a < |t|
    ensures Begins(t[0]) && t[1].req.ServiceDiscoveryReq? && t[2].req.ServicePaymentSelectionReq?
    ensures IsAuthorization(t[a], true)
  {
    if IsAuthorization(Last(t), true) {
      a := |t| - 1;
      AuthorizingStart(t[..a]);
    } else {
      a := ParameterChain(Init(t));
    }
  }

  lemma {:induction false} AuthorizingStart(t: seq<Exchange>)
    requires Authorizing(t)
    ensures |t| >= 3 && Begins(t[0]) && t[1].req.ServiceDiscoveryReq? && t[2].req.ServicePaymentSelectionReq?
  {
    if |t| > 3 {
      AuthorizingStart(Init(t));
    }
  }

  /** Position of the PowerDelivery(ready) after which only CurrentDemands were accepted. */
  lemma {:induction false} ChargingStart(t: seq<Exchange>) returns (n: nat)
    requires ReadyToCharge(t) || Charging(t)
    ensures n < |t| && PreCharging(t[..n]) && IsReady(t[n])
    ensures forall i | n < i < |t| :: t[i].req.CurrentDemandReq?
    ensures Charging(t) ==> n < |t| - 1
  {
    if ReadyToCharge(t) {
      n := |t| - 1;
    } else {
      n := ChargingStart(Init(t));
      assert Init(t)[..n] == t[..n];
    }
  }

  /** Position of the PowerDelivery(not ready) after which only WeldingDetections were accepted. */
  lemma {:induction false} EndingStart(t: seq<Exchange>) returns (m: nat)
    requires Ending(t)
    ensures m < |t| && IsUnready(t[m]) && (PreCharging(t[..m]) || Charging(t[..m]))
    ensures forall i | m < i < |t| :: t[i].req.WeldingDetectionReq?
  {
    if IsUnready(Last(t)) {
      m := |t| - 1;
    } else {
      m := EndingStart(Init(t));
      assert Init(t)[..m] == t[..m];
    }
  }

  /**
   * The shape of a conversation in which charging took place: a preamble, one accepted
   * PowerDelivery(ready) at `n`, CurrentDemands up to `m`, and after them at most a
   * PowerDelivery(not ready), WeldingDetections and a SessionStop.
   */
  predicate ChargesOnce(t: seq<Exchange>, n: nat, m: nat) {
    && n < m <= |t|
    && PreCharging(t[..n]) && IsReady(t[n])
    && (forall i | 0 <= i < n :: !PartOfCharging(t[i]))
    && (forall i | n < i < m :: t[i].req.CurrentDemandReq?)
    && (m < |t| ==> (IsUnready(t[m]) && n + 1 < m) || (t[m].req.SessionStopReq? && m == |t| - 1))
    && (forall i | m < i < |t| :: t[i].req.WeldingDetectionReq? || t[i].req.SessionStopReq?)
  }

  lemma UnfinishedChargesOnce(t: seq<Exchange>, i: nat) returns (n: nat, m: nat)
    requires Unfinished(t) && i < |t| && PartOfCharging(t[i])
    ensures ChargesOnce(t, n, m)
  {
    m := |t|;
    var body := t;
    if Ending(t) {
      m := EndingStart(t);
      body := t[..m];
      if PreCharging(body) && i < m {
        PreambleIsQuiet(body, i);
      }
    } else if !ReadyToCharge(t) && !Charging(t) {
      PreambleIsQuiet(t, i);
    }
    n := ChargingStart(body);
    assert body[..n] == t[..n];
    forall k | 0 <= k < n ensures !PartOfCharging(t[k]) {
      PreambleIsQuiet(t[..n], k);
    }
  }

  /** Every conversation charges in one block or not at all. */
  lemma ConversationChargesOnce(t: seq<Exchange>, i: nat) returns (n: nat, m: nat)
    requires Conversation(t) && i < |t| && PartOfCharging(t[i])
    ensures ChargesOnce(t, n, m)
  {
    if Stopped(t) {
      var k := |t| - 1;
      n, m := UnfinishedChargesOnce(t[..k], i);
      assert t[..k][..n] == t[..n];
    } else {
      n, m := UnfinishedChargesOnce(t, i);
    }
  }

  lemma ConversationBlock(t: seq<Exchange>, i: nat) returns (n: nat, m: nat, a: nat, p: nat, k: nat)
    requires Conversation(t) && i < |t| && PartOfCharging(t[i])
    ensures ChargesOnce(t, n, m) && SetUpChain(t, n, a, p, k)
  {
    n, m := ConversationChargesOnce(t, i);
    a, p, k := PreambleChain(t[..n]);
    SetUpOfPrefix(t, n, a, p, k);
  }

  lemma SetUpOfPrefix(t: seq<Exchange>, n: nat, a: nat, p: nat, k: nat)
    requires n <= |t| && SetUpChain(t[..n], n, a, p, k)
    ensures SetUpChain(t, n, a, p, k)
  {
    assert forall i | 0 <= i < n :: t[..n][i] == t[i];
  }

  // ---------------------------------------------------------------------------
  // What the charger had to contribute
  // ---------------------------------------------------------------------------

  /** An accepted exchange has what it takes from the request and from the charger. */
  predicate Backed(e: Exchange) {
    && (e.req.ServiceDiscoveryReq? ==> e.evse.externalPaymentAllowed)
    && (e.req.ServicePaymentSelectionReq? ==> e.req.external && e.req.onlyChargeService)
    && (IsAuthorization(e, true) ==> e.evse.authFinished)
    && (e.req.ChargeParameterDiscoveryReq? ==> e.req.typeOffered && !e.req.acParameter)
    && (IsParameter(e, true) ==> e.evse.parameterFinished)
    && (CablePassed(e) ==>
          && e.evse.isolationFinished && e.evse.isolationUsed && !e.evse.emergencyShutdown
          && (e.evse.isolation == Valid || e.evse.isolation == Warning))
    && (e.req.PowerDeliveryReq? ==> e.req.tariffKnown)
    && (IsReady(e) ==> Ready(e.evse))
  }

  lemma AcceptedIsBacked(c: Context, input: Incoming)
    requires InTable(c) && Accepted(Step(c, input).1)
    ensures Backed(Exchange(input.req, Step(c, input).1, c.evse))
  {
  }

  /** In every run, every accepted exchange is backed: every start found the charger ready. */
  lemma {:induction false} RunIsBacked(c: Context, actions: seq<Action>)
    requires Initial(c)
    ensures forall k | 0 <= k < |Run(c, actions).accepted| :: Backed(Run(c, actions).accepted[k])
    decreases |actions|
  {
    if actions != [] {
      var n := |actions| - 1;
      RunIsBacked(c, actions[..n]);
      BackedOneMore(Run(c, actions[..n]), actions[n]);
    }
  }

  lemma BackedOneMore(s: Session, a: Action)
    requires Inv(s) && forall k | 0 <= k < |s.accepted| :: Backed(s.accepted[k])
    ensures forall k | 0 <= k < |Advance(s, a).accepted| :: Backed(Advance(s, a).accepted[k])
  {
    if a.Receive? && s.open && Accepted(Step(s.ctx, a.input).1) {
      AcceptedIsBacked(s.ctx, a.input);
    }
  }

  // ---------------------------------------------------------------------------
  // Main results
  // ---------------------------------------------------------------------------

  /**
   * In every run: if any PowerDelivery(ready) or CurrentDemand was accepted, the accepted
   * CurrentDemands form one contiguous block opened by the session's only accepted
   * PowerDelivery(ready), and the set-up chain up to an insulated CableCheck and a PreCharge
   * precedes it; what follows is at most its end, WeldingDetection and SessionStop. Every exchange had what
   * it takes: the start found the charger ready, and the insulation was finished and sound.
   */
  lemma ChargingIsOneBlock(c: Context, actions: seq<Action>, i: nat)
    returns (n: nat, m: nat, a: nat, p: nat, k: nat)
    requires Initial(c)
    requires i < |Run(c, actions).accepted| && PartOfCharging(Run(c, actions).accepted[i])
    ensures ChargesOnce(Run(c, actions).accepted, n, m)
    ensures SetUpChain(Run(c, actions).accepted, n, a, p, k)
    ensures forall j | 0 <= j < |Run(c, actions).accepted| :: Backed(Run(c, actions).accepted[j])
  {
    RunIsBacked(c, actions);
    assert Inv(Run(c, actions));
    n, m, a, p, k := ConversationBlock(Run(c, actions).accepted, i);
  }

  /** Two accepted CurrentDemands have only CurrentDemands between them. */
  lemma CurrentDemandsAreContiguous(t: seq<Exchange>, i: nat, j: nat, k: nat)
    requires Conversation(t) && i <= j <= k < |t|
    requires t[i].req.CurrentDemandReq? && t[k].req.CurrentDemandReq?
    ensures t[j].req.CurrentDemandReq?
  {
    var n, m := ConversationChargesOnce(t, i);
    assert n < i && k < m;
  }

  /** At most one PowerDelivery(ready) is accepted. */
  lemma StartIsUnique(t: seq<Exchange>, i: nat, j: nat)
    requires Conversation(t) && i < |t| && j < |t| && IsReady(t[i]) && IsReady(t[j])
    ensures i == j
  {
    var n, m := ConversationChargesOnce(t, i);
    assert i == n && j == n;
  }

  /** The request comes in turn: it continues the conversation, and a SessionStop in a phase that allows it. */
  predicate InTurn(t: seq<Exchange>, e: Exchange) {
    if e.req.SessionStopReq? then MayStop(t) else Unfinished(t + [e])
  }

  /** The state that an exchange leads to when it comes in turn. */
  function Target(e: Exchange): nat {
    match e.req
    case SessionSetupReq(_) => SERVICEDISCOVERY
    case ServiceDiscoveryReq => PAYMENTSERVICESELECTION
    case ServicePaymentSelectionReq(_, _) => AUTHORIZATION
    case ContractAuthenticationReq => if e.reply.finished then CHARGEPARAMETERDISCOVERY else AUTHORIZATION
    case ChargeParameterDiscoveryReq(_, _) => if e.reply.finished then CABLECHECK else CHARGEPARAMETERDISCOVERY
    case CableCheckReq => if CablePassed(e) then PRECHARGE else CABLECHECK
    case PreChargeReq => PRECHARGE_POWERDELIVERY
    case PowerDeliveryReq(ready, _) => if ready then CURRENTDEMAND else WELDINGDETECTION_SESSIONSTOP
    case CurrentDemandReq => CURRENTDEMAND_POWERDELIVERY
    case WeldingDetectionReq => WELDINGDETECTION_SESSIONSTOP
    case _ => TERMINATED_SESSION
  }

  /** The last exchange alone tells the phase. */
  lemma LastTellsPhase(t: seq<Exchange>, state: nat)
    requires t != [] && InPhase(t, state)
    ensures state == Target(Last(t))
  {
  }

  /** Unfinished conversations are in the phase that their last exchange tells. */
  lemma UnfinishedIsInPhase(t: seq<Exchange>)
    requires t != [] && Unfinished(t)
    ensures InPhase(t, Target(Last(t)))
  {
  }

  /** Each exchange of a conversation was listed by the row of the phase before it. */
  lemma RowsFollowPhases(t: seq<Exchange>, state: nat) returns (before: nat)
    requires t != [] && InPhase(t, state)
    ensures before < TABLE_SIZE && InPhase(Init(t), before) && TypeOf(Last(t).req) in Row(before)
    ensures before == CURRENTDEMAND_POWERDELIVERY ==> !IsReady(Last(t))
  {
    var u, e := Init(t), Last(t);
    before :=
      if state <= PAYMENTSERVICESELECTION then state - 1
      else if state == AUTHORIZATION then (if |t| == 3 then PAYMENTSERVICESELECTION else AUTHORIZATION)
      else if state == CHARGEPARAMETERDISCOVERY then
        (if IsAuthorization(e, true) then AUTHORIZATION else CHARGEPARAMETERDISCOVERY)
      else if state == CABLECHECK then (if IsParameter(e, true) then CHARGEPARAMETERDISCOVERY else CABLECHECK)
      else if state == PRECHARGE then CABLECHECK
      else if state == PRECHARGE_POWERDELIVERY then (if CableChecked(u) then PRECHARGE else PRECHARGE_POWERDELIVERY)
      else if state == CURRENTDEMAND then PRECHARGE_POWERDELIVERY
      else if state == CURRENTDEMAND_POWERDELIVERY then
        (if ReadyToCharge(u) then CURRENTDEMAND else CURRENTDEMAND_POWERDELIVERY)
      else if !IsUnready(e) then WELDINGDETECTION_SESSIONSTOP
      else if PreCharging(u) then PRECHARGE_POWERDELIVERY
      else CURRENTDEMAND_POWERDELIVERY;
  }

  /** A conversation is in one phase only. */
  lemma PhaseIsUnique(t: seq<Exchange>, state: nat, state': nat)
    requires InPhase(t, state) && InPhase(t, state')
    ensures state == state'
  {
    if t != [] {
      LastTellsPhase(t, state);
      LastTellsPhase(t, state');
    }
  }

  /** The table row of a state lists what continues the conversation in its phase. */
  lemma InTurnIsAllowed(t: seq<Exchange>, state: nat, e: Exchange)
    requires state < TABLE_SIZE && InPhase(t, state) && InTurn(t, e) && !Ignored(e.req)
    ensures TypeOf(e.req) in Row(state)
    ensures state == CURRENTDEMAND_POWERDELIVERY ==> !IsReady(e)
  {
    assert Init(t + [e]) == t && Last(t + [e]) == e;
    if e.req.SessionStopReq? {
      StopIsAllowed(t, state);
    } else {
      UnfinishedIsInPhase(t + [e]);
      var before := RowsFollowPhases(t + [e], Target(e));
      PhaseIsUnique(t, state, before);
    }
  }

  lemma StopIsAllowed(t: seq<Exchange>, state: nat)
    requires state < TABLE_SIZE && InPhase(t, state) && MayStop(t)
    ensures SessionStop in Row(state)
  {
    UnfinishedIsInPhase(t);
    LastTellsPhase(t, state);
  }

  lemma AcceptedIsInTurn(t: seq<Exchange>, c: Context, input: Incoming)
    requires InTable(c) && InPhase(t, c.state) && !c.evse.connectionTerminated
    requires c.lastMsg == CurrentDemand <==> c.state == CURRENTDEMAND_POWERDELIVERY
    requires Accepted(Step(c, input).1)
    ensures InTurn(t, Exchange(input.req, Step(c, input).1, c.evse))
  {
    if input.req.SessionStopReq? {
      RowAllowsStop(t, c.state);
    } else {
      PhaseStep(t, c, input);
    }
  }

  lemma RowAllowsStop(t: seq<Exchange>, state: nat)
    requires state < TABLE_SIZE && InPhase(t, state) && SessionStop in Row(state)
    ensures MayStop(t)
  {
  }

  /** What a request has to meet besides its turn, by its kind. */
  predicate Meets(evse: Evse, req: Request) {
    match req
    case ServiceDiscoveryReq => evse.externalPaymentAllowed
    case ServicePaymentSelectionReq(external, onlyChargeService) => external && onlyChargeService
    case ChargeParameterDiscoveryReq(typeOffered, acParameter) => typeOffered && !acParameter
    case PowerDeliveryReq(readyToCharge, tariffKnown) =>
      tariffKnown && (readyToCharge ==> evse.chargeStatusReady && !evse.emergencyShutdown)
    case _ => true
  }

  lemma MeetsMeansNoOwnFault(c: Context, input: Incoming)
    requires !Ignored(input.req)
    ensures OwnCode(Announced(c, input), input.req).IsFailure() <==> !Meets(c.evse, input.req)
  {
    var faults := OwnFaults(c.evse, input.req);
    OwnFaultIsNamed(c, input);
    NoFault(faults, Success(input.req), OwnCode(Announced(c, input), input.req));
    if k :| 0 <= k < |faults| && faults[k].holds {
      assert k == 0 || k == 1;
    }
  }

  /** Allowed by the row, for this session and without an abort: the answer is the handler's own code. */
  lemma AnsweredByHandler(c: Context, input: Incoming)
    requires InTable(c) && !Ignored(input.req) && !c.evse.connectionTerminated
    ensures var reply := Step(c, input).1;
            Accepted(reply) <==>
              && TypeOf(input.req) in Row(c.state)
              && (input.req.SessionSetupReq? || c.sessionId == input.receivedId)
              && !c.evse.stopHlc && !c.evse.emergencyShutdown
              && Meets(c.evse, input.req)
              && !RestartsCharging(c, input.req)
  {
    MeetsMeansNoOwnFault(c, input);
  }

  /**
   * While the connection is up, a request is accepted exactly if it comes in turn, names the
   * session, nothing aborts the session, and it meets what its kind has to meet.
   */
  lemma AcceptedExactlyInTurn(s: Session, input: Incoming)
    requires Inv(s) && s.open && !Ignored(input.req) && !s.ctx.evse.connectionTerminated
    ensures var reply := Step(s.ctx, input).1;
            Accepted(reply) <==>
              && InTurn(s.accepted, Exchange(input.req, reply, s.ctx.evse))
              && (input.req.SessionSetupReq? || s.ctx.sessionId == input.receivedId)
              && !s.ctx.evse.stopHlc && !s.ctx.evse.emergencyShutdown
              && Meets(s.ctx.evse, input.req)
  {
    var reply := Step(s.ctx, input).1;
    var e := Exchange(input.req, reply, s.ctx.evse);
    AnsweredByHandler(s.ctx, input);
    if Accepted(reply) {
      PhaseStep(s.accepted, s.ctx, input);
      AcceptedIsInTurn(s.accepted, s.ctx, input);
    } else if InTurn(s.accepted, e) {
      InTurnIsAllowed(s.accepted, s.ctx.state, e);
    }
  }

  /** In turn, for the session and with nothing to abort, a request that is refused is told its own fault. */
  lemma RefusedInTurn(s: Session, input: Incoming)
    requires Inv(s) && s.open && !Ignored(input.req) && !s.ctx.evse.connectionTerminated
    requires InTurn(s.accepted, Exchange(input.req, Step(s.ctx, input).1, s.ctx.evse))
    requires input.req.SessionSetupReq? || s.ctx.sessionId == input.receivedId
    requires !s.ctx.evse.stopHlc && !s.ctx.evse.emergencyShutdown
    ensures Names(OwnFaults(s.ctx.evse, input.req), Success(input.req), Step(s.ctx, input).1.code)
  {
    InTurnIsAllowed(s.accepted, s.ctx.state, Exchange(input.req, Step(s.ctx, input).1, s.ctx.evse));
    OwnFaultIsNamed(s.ctx, input);
  }

  /** Once the physical connection is gone, SessionStop is answered with OK in every state and for every session. */
  lemma StopOutOfTurn(s: Session, input: Incoming)
    requires Inv(s) && s.open && input.req.SessionStopReq?
    ensures Accepted(Step(s.ctx, input).1) <==>
              || s.ctx.evse.connectionTerminated
              || (&& MayStop(s.accepted) && s.ctx.sessionId == input.receivedId
                  && !s.ctx.evse.stopHlc && !s.ctx.evse.emergencyShutdown)
  {
    if !s.ctx.evse.connectionTerminated {
      AcceptedExactlyInTurn(s, input);
    }
  }
}
