/**
 * When an ISO 15118-2 session accepts a second PowerDelivery(Start) without a new
 * ChargeParameterDiscovery. The server refuses it only if it remembers a charging message as
 * the last one, so any other message that the charging states let through opens the gap.
 */
module IsoRestart {
  import opened V2g
  import opened IsoSafety
  import opened IsoServer

  /** A Start has been accepted, and no ChargeParameterDiscovery since. */
  predicate Started(t: seq<Exchange>) {
    t != [] &&
    if TakesStart(t[|t| - 1]) then true
    else !Takes(t[|t| - 1], ChargeParameterDiscovery) && Started(t[..|t| - 1])
  }

  /** States in which a charger of this kind expects charging messages or the end of charging. */
  function ChargingState(isDc: bool): nat {
    if isDc then DC_CURRENTDEMAND_POWERDELIVERY else AC_CHARGINGSTATUS_POWERDELIVERY
  }

  function ChargingMsg(isDc: bool): Msg {
    if isDc then CurrentDemand else ChargingStatus
  }

  /** States between ChargeParameterDiscovery and Start. */
  predicate Preparing(state: nat, isDc: bool) {
    if isDc then DC_CABLECHECK <= state <= DC_PRECHARGE_POWERDELIVERY else state == AC_POWERDELIVERY
  }

  /**
   * The server remembers the last exchange; it is not back in preparation once started; and where
   * charging can end it remembers one of three messages.
   */
  predicate Guarded(s: Session) {
    s.open ==>
      && s.ctx.lastMsg == Remembered(s.trace)
      && (Started(s.trace) ==> !Preparing(s.ctx.state, s.ctx.isDc))
      && (s.ctx.state == ChargingState(s.ctx.isDc) ==>
            s.ctx.lastMsg in {ChargingMsg(s.ctx.isDc), MeteringReceipt, CertificateUpdate})
  }

  lemma OneMore(t: seq<Exchange>, e: Exchange)
    ensures Remembered(t + [e]) == if e.reply.event == IgnoreMsg then Remembered(t) else TypeOf(e.req)
    ensures Started(t + [e]) <==> TakesStart(e) || (!Takes(e, ChargeParameterDiscovery) && Started(t))
  {
    assert (t + [e])[..|t|] == t;
  }

  /** Only charging messages, a receipt and a certificate update leave a session where charging can end. */
  lemma ChargingStateStep(c: Context, input: Incoming)
    requires InTable(c)
    requires c.state == ChargingState(c.isDc) ==> c.lastMsg in {ChargingMsg(c.isDc), MeteringReceipt, CertificateUpdate}
    ensures var (c', reply) := Step(c, input);
            Continues(reply.event) && c'.state == ChargingState(c.isDc) ==>
              c'.lastMsg in {ChargingMsg(c.isDc), MeteringReceipt, CertificateUpdate}
  {
    PassesTable(c, input);
    StepRemembers(c, input);
  }

  /** Preparation begins with an accepted ChargeParameterDiscovery and ends with an accepted Start. */
  lemma PreparationStep(c: Context, input: Incoming)
    requires InTable(c)
    ensures var (c', reply) := Step(c, input);
            var e := Exchange(input.req, reply, c.evse);
            Continues(reply.event) && Preparing(c'.state, c.isDc) ==>
              !TakesStart(e) && (Preparing(c.state, c.isDc) || Takes(e, ChargeParameterDiscovery))
  {
    PassesTable(c, input);
  }

  lemma GuardedStep(s: Session, input: Incoming)
    requires IsoSafety.Inv(s) && Guarded(s) && s.open
    ensures Guarded(Advance(s, Receive(input)))
  {
    OneMore(s.trace, Exchange(input.req, Step(s.ctx, input).1, s.ctx.evse));
    StepRemembers(s.ctx, input);
    ChargingStateStep(s.ctx, input);
    PreparationStep(s.ctx, input);
  }

  /** On one context: a Start passes its late check exactly if no charging message is remembered. */
  lemma StartExactly(c: Context, input: Incoming)
    requires InTable(c) && input.req.PowerDeliveryReq? && input.req.progress == Start
    ensures Accepted(Step(c, input).1) <==>
              && Validates(c, input) && MayStart(c.isDc, c.evse, input.req)
              && c.lastMsg != CurrentDemand && c.lastMsg != ChargingStatus
  {
    AcceptedExactly(c, input);
  }

  /** Rows that list PowerDelivery are those of preparation and of the end of charging. */
  lemma WherePowerDeliveryIsListed(state: nat, isDc: bool)
    requires state < TableSize(isDc) && PowerDelivery in Row(state, isDc)
    ensures Preparing(state, isDc) || state == ChargingState(isDc)
  {
  }

  /** While a session is open and started, the server lets a further Start pass only in a gap. */
  lemma StartInGap(s: Session, input: Incoming)
    requires IsoSafety.Inv(s) && Guarded(s) && s.open && Started(s.trace)
    requires input.req.PowerDeliveryReq? && input.req.progress == Start
    ensures Accepted(Step(s.ctx, input).1) <==>
              && Validates(s.ctx, input) && MayStart(s.ctx.isDc, s.ctx.evse, input.req)
              && (Remembered(s.trace) == MeteringReceipt || Remembered(s.trace) == CertificateUpdate)
  {
    StartExactly(s.ctx, input);
    if Validates(s.ctx, input) {
      WherePowerDeliveryIsListed(s.ctx.state, s.ctx.isDc);
    }
  }

  /** Every accepted Start that follows another one comes right after one of the two messages. */
  predicate Explained(t: seq<Exchange>) {
    forall k | 0 <= k < |t| && TakesStart(t[k]) && Started(t[..k]) ::
      Remembered(t[..k]) == MeteringReceipt || Remembered(t[..k]) == CertificateUpdate
  }

  lemma ExplainedOneMore(t: seq<Exchange>, e: Exchange)
    requires Explained(t)
    requires TakesStart(e) && Started(t) ==> Remembered(t) == MeteringReceipt || Remembered(t) == CertificateUpdate
    ensures Explained(t + [e])
  {
    forall k | 0 <= k < |t| + 1 && TakesStart((t + [e])[k]) && Started((t + [e])[..k])
      ensures Remembered((t + [e])[..k]) == MeteringReceipt || Remembered((t + [e])[..k]) == CertificateUpdate
    {
      assert (t + [e])[..k] == t[..k];
      assert t[..|t|] == t;
    }
  }

  lemma ExplainedStep(s: Session, input: Incoming)
    requires IsoSafety.Inv(s) && Guarded(s) && s.open && Explained(s.trace)
    ensures Explained(Advance(s, Receive(input)).trace)
  {
    var e := Exchange(input.req, Step(s.ctx, input).1, s.ctx.evse);
    if TakesStart(e) && Started(s.trace) {
      StartInGap(s, input);
    }
    ExplainedOneMore(s.trace, e);
  }

  lemma {:induction false} RunIsGuarded(c: Context, actions: seq<Action>)
    requires Initial(c)
    ensures Guarded(IsoSafety.Run(c, actions)) && Explained(IsoSafety.Run(c, actions).trace)
  {
    if actions != [] {
      var n := |actions| - 1;
      RunIsGuarded(c, actions[..n]);
      var s := IsoSafety.Run(c, actions[..n]);
      if actions[n].Receive? && s.open {
        GuardedStep(s, actions[n].input);
        ExplainedStep(s, actions[n].input);
      }
    }
  }

  /**
   * In every run: once a Start has been accepted and no ChargeParameterDiscovery since, a further
   * Start is accepted if and only if it validates, the charger can start, and the last exchange that
   * was not ignored is a MeteringReceipt or a CertificateUpdate.
   */
  lemma RestartExactly(c: Context, actions: seq<Action>, input: Incoming)
    requires Initial(c)
    requires input.req.PowerDeliveryReq? && input.req.progress == Start
    requires IsoSafety.Run(c, actions).open && Started(IsoSafety.Run(c, actions).trace)
    ensures var s := IsoSafety.Run(c, actions);
            Accepted(Step(s.ctx, input).1) <==>
              && Validates(s.ctx, input) && MayStart(s.ctx.isDc, s.ctx.evse, input.req)
              && (Remembered(s.trace) == MeteringReceipt || Remembered(s.trace) == CertificateUpdate)
  {
    RunIsGuarded(c, actions);
    StartInGap(IsoSafety.Run(c, actions), input);
  }

  /** In hindsight: every accepted Start that follows another one comes right after one of the two messages. */
  lemma RestartsFollowTheirGap(c: Context, actions: seq<Action>, k: nat)
    requires Initial(c)
    requires k < |IsoSafety.Run(c, actions).trace| && TakesStart(IsoSafety.Run(c, actions).trace[k])
    requires Started(IsoSafety.Run(c, actions).trace[..k])
    ensures var before := IsoSafety.Run(c, actions).trace[..k];
            Remembered(before) == MeteringReceipt || Remembered(before) == CertificateUpdate
  {
    RunIsGuarded(c, actions);
  }

  // ---------------------------------------------------------------------------
  // Both gaps are reachable
  // ---------------------------------------------------------------------------

  /** An ordinary DC contract session that ends in a gap: a receipt is asked for, or a certificate update comes. */
  function RequestAt(receipt: bool, i: nat): Request {
    if i == 0 then SessionSetupReq(1)
    else if i == 1 then ServiceDiscoveryReq(true)
    else if i == 2 then PaymentServiceSelectionReq(Contract, true, true, true)
    else if i == 3 then PaymentDetailsReq(ChainAccepted)
    else if i == 4 then AuthorizationReq(true, true, true, false, false, false)
    else if i == 5 then ChargeParameterDiscoveryReq(true, false)
    else if i == 6 then CableCheckReq
    else if i == 7 then PreChargeReq
    else if i == 8 then PowerDeliveryReq(Start, true, false)
    else if i == 9 then CurrentDemandReq
    else if receipt then MeteringReceiptReq
    else CertificateUpdateReq
  }

  const REQUESTS := 11

  function StateAt(receipt: bool, i: nat): nat {
    if i == 0 then SESSIONSETUP
    else if i == 1 then SERVICEDISCOVERY
    else if i == 2 then SVCDETAIL_PAYMENTSVCSEL
    else if i == 3 then PAYMENTDETAILS_CERTINST_CERTUPD
    else if i == 4 then AUTHORIZATION
    else if i == 5 then CHARGEPARAMETERDISCOVERY
    else if i == 6 then DC_CABLECHECK
    else if i == 7 then DC_PRECHARGE
    else if i == 8 then DC_PRECHARGE_POWERDELIVERY
    else if i == 9 then DC_CURRENTDEMAND
    else if receipt && i == 10 then DC_METERINGRECEIPT
    else DC_CURRENTDEMAND_POWERDELIVERY
  }

  /** The context before request `i`, with nothing wrong on the charger's side. */
  function ContextAt(receipt: bool, i: nat): Context {
    var msg := if i == 0 then UnknownMsg else TypeOf(RequestAt(receipt, i - 1));
    var id := if i == 0 then 0 else 1;
    Context(true, StateAt(receipt, i), msg, msg, id, id, if i < 3 then ExternalPayment else Contract,
            Evse(false, false, false, Finished, Finished, Finished, true, receipt, true))
  }

  /** An accepted request takes an open session from one context to the next. */
  predicate Goes(from: Context, req: Request, to: Context) {
    && InTable(from)
    && Step(from, Incoming(1, req)).0 == to
    && Accepted(Step(from, Incoming(1, req)).1)
    && Step(from, Incoming(1, req)).1.event == NoEvent
  }

  lemma EarlyRequests(receipt: bool, i: nat)
    requires i < 6
    ensures Goes(ContextAt(receipt, i), RequestAt(receipt, i), ContextAt(receipt, i + 1))
  {
  }

  lemma LaterRequests(receipt: bool, i: nat)
    requires 6 <= i < REQUESTS
    ensures Goes(ContextAt(receipt, i), RequestAt(receipt, i), ContextAt(receipt, i + 1))
  {
  }

  lemma RunOneMore(c: Context, actions: seq<Action>, a: Action)
    requires Initial(c)
    ensures IsoSafety.Run(c, actions + [a]) == Advance(IsoSafety.Run(c, actions), a)
  {
    assert (actions + [a])[..|actions|] == actions;
  }

  lemma GoesOn(s: Session, req: Request, to: Context)
    requires IsoSafety.Inv(s) && s.open && Goes(s.ctx, req, to)
    ensures var s' := Advance(s, Receive(Incoming(1, req)));
            && s'.open && s'.ctx == to && Remembered(s'.trace) == TypeOf(req)
            && (Started(s'.trace) <==> (req.PowerDeliveryReq? && req.progress == Start)
                                       || (Started(s.trace) && !req.ChargeParameterDiscoveryReq?))
  {
    OneMore(s.trace, Exchange(req, Step(s.ctx, Incoming(1, req)).1, s.ctx.evse));
  }

  /** The first `n` requests of the session lead to their context; it is started from the ninth on. */
  lemma {:induction false} Reached(receipt: bool, n: nat) returns (actions: seq<Action>)
    requires n <= REQUESTS
    ensures var s := IsoSafety.Run(ContextAt(receipt, 0), actions);
            && s.open && s.ctx == ContextAt(receipt, n)
            && (Started(s.trace) <==> n >= 9)
            && (n > 0 ==> Remembered(s.trace) == TypeOf(RequestAt(receipt, n - 1)))
  {
    if n == 0 {
      actions := [];
    } else {
      var i := n - 1;
      actions := Reached(receipt, i);
      if i < 6 {
        EarlyRequests(receipt, i);
      } else {
        LaterRequests(receipt, i);
      }
      GoesOn(IsoSafety.Run(ContextAt(receipt, 0), actions), RequestAt(receipt, i), ContextAt(receipt, n));
      RunOneMore(ContextAt(receipt, 0), actions, Receive(Incoming(1, RequestAt(receipt, i))));
      actions := actions + [Receive(Incoming(1, RequestAt(receipt, i)))];
    }
  }

  /** The context answers a Start below FAILED. */
  predicate Restarts(c: Context) {
    InTable(c) && Accepted(Step(c, Incoming(1, PowerDeliveryReq(Start, true, false))).1)
  }

  lemma RestartPasses(c: Context)
    requires c.isDc && c.state == DC_CURRENTDEMAND_POWERDELIVERY && c.sessionId == 1
    requires c.lastMsg != CurrentDemand && c.lastMsg != ChargingStatus
    requires !c.evse.stopHlc && !c.evse.emergencyShutdown && !c.evse.connectionTerminated && c.evse.chargeStatusReady
    ensures Restarts(c)
  {
    StartExactly(c, Incoming(1, PowerDeliveryReq(Start, true, false)));
  }

  lemma EndsInGap(receipt: bool, n: nat)
    requires n == REQUESTS
    ensures Restarts(ContextAt(receipt, n))
    ensures TypeOf(RequestAt(receipt, n - 1)) == if receipt then MeteringReceipt else CertificateUpdate
  {
    RestartPasses(ContextAt(receipt, n));
  }

  /** A started session that would accept a further Start, although `msg` and no charging came last. */
  predicate InGap(s: Session, msg: Msg) {
    s.open && Started(s.trace) && Remembered(s.trace) == msg && Restarts(s.ctx)
  }

  /**
   * Both gaps are reachable: an ordinary session in which every message is validated accepts a second
   * Start after a MeteringReceipt, and one without receipts accepts it after a CertificateUpdate.
   */
  lemma BothGapsAreReachable(receipt: bool) returns (actions: seq<Action>)
    ensures InGap(IsoSafety.Run(ContextAt(receipt, 0), actions), if receipt then MeteringReceipt else CertificateUpdate)
  {
    actions := Reached(receipt, REQUESTS);
    EndsInGap(receipt, REQUESTS);
  }
}
