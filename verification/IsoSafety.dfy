/**
 * Safety of the ISO 15118-2 server over whole sessions: any sequence of requests,
 * interleaved with arbitrary changes of the EVSE-side inputs, ended by the first
 * event after which the connection loop reads no further request.
 */
module IsoSafety {
  import opened V2g
  import opened IsoServer

  /** A request, its answer, and the EVSE-side inputs that the server found. */
  datatype Exchange = Exchange(req: Request, reply: Reply, evse: Evse)

  datatype Action =
    | Environment(evse: Evse)
    | Receive(input: Incoming)
    | Disconnect

  datatype Session = Session(ctx: Context, open: bool, trace: seq<Exchange>)

  function Advance(s: Session, a: Action): Session
    requires s.open ==> InTable(s.ctx)
  {
    match a
    case Environment(evse) => s.(ctx := s.ctx.(evse := evse))
    case Disconnect => s.(open := false)
    case Receive(input) =>
      if !s.open then s
      else
        var (ctx, reply) := Step(s.ctx, input);
        Session(ctx, Continues(reply.event), s.trace + [Exchange(input.req, reply, s.ctx.evse)])
  }

  /** The context in which a connection starts. */
  predicate Initial(c: Context) {
    && c.state == SESSIONSETUP
    && c.lastMsg == UnknownMsg
    && c.currentMsg == UnknownMsg
  }

  /** A session after a sequence of actions; `Advance` is applied from the left. */
  function Run(c: Context, actions: seq<Action>): (s: Session)
    requires Initial(c)
    ensures s.ctx.isDc == c.isDc
    ensures Inv(s)
  {
    if actions == [] then Session(c, true, [])
    else
      var s := Run(c, actions[..|actions| - 1]);
      InvStep(s, actions[|actions| - 1]);
      Advance(s, actions[|actions| - 1])
  }

  // ---------------------------------------------------------------------------
  // The charging chain, told from the exchanges alone
  // ---------------------------------------------------------------------------

  predicate Takes(e: Exchange, m: Msg) {
    TypeOf(e.req) == m && Accepted(e.reply)
  }

  predicate TakesFinished(e: Exchange, m: Msg) {
    Takes(e, m) && e.reply.processing == Finished
  }

  predicate TakesStart(e: Exchange) {
    Takes(e, PowerDelivery) && e.req.progress == Start
  }

  /** Energy is exchanged by CurrentDemand on a DC charger and by ChargingStatus on an AC charger. */
  predicate TakesCharging(e: Exchange, isDc: bool) {
    Takes(e, if isDc then CurrentDemand else ChargingStatus)
  }

  /**
   * The exchanges that must precede charging: a finished Authorization at `a`; later the
   * most recent accepted ChargeParameterDiscovery, finished, at `p`; and after it, on a DC
   * charger, a finished CableCheck, then a PreCharge, then a PowerDelivery(Start).
   */
  ghost predicate Chain(t: seq<Exchange>, isDc: bool, a: nat, p: nat, c: nat, q: nat, d: nat) {
    && a < p < |t| && p < d < |t|
    && TakesFinished(t[a], Authorization)
    && TakesFinished(t[p], ChargeParameterDiscovery)
    && (forall j | p < j < |t| :: !Takes(t[j], ChargeParameterDiscovery))
    && TakesStart(t[d])
    && (isDc ==> p < c < q < d && TakesFinished(t[c], CableCheck) && Takes(t[q], PreCharge))
  }

  // ---------------------------------------------------------------------------
  // How far along the chain a trace is
  // ---------------------------------------------------------------------------

  /** Number of stages a session passes before it charges. */
  function Stages(isDc: bool): nat {
    if isDc then 5 else 3
  }

  /** An exchange that leads from stage `n` to the next one; stage 1 is authorised, stage 2 parametrised. */
  predicate Leads(isDc: bool, n: nat, e: Exchange) {
    if isDc then
      (n == 2 && TakesFinished(e, CableCheck)) || (n == 3 && Takes(e, PreCharge)) || (n == 4 && TakesStart(e))
    else n == 2 && TakesStart(e)
  }

  function Progress(t: seq<Exchange>, isDc: bool): (n: nat)
    ensures n <= Stages(isDc)
  {
    if t == [] then 0
    else
      var n := Progress(t[..|t| - 1], isDc);
      Onward(n, t[|t| - 1], isDc)
  }

  function Onward(n: nat, e: Exchange, isDc: bool): nat {
    if Takes(e, ChargeParameterDiscovery) then
      (if n == 0 then 0 else if e.reply.processing == Finished then 2 else 1)
    else if n == 0 && TakesFinished(e, Authorization) then 1
    else if Leads(isDc, n, e) then n + 1
    else n
  }

  lemma ProgressOfAppend(t: seq<Exchange>, e: Exchange, isDc: bool)
    ensures Progress(t + [e], isDc) == Onward(Progress(t, isDc), e, isDc)
  {
    assert (t + [e])[..|t|] == t;
  }

  /** The exchanges that witness a stage, each at a position of the trace. */
  ghost predicate Reached(t: seq<Exchange>, isDc: bool, n: nat, w: (nat, nat, nat, nat, nat)) {
    var (a, p, c, q, d) := w;
    && (n >= 1 ==> a < |t| && TakesFinished(t[a], Authorization))
    && (n >= 2 ==>
          && a < p < |t| && TakesFinished(t[p], ChargeParameterDiscovery)
          && forall j | p < j < |t| :: !Takes(t[j], ChargeParameterDiscovery))
    && (isDc && n >= 3 ==> p < c < |t| && TakesFinished(t[c], CableCheck))
    && (isDc && n >= 4 ==> c < q < |t| && Takes(t[q], PreCharge))
    && (isDc && n >= 5 ==> q < d < |t| && TakesStart(t[d]))
    && (!isDc && n >= 3 ==> p < d < |t| && TakesStart(t[d]))
  }

  lemma WitnessOneMore(t: seq<Exchange>, e: Exchange, isDc: bool, n: nat, w: (nat, nat, nat, nat, nat))
      returns (w': (nat, nat, nat, nat, nat))
    requires Reached(t, isDc, n, w)
    ensures Reached(t + [e], isDc, Onward(n, e, isDc), w')
  {
    var k := |t|;
    var (a, p, c, q, d) := w;
    w' := w;
    if Takes(e, ChargeParameterDiscovery) {
      w' := (a, k, c, q, d);
    } else if n == 0 && TakesFinished(e, Authorization) {
      w' := (k, p, c, q, d);
    } else if Leads(isDc, n, e) {
      if isDc && n == 2 {
        w' := (a, p, k, q, d);
      } else if isDc && n == 3 {
        w' := (a, p, c, k, d);
      } else {
        w' := (a, p, c, q, k);
      }
    }
  }

  lemma {:induction false} ProgressIsWitnessed(t: seq<Exchange>, isDc: bool) returns (w: (nat, nat, nat, nat, nat))
    ensures Reached(t, isDc, Progress(t, isDc), w)
  {
    if t == [] {
      w := (0, 0, 0, 0, 0);
    } else {
      var front, e := t[..|t| - 1], t[|t| - 1];
      assert front + [e] == t;
      w := ProgressIsWitnessed(front, isDc);
      w := WitnessOneMore(front, e, isDc, Progress(front, isDc), w);
    }
  }

  // ---------------------------------------------------------------------------
  // The invariant of an open session
  // ---------------------------------------------------------------------------

  /** Least progress that each state guarantees. */
  function Promised(state: nat, isDc: bool): nat {
    if state < CHARGEPARAMETERDISCOVERY then 0
    else if state == CHARGEPARAMETERDISCOVERY then 1
    else if isDc then
      (if state == DC_CABLECHECK then 2
       else if state == DC_PRECHARGE then 3
       else if state == DC_PRECHARGE_POWERDELIVERY then 4
       else if state <= DC_METERINGRECEIPT then 5
       else 0)
    else if state == AC_POWERDELIVERY then 2
    else if state <= AC_METERINGRECEIPT then 3
    else 0
  }

  /** Every charging exchange happened when the exchanges before it had passed all stages. */
  predicate ChargedInOrder(t: seq<Exchange>, isDc: bool) {
    forall k | 0 <= k < |t| && TakesCharging(t[k], isDc) :: Progress(t[..k], isDc) == Stages(isDc)
  }

  ghost predicate Inv(s: Session) {
    && (s.open ==> InTable(s.ctx) && Progress(s.trace, s.ctx.isDc) >= Promised(s.ctx.state, s.ctx.isDc))
    && ChargedInOrder(s.trace, s.ctx.isDc)
  }

  /**
   * A session goes on from a validated request, or accepts it, only if the state's row lists it; the one
   * exception is a SessionStop after the physical connection is gone.
   */
  lemma PassesTable(c: Context, input: Incoming)
    requires InTable(c)
    ensures var reply := Step(c, input).1;
            !Unvalidated(input.req) && !input.req.UnsupportedReq? && (Continues(reply.event) || Accepted(reply)) ==>
              TypeOf(input.req) in Row(c.state, c.isDc)
              || (input.req.SessionStopReq? && c.evse.connectionTerminated && !Continues(reply.event))
  {
    var a := Announced(c, input);
    assert !input.req.UnsupportedReq? ==> Prepared(a, input.req).currentMsg == TypeOf(input.req);
  }

  /**
   * SessionStop is accepted where the table lists it, for the session and with nothing to abort, or in any
   * state once the physical connection is gone; but a pause only right after PowerDelivery or WeldingDetection.
   */
  lemma StopOutOfTurn(c: Context, input: Incoming)
    requires InTable(c) && input.req.SessionStopReq?
    ensures Accepted(Step(c, input).1) <==>
              && (input.req.session == PauseSession ==> c.lastMsg == PowerDelivery || c.lastMsg == WeldingDetection)
              && (|| c.evse.connectionTerminated
                  || (&& SessionStop in Row(c.state, c.isDc) && c.sessionId == input.receivedId
                      && !c.evse.stopHlc && !c.evse.emergencyShutdown))
  {
    AcceptedExactly(c, input);
  }

  /** What one exchange does to the promise: states that a session goes on from are never promised too much. */
  lemma PromiseKept(c: Context, input: Incoming, n: nat)
    requires InTable(c) && Promised(c.state, c.isDc) <= n <= Stages(c.isDc)
    ensures var (c', reply) := Step(c, input);
            var e := Exchange(input.req, reply, c.evse);
            && c'.isDc == c.isDc
            && (TakesCharging(e, c.isDc) ==> n == Stages(c.isDc))
            && (Continues(reply.event) ==>
                  InTable(c') && Promised(c'.state, c.isDc) <= Onward(n, e, c.isDc))
  {
    PassesTable(c, input);
  }

  lemma InvStep(s: Session, a: Action)
    requires Inv(s)
    ensures Inv(Advance(s, a)) && Advance(s, a).ctx.isDc == s.ctx.isDc
  {
    if a.Receive? && s.open {
      var (ctx, reply) := Step(s.ctx, a.input);
      var e := Exchange(a.input.req, reply, s.ctx.evse);
      PromiseKept(s.ctx, a.input, Progress(s.trace, s.ctx.isDc));
      ProgressOfAppend(s.trace, e, s.ctx.isDc);
      forall k | 0 <= k < |s.trace + [e]| && TakesCharging((s.trace + [e])[k], s.ctx.isDc)
        ensures Progress((s.trace + [e])[..k], s.ctx.isDc) == Stages(s.ctx.isDc)
      {
        if k < |s.trace| {
          assert (s.trace + [e])[..k] == s.trace[..k];
        } else {
          assert (s.trace + [e])[..k] == s.trace;
        }
      }
    }
  }

  // ---------------------------------------------------------------------------
  // What the charger and the EV had to contribute
  // ---------------------------------------------------------------------------

  /** The type of the last exchange that was not ignored, told from the exchanges alone. */
  function Remembered(t: seq<Exchange>): Msg {
    if t == [] then UnknownMsg
    else if t[|t| - 1].reply.event == IgnoreMsg then Remembered(t[..|t| - 1])
    else TypeOf(t[|t| - 1].req)
  }

  lemma RememberedOneMore(t: seq<Exchange>, e: Exchange)
    ensures Remembered(t + [e]) == if e.reply.event == IgnoreMsg then Remembered(t) else TypeOf(e.req)
  {
    assert (t + [e])[..|t|] == t;
  }

  lemma StepRemembers(c: Context, input: Incoming)
    requires InTable(c)
    ensures var (c', reply) := Step(c, input);
            reply.event != IgnoreMsg <==> !input.req.UnsupportedReq?
    ensures var (c', reply) := Step(c, input);
            c'.isDc == c.isDc && c'.lastMsg == if input.req.UnsupportedReq? then c.lastMsg else TypeOf(input.req)
  {
  }

  /** The payment option in force: contract as soon as it has been selected, and for good. */
  function PaymentOf(initial: PaymentOption, t: seq<Exchange>): PaymentOption {
    if t == [] then initial
    else
      match t[|t| - 1].req
      case PaymentServiceSelectionReq(Contract, _, _, _) => Contract
      case _ => PaymentOf(initial, t[..|t| - 1])
  }

  lemma PaymentOneMore(initial: PaymentOption, t: seq<Exchange>, e: Exchange)
    ensures PaymentOf(initial, t + [e]) ==
              match e.req case PaymentServiceSelectionReq(Contract, _, _, _) => Contract case _ => PaymentOf(initial, t)
  {
    assert (t + [e])[..|t|] == t;
  }

  /** An AuthorizationReq that answers the challenge and is properly signed. */
  predicate Proves(req: Request) {
    req.AuthorizationReq? && req.challengeOk && req.signed && req.signatureOk
  }

  /** The last exchanges that count are AuthorizationReqs, and the first of them proves the contract. */
  predicate Proven(t: seq<Exchange>) {
    t != [] &&
    var front, e := t[..|t| - 1], t[|t| - 1];
    if e.reply.event == IgnoreMsg then Proven(front)
    else e.req.AuthorizationReq? && (Proves(e.req) || (Remembered(front) == Authorization && Proven(front)))
  }

  lemma ProvenOneMore(t: seq<Exchange>, e: Exchange)
    ensures Proven(t + [e]) <==>
              if e.reply.event == IgnoreMsg then Proven(t)
              else e.req.AuthorizationReq? && (Proves(e.req) || (Remembered(t) == Authorization && Proven(t)))
  {
    assert (t + [e])[..|t|] == t;
  }

  /** The charger can start: it is ready and in no emergency, or its contactor is closed or still may close. */
  predicate MayStart(isDc: bool, evse: Evse, req: Request)
    requires req.PowerDeliveryReq?
  {
    req.tariffKnown
    && if isDc then evse.chargeStatusReady && !evse.emergencyShutdown else evse.contactorClosed || !req.contactorOverdue
  }

  /** An exchange that leads on has what it takes from the request and from the charger. */
  predicate Backed(e: Exchange, isDc: bool) {
    && (TakesFinished(e, Authorization) ==> e.evse.authProcessing == Finished && !e.req.rejected)
    && (TakesFinished(e, ChargeParameterDiscovery) ==>
          e.evse.parameterProcessing == Finished && e.req.modeSupported && !e.req.wrongParameter)
    && (TakesFinished(e, CableCheck) ==> e.evse.isolationProcessing == Finished)
    && (TakesStart(e) ==> MayStart(isDc, e.evse, e.req))
  }

  /** Exchange `k` is backed, and an authorization for a contract is proven. */
  predicate Sound(initial: PaymentOption, isDc: bool, t: seq<Exchange>, k: nat)
    requires k < |t|
  {
    Backed(t[k], isDc) && (Takes(t[k], Authorization) && PaymentOf(initial, t[..k]) == Contract ==> Proven(t[..k + 1]))
  }

  lemma BackedStep(c: Context, input: Incoming)
    requires InTable(c)
    ensures Backed(Exchange(input.req, Step(c, input).1, c.evse), c.isDc)
  {
    AcceptedExactly(c, input);
  }

  /** An accepted AuthorizationReq for a contract proves it, unless it repeats one. */
  lemma AuthorizationProves(c: Context, input: Incoming)
    requires InTable(c) && input.req.AuthorizationReq?
    requires Accepted(Step(c, input).1) && c.payment == Contract && c.lastMsg != Authorization
    ensures Proves(input.req)
  {
    AcceptedExactly(c, input);
  }

  /** A session that goes on after an AuthorizationReq has accepted it. */
  lemma AuthorizationIsAccepted(c: Context, input: Incoming)
    requires InTable(c) && input.req.AuthorizationReq?
    ensures Continues(Step(c, input).1.event) ==> Accepted(Step(c, input).1)
    ensures Step(c, input).1.event != IgnoreMsg
  {
  }

  /** What an open session remembers, and that an authorization for a contract has been proven. */
  predicate Remembers(initial: PaymentOption, s: Session) {
    && s.ctx.payment == PaymentOf(initial, s.trace)
    && (s.open ==> s.ctx.lastMsg == Remembered(s.trace))
    && (s.open && Remembered(s.trace) == Authorization && s.ctx.payment == Contract ==> Proven(s.trace))
  }

  lemma RemembersStep(initial: PaymentOption, s: Session, input: Incoming)
    requires Inv(s) && s.open && Remembers(initial, s)
    ensures var s' := Advance(s, Receive(input));
            && Remembers(initial, s')
            && (Takes(s'.trace[|s.trace|], Authorization) && s.ctx.payment == Contract ==> Proven(s'.trace))
  {
    var e := Exchange(input.req, Step(s.ctx, input).1, s.ctx.evse);
    RememberedOneMore(s.trace, e);
    PaymentOneMore(initial, s.trace, e);
    ProvenOneMore(s.trace, e);
    StepRemembers(s.ctx, input);
    if input.req.AuthorizationReq? {
      AuthorizationIsAccepted(s.ctx, input);
      if Accepted(e.reply) && s.ctx.payment == Contract && s.ctx.lastMsg != Authorization {
        AuthorizationProves(s.ctx, input);
      }
    }
  }

  lemma SoundOneMore(initial: PaymentOption, isDc: bool, t: seq<Exchange>, e: Exchange)
    requires forall k | 0 <= k < |t| :: Sound(initial, isDc, t, k)
    requires Backed(e, isDc)
    requires Takes(e, Authorization) && PaymentOf(initial, t) == Contract ==> Proven(t + [e])
    ensures forall k | 0 <= k < |t + [e]| :: Sound(initial, isDc, t + [e], k)
  {
    forall k | 0 <= k < |t + [e]| ensures Sound(initial, isDc, t + [e], k) {
      if k < |t| {
        assert Sound(initial, isDc, t, k);
        assert (t + [e])[..k] == t[..k] && (t + [e])[..k + 1] == t[..k + 1];
      } else {
        assert (t + [e])[..k] == t && (t + [e])[..k + 1] == t + [e];
      }
    }
  }

  lemma SoundStep(initial: PaymentOption, s: Session, a: Action)
    requires Inv(s) && Remembers(initial, s)
    requires forall k | 0 <= k < |s.trace| :: Sound(initial, s.ctx.isDc, s.trace, k)
    ensures Remembers(initial, Advance(s, a))
    ensures forall k | 0 <= k < |Advance(s, a).trace| :: Sound(initial, s.ctx.isDc, Advance(s, a).trace, k)
  {
    if a.Receive? && s.open {
      RemembersStep(initial, s, a.input);
      BackedStep(s.ctx, a.input);
      SoundOneMore(initial, s.ctx.isDc, s.trace, Exchange(a.input.req, Step(s.ctx, a.input).1, s.ctx.evse));
    }
  }

  /** In every run, every exchange is sound. */
  lemma {:induction false} RunIsSound(c: Context, actions: seq<Action>)
    requires Initial(c)
    ensures Remembers(c.payment, Run(c, actions))
    ensures forall k | 0 <= k < |Run(c, actions).trace| :: Sound(c.payment, c.isDc, Run(c, actions).trace, k)
    decreases |actions|
  {
    if actions != [] {
      var n := |actions| - 1;
      RunIsSound(c, actions[..n]);
      SoundStep(c.payment, Run(c, actions[..n]), actions[n]);
    }
  }

  // ---------------------------------------------------------------------------
  // Main results
  // ---------------------------------------------------------------------------

  /**
   * What each link of a chain rests on: an authorization that was finished, not rejected and, for a
   * contract, proven by a signed answer to the challenge; parameters and insulation that were finished
   * at the charger; and a start for which the charger was ready.
   */
  predicate Grounded(initial: PaymentOption, isDc: bool, t: seq<Exchange>, a: nat, p: nat, f: nat, d: nat)
    requires a < |t| && p < |t| && d < |t| && (isDc ==> f < |t|)
    requires TypeOf(t[a].req) == Authorization && TypeOf(t[p].req) == ChargeParameterDiscovery
    requires TypeOf(t[d].req) == PowerDelivery
  {
    && t[a].evse.authProcessing == Finished && !t[a].req.rejected
    && (PaymentOf(initial, t[..a]) == Contract ==> Proven(t[..a + 1]))
    && t[p].evse.parameterProcessing == Finished && t[p].req.modeSupported && !t[p].req.wrongParameter
    && (isDc ==> t[f].evse.isolationProcessing == Finished)
    && MayStart(isDc, t[d].evse, t[d].req)
  }

  /**
   * In every run, an answer below FAILED to a CurrentDemandReq (DC) or ChargingStatusReq (AC)
   * is preceded by the full chain since the last accepted ChargeParameterDiscovery, each link with
   * its grounds. Runs include renegotiation, metering receipts, and both certificate messages at any
   * time.
   */
  lemma ChargingIsPrecededByItsChain(c: Context, actions: seq<Action>, k: nat)
    returns (a: nat, p: nat, f: nat, q: nat, d: nat)
    requires Initial(c)
    requires k < |Run(c, actions).trace| && TakesCharging(Run(c, actions).trace[k], c.isDc)
    ensures var t := Run(c, actions).trace;
            Chain(t[..k], c.isDc, a, p, f, q, d) && Grounded(c.payment, c.isDc, t, a, p, f, d)
  {
    var t := Run(c, actions).trace;
    assert ChargedInOrder(t, c.isDc);
    var w := ProgressIsWitnessed(t[..k], c.isDc);
    a, p, f, q, d := w.0, w.1, w.2, w.3, w.4;
    assert Chain(t[..k], c.isDc, a, p, f, q, d);
    ChainIsGrounded(c, actions, k, a, p, f, q, d);
  }

  lemma ChainIsGrounded(c: Context, actions: seq<Action>, k: nat, a: nat, p: nat, f: nat, q: nat, d: nat)
    requires Initial(c) && k <= |Run(c, actions).trace|
    requires Chain(Run(c, actions).trace[..k], c.isDc, a, p, f, q, d)
    ensures Grounded(c.payment, c.isDc, Run(c, actions).trace, a, p, f, d)
  {
    var t := Run(c, actions).trace;
    RunIsSound(c, actions);
    assert Sound(c.payment, c.isDc, t, a) && Sound(c.payment, c.isDc, t, p) && Sound(c.payment, c.isDc, t, d);
    assert c.isDc ==> Sound(c.payment, c.isDc, t, f);
    assert t[..k][a] == t[a] && t[..k][p] == t[p] && t[..k][d] == t[d];
    assert c.isDc ==> t[..k][f] == t[f];
  }

  /** Whenever a request can still be validated, the state indexes the table chosen by the kind of charger. */
  lemma StateStaysInTable(c: Context, actions: seq<Action>)
    requires Initial(c)
    ensures Run(c, actions).open ==> Run(c, actions).ctx.state < TableSize(c.isDc)
  {
  }

  /** The bound holds only at validation: after a SessionStop an AC session keeps a number outside its table. */
  lemma ClosedAcSessionLeavesTable(c: Context, receivedId: nat)
    requires Initial(c) && !c.isDc
    ensures var s := Run(c, [Receive(Incoming(receivedId, SessionStopReq(TerminateSession)))]);
            !s.open && s.ctx.state >= TableSize(false)
  {
    var a := Receive(Incoming(receivedId, SessionStopReq(TerminateSession)));
    assert [a][..0] == [];
    assert Run(c, [a]) == Advance(Run(c, []), a);
  }

  /** A session that receives requests while no other thread changes the EVSE-side inputs. */
  function Undisturbed(s: Session, inputs: seq<Incoming>): Session
    requires Inv(s)
    decreases |inputs|
  {
    if inputs == [] then s
    else
      InvStep(s, Receive(inputs[0]));
      Undisturbed(Advance(s, Receive(inputs[0])), inputs[1..])
  }

  /** The insulation result is not a finished one, and no state beyond CableCheck has been reached. */
  predicate Uninsulated(s: Session) {
    && s.ctx.isDc
    && s.ctx.evse.isolationProcessing != Finished
    && (s.open ==> s.ctx.state <= DC_CABLECHECK || s.ctx.state >= DC_WELDINGDETECTION_SESSIONSTOP)
  }

  /** No handler reports a cable check as finished by itself. */
  lemma InsulationOnlyReset(c: Context, req: Request)
    ensures Handled(c, req).isDc == c.isDc
    ensures c.evse.isolationProcessing != Finished ==> Handled(c, req).evse.isolationProcessing != Finished
  {
    assert Prepared(c, req).isDc == c.isDc;
    assert Prepared(c, req).evse.isolationProcessing == c.evse.isolationProcessing;
  }

  /** On one context: an uninsulated context stays so, and does not answer CurrentDemand. */
  lemma UninsulatedStep(c: Context, input: Incoming)
    requires InTable(c) && c.isDc && c.evse.isolationProcessing != Finished
    requires c.state <= DC_CABLECHECK || c.state >= DC_WELDINGDETECTION_SESSIONSTOP
    ensures var (c', reply) := Step(c, input);
            && c'.isDc && c'.evse.isolationProcessing != Finished
            && (Continues(reply.event) ==>
                  c'.state <= DC_CABLECHECK || c'.state >= DC_WELDINGDETECTION_SESSIONSTOP)
            && !TakesCharging(Exchange(input.req, reply, c.evse), true)
  {
    PassesTable(c, input);
    InsulationOnlyReset(Announced(c, input), input.req);
    if TypeOf(input.req) in DcRow(c.state) {
      assert TypeOf(input.req) !in [CurrentDemand, PreCharge, PowerDelivery, MeteringReceipt, ChargingStatus];
    }
  }

  lemma {:induction false} NoChargingUninsulated(s: Session, inputs: seq<Incoming>, from: nat)
    requires Inv(s) && Uninsulated(s)
    requires from <= |s.trace| && forall k | from <= k < |s.trace| :: !TakesCharging(s.trace[k], true)
    ensures var s' := Undisturbed(s, inputs);
            from <= |s'.trace| && forall k | from <= k < |s'.trace| :: !TakesCharging(s'.trace[k], true)
    decreases |inputs|
  {
    if inputs != [] {
      InvStep(s, Receive(inputs[0]));
      if s.open {
        UninsulatedStep(s.ctx, inputs[0]);
      }
      NoChargingUninsulated(Advance(s, Receive(inputs[0])), inputs[1..], from);
    }
  }

  /**
   * After an accepted renegotiation no CurrentDemand is accepted any more, whatever the EV
   * sends, until another thread has reported a new cable check: the old result is not reused.
   */
  lemma RenegotiationVoidsInsulation(s: Session, request: Incoming, inputs: seq<Incoming>)
    requires Inv(s) && s.open && s.ctx.isDc
    requires request.req.PowerDeliveryReq? && request.req.progress == Renegotiate
    requires Accepted(Step(s.ctx, request).1)
    ensures var s' := Undisturbed(s, [request] + inputs);
            |s.trace| <= |s'.trace| &&
            forall k | |s.trace| <= k < |s'.trace| :: !TakesCharging(s'.trace[k], true)
  {
    InvStep(s, Receive(request));
    var s1 := Advance(s, Receive(request));
    assert ([request] + inputs)[1..] == inputs;
    assert Uninsulated(s1);
    NoChargingUninsulated(s1, inputs, |s.trace|);
  }
}
