# A verified model of the EVerest V2G test system

This project models, in Dafny, the stateful core of a test system for electric vehicles: the
ISO 15118-2 and DIN SPEC 70121 session servers, the connection that carries them, the
orchestrator that queues and supervises tests, its packet sniffer, two conformance verdicts that
measure time, and the arithmetic underneath. The properties are about whole runs: any sequence of
requests, messages, clock readings and changes of the charger's inputs.

`dafny verify dfyconfig.toml` checks everything.

## How it is built

Each core source file has a module with two parts. Functions on values specify one step
(`Step`, `Pass`, `After`, `AfterTurn`); a class with the source's fields performs the step
imperatively, and each method is proved to do what the function says. The run-level results are
lemmas about the functions, mostly in a module of their own. The sniffer, a protocol between
threads, is a machine whose threads take atomic steps in any order.

| file | content |
|---|---|
| `V2g.dfy` | messages, response codes, events, request masks |
| `IsoServer.dfy`, `IsoSafety.dfy` | ISO 15118-2 server, and what precedes charging in every session |
| `Faults.dfy`, `IsoAnswers.dfy`, `DinAnswers.dfy` | which code names which fault of a request, told from its fields and the charger's inputs |
| `IsoRestart.dfy`, `IsoConversation.dfy` | when an ISO session accepts a second start of charging; acceptance by the conversation so far |
| `DinServer.dfy`, `DinSafety.dfy` | DIN SPEC 70121 server, and the grammar of accepted exchanges |
| `V2gServer.dfy`, `Traffic.dfy` | the life of a connection: handshake, receive loop, clean-up; what is read, and which response is written to it |
| `AppHandshake.dfy` | protocol negotiation |
| `Framing.dfy`, `Reads.dfy`, `Timespecs.dfy` | reading frames from a byte stream, when a read ends, time arithmetic |
| `TestStateMachine.dfy`, `Reactions.dfy` | the orchestrator, and what each call and message does to it, told by the clock and the run |
| `OrchestratorSafety.dfy`, `Recovery.dfy` | its queue, status and entry-action invariants; bounded recovery |
| `Publications.dfy` | what remains when scheduling calls publish after they have released the lock |
| `Heartbeats.dfy`, `CrossModule.dfy`, `EndToEnd.dfy` | when the heartbeats of a connection are recent; the connection as the orchestrator reports it; the two joined |
| `PacketSniffer.dfy` | compare-and-exchange steps of callers and capture threads |
| `CableCheck006.dfy`, `CableCheckSoundness.dfy`, `CableCheckVerdict.dfy` | a verdict with ambiguous timers, the soundness of its claims, and the outcome told from the history |
| `CurrentDemand005.dfy` | a verdict with exact windows |
| `PhysicalValue.dfy`, `ScheduleWalk.dfy` | 16-bit scaling, and the walk along a charging schedule |
| `Durations.dfy`, `Testing.dfy`, `Wrappers.dfy`, `Arithmetic.dfy` | shared vocabulary and facts about numbers |

Clocks are integers (nanoseconds, or milliseconds for heartbeats of a connection) and enter as
readings. Foreign calls (codec, socket, certificate check, file opening) enter as their possible
results. Inputs that other threads write may change between any two requests, and are read once
per handled request. The two servers are modelled with `terminate_connection_on_failed_response`
set, and the handshake for both values of it.

## What does not hold

Some properties that one would expect are false of the code. Each is stated with the exact
condition, or with the input that breaks it.

- "Three passes plus one for each change of the enable flag" does not bound a call of the orchestrator's
  loop. A call can exceed it if and only if it starts in CleanupTest with the cleanup time over, the flag
  unset and an instance waiting (`TestStateMachine.CanExceedExactly`); which ones do is told by
  `TestStateMachine.ExceedsExactly`.
- If the dump file cannot be opened, the sniffer never leaves RUNNING and STOPPING again and
  whoever stops it waits forever (`PacketSniffer.ReturnsUnlessOrphaned`,
  `PacketSniffer.OrphanedCallerWaitsForever`). The end of a capture can also be missed by the caller
  that waits for it, because the capture thread notifies without the lock. A caller is stranded if and
  only if no thread is about to notify, no capture is owed and none can be started
  (`PacketSniffer.StrandedExactly`), and that comes about in exactly two ways
  (`PacketSniffer.NotificationIsLostExactly`).
- CableCheck_006 gives up on the first CableCheckReq if it comes more than 45 s after the parameters,
  although the timer may not have run yet (`CableCheckSoundness.GivingUpIsSoundExactlyAfterTheFirst`), and
  truncation to milliseconds can fail a compliant EV (`CableCheckSoundness.TruncationCanFailAnEv`), exactly
  if it costs all of the EV's slack, which is then less than one (`CableCheckSoundness.EarlyErrorExactly`,
  `CableCheckSoundness.LateErrorExactly`). Its checks of the end of the connection and of SessionStop
  count from the last request, not from its response: no EV that can still be in time is claimed late if and only
  if that response and the truncation cost less than a millisecond, or nothing
  (`CableCheckSoundness.CloseClaimIsSoundExactlyIf`, `CableCheckSoundness.StopClaimIsSoundExactlyIf`); a response after 10 ms fails an EV
  (`CableCheckSoundness.SlowResponseFailsAnEv`).
- Encoding a number with decimal places accepts integer parts beyond 16 bits and then stores the result
  of an out-of-range conversion, and more than 128 places wrap the multiplier around; it round-trips if and
  only if neither happens to a number that matters (`PhysicalValues.FloatRoundTripsExactlyIfItFits`).
- The walk along the charging schedule need not end. It does for exactly the times given by
  `ScheduleWalk.WalkEndsExactly` for every schedule, by `ScheduleWalk.WalkHangs` for those whose last entry
  starts at 0, and by `ScheduleWalk.DefaultSchedule` for the default one: up to 24 hours. Later profile
  entries are never compared.
- In ISO sessions, PowerDelivery(Start) can be accepted twice without a new ChargeParameterDiscovery: if and
  only if the last message before it was a MeteringReceipt, even a validated one, or a CertificateUpdate
  (`IsoRestart.RestartExactly`). Ordinary sessions reach both (`IsoRestart.BothGapsAreReachable`).
- Choosing external payment does not take back a contract chosen before: the session still counts as one with a
  contract (`IsoAnswers.PaymentExactly`).
- Heartbeats do not stay recent: they do if and only if each call of `update_heartbeat` after the first comes at
  most 20.001 s after the last heartbeat before it (`Heartbeats.ConnectionIsFreshExactly`). A session in which the
  EV pauses for 30 s lets them go stale (`Heartbeats.HeartbeatsGoStale`), although it may take 60 s for each
  request; gaps up to 18.002 s between calls are short enough for every connection, longer ones are not
  (`Heartbeats.GapIsShortEnoughExactly`).
- The statuses of an instance need not begin with Queued, because scheduling publishes it after it has released the
  lock (`Publications.QueuedCanComeLast`). What is told is grammatical if and only if Queued comes first
  (`Publications.GrammarExactlyIfQueuedFirst`); it ceases to be so exactly when something else is told while Queued is
  still owed (`Publications.BreaksExactly`).
- A connection whose test is not implemented still returns success (`V2gServer.ReturnCode`).
- SessionStop is answered with OK in any state once the physical connection is gone
  (`DinSafety.StopOutOfTurn`, `IsoSafety.StopOutOfTurn`).
- The header comment of `connection_read` promises a truth value; the code returns a byte count, -1 or -2,
  and the model follows the code.

## Model

| member | source | states |
|---|---|---|
| V2g.MaskTestsMembership | modules/EvseTestV2G/server/iso_server.cpp:36-41 | for every row and message, testing the message's bit in the row's mask is membership in the row |
| IsoServer.ValidateState | modules/EvseTestV2G/server/iso_server.cpp:33-42 | the mask test of the AC or DC table answers OK exactly for the requests the row lists, and otherwise a sequence error |
| IsoServer.AcceptedExactly | modules/EvseTestV2G/server/iso_server.cpp:44-88 | any request is answered below FAILED if and only if it is supported, and either it is one that is never validated, or the session is known, the row lists it and nothing aborts the session (or it is a SessionStop after the physical connection is gone), and neither the handler's own nor its late checks object |
| IsoServer.FailureEndsSession | modules/EvseTestV2G/server/iso_server.cpp:1383-1385 | a failed answer always ends the session, except for the PowerDelivery failure that is raised after validation |
| IsoServer.Server.ValidateResponseCode | modules/EvseTestV2G/server/iso_server.cpp:44-88 | code and event after all checks, in their order of precedence |
| IsoServer.Server.HandleSessionSetup | modules/EvseTestV2G/server/iso_server.cpp:445-510 | new and rejoined sessions |
| IsoServer.Server.HandlePaymentServiceSelection | modules/EvseTestV2G/server/iso_server.cpp:674-775 | precedence of the three selection failures, and the state for contract and external payment |
| IsoServer.Server.HandlePaymentDetails | modules/EvseTestV2G/server/iso_server.cpp:777-948 | response code for every outcome of the certificate chain check, and the next state |
| IsoServer.Server.HandleAuthorization | modules/EvseTestV2G/server/iso_server.cpp:950-1022 | challenge and signature failures, the reported processing and the next state; a finished answer below FAILED means that the authorisation is finished, not rejected, and a contract proven where it has to be |
| IsoServer.Server.HandleChargeParameterDiscovery | modules/EvseTestV2G/server/iso_server.cpp:1024-1236 | energy transfer and parameter failures, processing and the next state by kind of charger |
| IsoServer.Server.HandlePowerDelivery | modules/EvseTestV2G/server/iso_server.cpp:1238-1392 | start, stop and renegotiation: next state, insulation reset, and the failure raised after validation |
| IsoServer.Server.HandleChargingStatus | modules/EvseTestV2G/server/iso_server.cpp:1394-1447 | answer and state, which depends on whether a receipt is required |
| IsoServer.Server.HandleCertificateInstallation | modules/EvseTestV2G/server/iso_server.cpp:1498-1562 | a successful installation jumps to payment details from any state |
| IsoServer.Server.HandleCurrentDemand | modules/EvseTestV2G/server/iso_server.cpp:1629-1757 | answer and state, which depends on whether a receipt is required |
| IsoServer.Server.HandleSessionStop | modules/EvseTestV2G/server/iso_server.cpp:1788-1830 | always ends the connection, with the DC state numbers for AC chargers too |
| IsoServer.Server.HandleRequest | modules/EvseTestV2G/server/iso_server.cpp:1875-2086 | one handled request takes the context to exactly the one `Step` gives, including the message history, and returns its reply |
| IsoAnswers.FaultIsNamed | modules/EvseTestV2G/server/iso_server.cpp:44-88 | every validated request is answered with the code of the first of its faults, in order: its place after the last message; the session it names, its turn, an abort; what its handler looks for, each told by fields of the request and inputs of the charger; without a fault the code is OK, or tells a new session from a joined one |
| IsoAnswers.EventExactly | modules/EvseTestV2G/server/iso_server.cpp:1875-2086 | what the connection does next: it ignores unsupported requests, ends without an answer exactly when the connection is terminated and the request is not a SessionStop, and ends with one exactly for SessionStop and for every fault but one of the place |
| IsoAnswers.ReportsExactly | modules/EvseTestV2G/server/iso_server.cpp:950-1236 | what a response reports as processing, and that a receipt is required exactly for a contract when the charger requires it |
| IsoAnswers.SessionIdExactly | modules/EvseTestV2G/server/iso_server.cpp:445-510 | the session identifier changes exactly when a SessionSetup does not join the session, and then to the fresh one |
| IsoAnswers.PaymentExactly | modules/EvseTestV2G/server/iso_server.cpp:674-775 | after a request a contract is selected if and only if it was before or is now: selecting external payment does not undo it |
| IsoAnswers.EvseExactly | modules/EvseTestV2G/server/iso_server.cpp:674-1562 | handlers change inputs of the charger in three places only: a timed-out installation, the selection of external payment, and a renegotiation |
| IsoAnswers.StopLeaves | modules/EvseTestV2G/server/iso_server.cpp:1788-1830 | after SessionStop the session waits for a new setup if and only if it was a pause right after PowerDelivery or WeldingDetection |
| IsoSafety.ChargingIsPrecededByItsChain | modules/EvseTestV2G/server/iso_server.cpp:1875-2086 | in every run, a CurrentDemand (DC) or ChargingStatus (AC) answered below FAILED comes after a finished Authorization and, since the most recent accepted ChargeParameterDiscovery, which was finished, after a finished CableCheck and a PreCharge (DC) and a PowerDelivery(Start); that Authorization was not rejected, and proved the contract if one was selected; the parameters were supported and right; the charger reported authorisation, parameters and insulation as finished, and could start when the start came |
| IsoSafety.RunIsSound | modules/EvseTestV2G/server/iso_server.cpp:1875-2086 | in every run, each accepted exchange had what it takes from the request and from the charger, and each accepted Authorization under a contract comes after one, or is one, whose challenge and signature were right, with nothing but Authorizations in between |
| IsoSafety.PromiseKept | modules/EvseTestV2G/server/iso_server.cpp:44-88 | one exchange: no state that a session goes on from promises more of the chain than has been passed |
| IsoSafety.PassesTable | modules/EvseTestV2G/server/iso_server.cpp:44-88 | an accepted or continuing answer to a validated request means that the row lists it; the one exception is the answer to a SessionStop after the physical connection is gone, which ends the session |
| IsoSafety.StopOutOfTurn | modules/EvseTestV2G/server/iso_server.cpp:1788-1830 | a SessionStop is accepted exactly where the table lists it, for the session and with nothing to abort, or in any state once the physical connection is gone; a pause only right after PowerDelivery or WeldingDetection |
| IsoSafety.StateStaysInTable | modules/EvseTestV2G/server/iso_server.hpp:79-137 | in every run, the state is a valid index of the selected table whenever a request can still be validated |
| IsoSafety.ClosedAcSessionLeavesTable | modules/EvseTestV2G/server/iso_server.cpp:2069-2071 | after SessionStop an AC session holds a number outside its table, so the bound must be claimed at validation |
| IsoRestart.RestartExactly | modules/EvseTestV2G/server/iso_server.cpp:1371-1385 | in every run, after an accepted PowerDelivery(Start) with no accepted ChargeParameterDiscovery since, a further Start is accepted if and only if validation passes, the tariff is known, the charger can start (DC: ready and no emergency; AC: contactor closed or its wait not over), and the last message that was not ignored is MeteringReceipt or CertificateUpdate |
| IsoRestart.RestartsFollowTheirGap | modules/EvseTestV2G/server/iso_server.cpp:1371-1385 | in every run, each accepted Start that follows another one comes right after a MeteringReceipt or a CertificateUpdate |
| IsoRestart.BothGapsAreReachable | modules/EvseTestV2G/server/iso_server.cpp:1485-1496 | two contract sessions from a fresh context, from SessionSetup through PaymentDetails and a signed Authorization to charging, with every request accepted, that end where a second Start is accepted: after a validated MeteringReceipt, and after a CertificateUpdate |
| IsoConversation.RowsFollowExchanges | modules/EvseTestV2G/server/iso_server.cpp:1875-2086 | one exchange after which the session goes on leads to a state whose table row lists exactly the requests that may follow that exchange |
| IsoConversation.AcceptedExactlyInTurn | modules/EvseTestV2G/server/iso_server.cpp:44-88 | in every run, a request is accepted if and only if it is one that is never validated, or the last exchange that counts lets it follow, it names the session, nothing aborts (or it is a SessionStop after the physical connection is gone), it meets the condition of its kind, told by its fields, the charger's inputs and the payment selected, and its place after the last message is right |
| IsoConversation.AnsweredExactly | modules/EvseTestV2G/server/iso_server.cpp:44-88 | in every run, a validated request is answered with the code of the first of its faults, with turn, payment and last message told from the conversation so far |
| IsoConversation.AuthorizedExactly | modules/EvseTestV2G/server/iso_server.cpp:950-1022 | in every run, an Authorization is accepted as finished if and only if it comes in turn, the charger's authorisation is finished, it is not rejected, and, under a contract and not right after another Authorization, challenge and signature are right |
| IsoSafety.RenegotiationVoidsInsulation | modules/EvseTestV2G/server/iso_server.cpp:1356-1389 | after an accepted renegotiation no CurrentDemand is accepted any more, whatever is requested, until another thread reports the insulation test as finished |
| DinServer.ValidateState | modules/EvseTestV2G/server/din_server.cpp:57-63 | the mask test answers OK exactly for the requests the row lists |
| DinServer.Server.ValidateResponseCode | modules/EvseTestV2G/server/din_server.cpp:65-107 | code and event after all checks, in their order of precedence |
| DinServer.Server.HandleServicePaymentSelection | modules/EvseTestV2G/server/din_server.cpp:352-383 | precedence of the selection failures, and the next state |
| DinServer.Server.HandleChargeParameter | modules/EvseTestV2G/server/din_server.cpp:407-536 | energy transfer and parameter failures, processing and the next state |
| DinServer.Server.HandlePowerDelivery | modules/EvseTestV2G/server/din_server.cpp:538-614 | readiness, tariff, and the refusal to start again while charging; an answer below FAILED to a start means that the charger is ready and was not charging |
| DinServer.Server.HandleCableCheck | modules/EvseTestV2G/server/din_server.cpp:616-670 | goes on to PreCharge exactly if finished, insulated and not in emergency shutdown |
| DinServer.Server.HandleSessionStop | modules/EvseTestV2G/server/din_server.cpp:783-800 | always ends the connection |
| DinServer.Server.HandleRequest | modules/EvseTestV2G/server/din_server.cpp:851-1045 | one handled request takes the context to exactly the one `Step` gives; ignored requests leave state and history alone |
| DinAnswers.FaultIsNamed | modules/EvseTestV2G/server/din_server.cpp:65-107 | every request that is used is answered with the code of the first of its faults: a start while charging; the session it names, its turn, an abort; what its handler looks for, told by its fields and the charger's inputs |
| DinAnswers.EventExactly | modules/EvseTestV2G/server/din_server.cpp:851-1045 | what the connection does next, for every request: ignored, answered and ended, ended without an answer, or gone on with |
| DinAnswers.ReportsExactly | modules/EvseTestV2G/server/din_server.cpp:616-670 | what a response reports as finished, and as insulation |
| DinAnswers.ContextExactly | modules/EvseTestV2G/server/din_server.cpp:851-1045 | what one request changes besides the state: only SessionSetup without a session takes the fresh identifier, and only requests that are used are remembered |
| DinAnswers.PreChargeFollowsExactly | modules/EvseTestV2G/server/din_server.cpp:616-670 | a CableCheck leads on to PreCharge if and only if it is finished, the insulation is reported as Valid or Warning, and there is no emergency |
| DinSafety.PhaseStep | modules/EvseTestV2G/server/din_server.cpp:851-1045 | an accepted request takes the conversation of accepted exchanges from the phase of one state to the phase of the next |
| DinSafety.ChargingIsOneBlock | modules/EvseTestV2G/server/din_server.cpp:851-1045 | in every run, accepted CurrentDemands form one block opened by the only accepted PowerDelivery(ready), preceded by the whole set-up with a finished CableCheck of Valid or Warning isolation and PreCharge, and followed by at most its closing PowerDelivery, WeldingDetection and SessionStop; every accepted exchange had what it takes |
| DinSafety.CurrentDemandsAreContiguous | modules/EvseTestV2G/server/din_server.cpp:703-748 | between two accepted CurrentDemands there are only CurrentDemands |
| DinSafety.StartIsUnique | modules/EvseTestV2G/server/din_server.cpp:538-614 | at most one PowerDelivery(ready) is accepted in a session |
| DinSafety.AcceptedExactlyInTurn | modules/EvseTestV2G/server/din_server.cpp:57-107 | while the connection is up, a request is accepted if and only if it continues the conversation in the grammar of accepted exchanges, names the session, nothing aborts, and it meets the condition of its kind: a start, that the charger is ready, without an emergency, and the tariff known |
| DinSafety.RefusedInTurn | modules/EvseTestV2G/server/din_server.cpp:65-107 | in turn, for the session and with nothing to abort, a request that is refused is told the first fault of its own: a start that finds the charger not ready, FAILED_PowerDeliveryNotApplied |
| DinSafety.RunIsBacked | modules/EvseTestV2G/server/din_server.cpp:538-614 | in every run, each accepted exchange had what it takes: every start found the charger ready and without an emergency |
| DinSafety.StopOutOfTurn | modules/EvseTestV2G/server/din_server.cpp:783-800 | a SessionStop is accepted exactly in the phases that allow it, or in any state once the physical connection is gone |
| V2gServer.Connection.HandleConnection | modules/EvseTestV2G/v2g_server.cpp:616-948 | output, heartbeats and return code of a connection for all inputs |
| V2gServer.Connection.Handshake | modules/EvseTestV2G/v2g_server.cpp:653-702 | the handshake loop makes exactly one pass; whether the connection goes on |
| V2gServer.Connection.ReceiveLoop | modules/EvseTestV2G/v2g_server.cpp:763-900 | the receive loop for any sequence of frames, test server events and failures |
| V2gServer.Connection.HandleFrame | modules/EvseTestV2G/v2g_server.cpp:784-898 | one frame: undecodable ones are ignored; the response is written if and only if the test server provides it, or leaves it to be encoded and that works |
| V2gServer.Connection.UpdateHeartbeat | modules/EvseTestV2G/v2g_server.cpp:214-222 | a heartbeat exactly if two seconds have passed since the last one |
| V2gServer.Lifecycle | modules/EvseTestV2G/v2g_server.cpp:905-947 | on every path: Running first, Finished last, one result before it; test start, connection close and test end once each, in order, exactly if a test server was created; no result without a buffer |
| V2gServer.RequestsAndResponses | modules/EvseTestV2G/v2g_server.cpp:834-900 | on every path: at most one request per read and one response per request, none for ignored requests, and nothing is read after a request that ends the connection |
| Traffic.TrafficExactly | modules/EvseTestV2G/v2g_server.cpp:653-900 | on every path, what is read, requested and answered is exactly: one exchange of the handshake, if there is a buffer, and, if the receive loop is reached, one exchange for each frame up to the one that ends it; an exchange contains a response if and only if one could be written |
| Traffic.RequestIsAnswered | modules/EvseTestV2G/v2g_server.cpp:834-884 | on every path, each frame that the receive loop comes to is the next request of the log; the response follows directly, with the outcome of writing it, if the test server provides it or it could be encoded, and otherwise none does |
| V2gServer.ReturnCode | modules/EvseTestV2G/v2g_server.cpp:947 | a connection returns 0 exactly if its handshake passed and the test server concluded it, or no test server could be created |
| Traffic.ReturnsExactly | modules/EvseTestV2G/v2g_server.cpp:947 | a connection returns 0 if and only if its handshake got through and either there is no test server, or some frame lets the test server end the conversation after everything was delivered; otherwise -1 |
| AppHandshake.Handshake.Select | modules/EvseTestV2G/v2g_server.cpp:342-449 | the selected protocol and schema are those of the last offer of smallest priority number among the usable ones; without an eligible offer nothing is selected |
| AppHandshake.Handshake.HandleAppHandshake | modules/EvseTestV2G/v2g_server.cpp:320-510 | negotiation succeeds if and only if some usable offer has priority at most 20 and nothing aborts; when a response is sent and when the connection ends |
| AppHandshake.ChoiceExists | modules/EvseTestV2G/v2g_server.cpp:352-436 | there is a last best offer exactly if some usable offer has priority at most 20 |
| AppHandshake.ChoiceIsUnique | modules/EvseTestV2G/v2g_server.cpp:352-436 | the last best offer is unique |
| AppHandshake.EligibleExactly | modules/EvseTestV2G/v2g_server.cpp:343-436 | an offer can be selected if and only if its priority is at most 20 and it names, as a C string and in major version 2, either DIN SPEC 70121 with external payment possible, or ISO 15118-2:2013 with some payment possible, a contract only over TLS, and charger and test both support that protocol |
| AppHandshake.ChoiceExactly | modules/EvseTestV2G/v2g_server.cpp:352-436 | the selected offer, told from the offers and the configuration: every other one that qualifies is of lower priority, or of the same and earlier in the list |
| Framing.Connection.IncomingV2gtp | modules/EvseTestV2G/v2g_server.cpp:229-290 | a frame is accepted if and only if both reads deliver what was asked for and the header is acceptable; then the buffer starts with exactly the next header and payload of the stream, and nothing beyond was consumed |
| Framing.Connection.ConnectionRead | modules/EvseTestV2G/connection/connection.cpp:261-338 | however the socket splits them, the bytes taken are the next bytes of the stream, at the right place, at most as many as requested, and no other byte of the buffer changes |
| Reads.ReadExactly | modules/EvseTestV2G/connection/connection.cpp:261-338 | for every clock, flags and socket: a call takes what the passes before the first ending one offer, as far as sent and asked for, and returns that number, -2 if the connection is terminated then, or -1 if the clock or the socket fails |
| Reads.TimeoutEndsReading | modules/EvseTestV2G/connection/connection.cpp:271-273 | from the first pass on whose clock is 60.001 s past the start, or fails, no byte is taken |
| Reads.AcceptableExactly | modules/EvseTestV2G/v2g_server.cpp:256-272 | a header is acceptable if and only if its payload fits behind it into the buffer of 8192 bytes |
| Framing.SplittingDoesNotMatter | modules/EvseTestV2G/connection/connection.cpp:271-324 | an undisturbed attempt at bytes that the peer has sent takes exactly the requested count, for every way to split and delay them |
| Framing.IsSequenceTimeout | modules/EvseTestV2G/connection/connection.cpp:241-251 | a timeout exactly if the clock fails or 60.001 s have passed |
| Timespecs.SetNormalizedTimespec | modules/EvseTestV2G/tools.cpp:133-144 | the normal pair that denotes the same instant |
| Timespecs.Add | modules/EvseTestV2G/tools.cpp:146-152 | normal, and denotes the sum |
| Timespecs.Sub | modules/EvseTestV2G/tools.cpp:154-160 | normal, and denotes the difference |
| Timespecs.AddMs | modules/EvseTestV2G/tools.cpp:162-166 | normal, and denotes the instant later or earlier by so many milliseconds |
| Timespecs.TimespecToMs | modules/EvseTestV2G/tools.cpp:168-170 | the milliseconds, rounded down if the nanoseconds are not negative and up otherwise, for normal pairs and others |
| Timespecs.NormalIsUnique | modules/EvseTestV2G/tools.cpp:133-144 | normal pairs represent instants uniquely |
| Timespecs.SubUndoesAdd | modules/EvseTestV2G/tools.cpp:146-160 | subtracting what was added gives back a normal pair, field by field |
| TestStateMachine.StateMachine.EnqueueTest | modules/EvseTestManager/TestStateMachine.cpp:40-43 | what scheduling does under the lock: appends to the queue and nothing else |
| TestStateMachine.StateMachine.ScheduleTest | modules/EvseTestManager/TestStateMachine.cpp:35-48 | appends to the queue, then publishes Queued |
| TestStateMachine.StateMachine.RemoveTest | modules/EvseTestManager/TestStateMachine.cpp:53-67 | what unscheduling does under the lock: removes the first matching instance, or reports that there is none |
| TestStateMachine.StateMachine.UnscheduleTest | modules/EvseTestManager/TestStateMachine.cpp:50-73 | removes the first matching instance, then publishes Canceled, or does nothing; for a call that nothing interrupts |
| TestStateMachine.StateMachine.MakePass | modules/EvseTestManager/TestStateMachine.cpp:122-227 | one pass: detection of a state change, entry actions, then the state's own transition |
| TestStateMachine.StateMachine.RunStateMachine | modules/EvseTestManager/TestStateMachine.cpp:110-236 | the loop ends in the first state that does not change, after the specified number of passes |
| TestStateMachine.StateMachine.ProcessTestStatus | modules/EvseTestManager/TestStateMachine.cpp:243-270 | reaction to a status message in every state, between two calls of the loop; what it amounts to is told by `Reactions.StatusExactly` |
| TestStateMachine.StateMachine.ProcessTestResult | modules/EvseTestManager/TestStateMachine.cpp:272-286 | reaction to a result message in every state; what it amounts to is told by `Reactions.ResultExactly` |
| TestStateMachine.StateMachine.ProcessHeartbeat | modules/EvseTestManager/TestStateMachine.cpp:238-241 | notes the time and nothing else |
| Reactions.SelectionExactly | modules/EvseTestManager/TestStateMachine.cpp:142-166 | from Disabled or Idle, a call ends by setting up the first waiting instance, or in Idle with the flag set and nothing waiting, or in Disabled with the flag unset, for every course of the flag |
| Reactions.CallExactly | modules/EvseTestManager/TestStateMachine.cpp:119-225 | what a call does from each state at rest: a running test is told to stop exactly if the flag is set and the last sign of life is more than 20 s old, a cancellation is given up, and a cleanup left, exactly from 10.001 s on |
| Reactions.StatusExactly | modules/EvseTestManager/TestStateMachine.cpp:243-270 | for every machine that keeps the invariant: Running starts the test being set up, Finished and Canceled end the one that runs or is being cancelled; exactly that status is published, for that instance only, and it is no longer on test; any other message does nothing |
| Reactions.ResultExactly | modules/EvseTestManager/TestStateMachine.cpp:272-286 | for every machine that keeps the invariant: a result is published for the instance that runs or is being cancelled, and for no other; any other result does nothing |
| Reactions.ClocksRemember | modules/EvseTestManager/TestStateMachine.cpp:182-187 | in every run, the start time that a published result carries is that of the last start of a test, and silence counts from that start or the last heartbeat, whichever came later |
| Reactions.CancelledExactlyWhenSilent | modules/EvseTestManager/TestStateMachine.cpp:189-213 | in every run, the next action tells a test to stop if and only if a test is running and some call of the loop finds the flag set and neither its start nor a heartbeat within 20 s |
| TestStateMachine.LoopComesToRest | modules/EvseTestManager/TestStateMachine.cpp:119-235 | one call of the loop makes at most three passes while the enable flag keeps its value, and otherwise at most three plus one for each change, and one more only from the one start that delays it |
| TestStateMachine.ExceedsExactly | modules/EvseTestManager/TestStateMachine.cpp:119-235 | a call exceeds three passes plus one for each change if and only if it starts delayed, finds the flag unset for its second pass, and ends by setting up an instance with the flag set |
| TestStateMachine.CanExceedExactly | modules/EvseTestManager/TestStateMachine.cpp:119-235 | some course of the flag exceeds the bound if and only if the call starts in CleanupTest with the cleanup time over, the flag unset and an instance waiting |
| TestStateMachine.OneFlipCostsTwoPasses | modules/EvseTestManager/TestStateMachine.cpp:119-235 | from every such start, a call with a single change of the flag that makes five passes |
| OrchestratorSafety.InvDo | modules/EvseTestManager/TestStateMachine.cpp:35-286 | every action keeps the invariant that ties queue, state, publications and entry actions together |
| OrchestratorSafety.QueueConserved | modules/EvseTestManager/TestStateMachine.cpp:35-73 | in every run, the instances set up so far followed by the queue are the scheduled ones in order without the withdrawn ones, and none occurs twice |
| OrchestratorSafety.WithdrawnByUnscheduling | modules/EvseTestManager/TestStateMachine.cpp:50-73 | an instance becomes withdrawn exactly when it is unscheduled while in the queue |
| OrchestratorSafety.ExactlyOnePlace | modules/EvseTestManager/TestStateMachine.cpp:153-166 | in every run, each scheduled instance is in exactly one of queued, on test, terminated, and no other instance is in any |
| OrchestratorSafety.StatusGrammar | modules/EvseTestManager/TestStateMachine.cpp:243-286 | in every run, the statuses of each instance are a prefix of Queued, Running, Finished or Canceled, or of Queued, Canceled, and a result is published only after its Running and before its terminal status |
| OrchestratorSafety.EntryActionsInOrder | modules/EvseTestManager/TestStateMachine.cpp:119-225 | in every run, entry actions follow setup, capture start, optional cancel, cleanup, capture stop for one instance at a time; captures alternate and run exactly while an instance is on test |
| Publications.SplitRunMatches | modules/EvseTestManager/TestStateMachine.cpp:35-73 | in every interleaving of critical sections and later publications, queue, state and entry actions are those of the run in which scheduling calls are one step, and each instance's history is the same but for what is owed and for where Queued stands |
| Publications.QueueConservedMeanwhile | modules/EvseTestManager/TestStateMachine.cpp:35-73 | in every such interleaving, the instances set up so far followed by the queue are the enqueued ones in order without the withdrawn ones |
| Publications.GrammarButForQueued | modules/EvseTestManager/TestStateMachine.cpp:35-73 | what survives of the grammar: Queued is told at most once, and with it moved to the front what is told about an instance is grammatical |
| Publications.GrammarExactlyIfQueuedFirst | modules/EvseTestManager/TestStateMachine.cpp:45-46 | what has been told about an instance is grammatical if and only if it is nothing or begins with Queued |
| Publications.BreaksExactly | modules/EvseTestManager/TestStateMachine.cpp:45-46 | a step breaks the grammar of an instance if and only if it tells something else about it while its Queued is still owed |
| Publications.QueuedCanComeLast | modules/EvseTestManager/TestStateMachine.cpp:45-46 | a run in which an instance is told as Running before it is told as Queued |
| Recovery.BoundedRecovery | modules/EvseTestManager/TestStateMachine.cpp:189-225 | a running test that falls silent at h is reported as Canceled by h + 30.001 s + 2d, and its cleanup is left by h + 40.002 s + 3d |
| Recovery.CallOnTime | modules/EvseTestManager/TestStateMachine.cpp:110-236 | one call of the loop keeps the time bounds of every state |
| CrossModule.ConnectionReports | modules/EvseTestV2G/v2g_server.cpp:629-632 | apart from heartbeats, every connection with a buffer sends exactly Running, one result, Finished |
| CrossModule.ConnectionIsReportedExactly | modules/EvseTestManager/TestStateMachine.cpp:243-286 | if the messages of one connection reach the orchestrator in order during SetupTest, with any ticks and scheduling calls in between, the flag set and heartbeats fresh, it publishes for the instance exactly Running, one result, Finished |
| Heartbeats.ConnectionSends | modules/EvseTestV2G/v2g_server.cpp:214-222 | over every connection, the heartbeats sent are exactly those of the calls on its path, one at each call that comes two seconds or more after the last |
| Heartbeats.ConnectionIsFreshExactly | modules/EvseTestV2G/v2g_server.cpp:763-775 | for every connection with an ordered clock: from the first call to the last there is always a heartbeat that is at most 20 s old if and only if each later call comes at most 20.001 s after the last heartbeat before it |
| Heartbeats.InTimeMeans | modules/EvseTestV2G/v2g_server.cpp:214-222 | that each call comes in time, told of all calls at once, with the last heartbeat before each computed from the calls before it |
| Heartbeats.GapIsShortEnoughExactly | modules/EvseTestV2G/v2g_server.cpp:763-775 | calls at most a given gap apart keep the heartbeats of every connection fresh if and only if the gap is at most 18.002 s |
| Heartbeats.HeartbeatsGoStale | modules/EvseTestV2G/v2g_server.cpp:763-775 | a connection that passes its handshake and gets its test server, and whose heartbeats go stale during a pause of 30 s |
| Heartbeats.PauseIsStale | modules/EvseTestV2G/v2g_server.cpp:763-775 | if two calls are more than 20 s apart, for instance because a read waits for the next request, then in between no heartbeat is that young |
| EndToEnd.DeliveryKeepsWatch | modules/EvseTestManager/TestStateMachine.cpp:189-198 | if the messages of a test are sent at most x after the last sign of life and handled in order at most d after that, with x + d at most 20 s, no call of the loop finds the test silent |
| EndToEnd.LivelyConnectionIsReported | modules/EvseTestManager/TestStateMachine.cpp:243-286 | end to end, without any assumption on the heartbeats received: a connection whose calls, and Finished, come at most x after the last heartbeat before them, and whose messages are handled in order within d, x + d at most 20 s, is published as exactly Running, one result, Finished |
| PacketSniffer.InvNext | modules/EvseTestManager/PacketSniffer.cpp:54-129 | every atomic step keeps at most one owed capture, and moves the state only STANDBY, RUNNING, STOPPING, STOPPED, STANDBY |
| PacketSniffer.AtMostOneOpenFile | modules/EvseTestManager/PacketSniffer.cpp:54-129 | in every run with any number of callers, at most one thread has the dump file open, and none outside RUNNING and STOPPING |
| PacketSniffer.OrphanedByFailedOpen | modules/EvseTestManager/PacketSniffer.cpp:106-109 | a sniffer is left without a thread to wind it up exactly when the dump file cannot be opened |
| PacketSniffer.OrphanedForever | modules/EvseTestManager/PacketSniffer.cpp:64-109 | an orphaned sniffer stays orphaned in every run |
| PacketSniffer.OrphanedCallerWaitsForever | modules/EvseTestManager/PacketSniffer.cpp:87-91 | a caller that waits for an orphaned sniffer to stop waits in every run |
| PacketSniffer.ReturnsUnlessOrphaned | modules/EvseTestManager/PacketSniffer.cpp:74-97 | the sniffer can come back to STANDBY if and only if it is not orphaned |
| PacketSniffer.StrandedExactly | modules/EvseTestManager/PacketSniffer.cpp:84-97 | in every state that keeps the invariant, a caller that found STOPPING sleeps in every continuation by the existing threads if and only if no thread is about to notify, no capture is owed, and the existing threads cannot start one |
| PacketSniffer.NotificationIsLostExactly | modules/EvseTestManager/PacketSniffer.cpp:88-128 | a step takes the last pending notification away from a sleepy caller if and only if its thread is the only one that keeps it pending, and fails to open the file, or notifies while the caller has tested the state but does not sleep yet |
| PacketSniffer.NotificationCanBeLost | modules/EvseTestManager/PacketSniffer.cpp:88-128 | that state is reached from the start: a run in which the capture has stopped and been notified, and the caller sleeps all the same |
| CableCheck006.TestCase.HandleCableCheck | modules/EvseTestV2G/testcases/chn_cable_check_006.cpp:226-341 | all fields, and the event, after a CableCheckReq |
| CableCheck006.TestCase.HandleChargeParameter | modules/EvseTestV2G/testcases/chn_cable_check_006.cpp:215-224 | notes the earliest start of the timer |
| CableCheck006.TestCase.HandleSessionStop | modules/EvseTestV2G/testcases/chn_cable_check_006.cpp:343-364 | notes the times of SessionStop once the phase was reached |
| CableCheck006.TestCase.OnUpdateBsp | modules/EvseTestV2G/testcases/chn_cable_check_006.cpp:27-35 | notes state B only while it is validated |
| CableCheck006.TestCase.Admit | modules/EvseTestV2G/testcases/chn_cable_check_006.cpp:197-213 | every request is admitted but PreCharge, PowerDelivery, CurrentDemand, WeldingDetection and unknown ones, which are noted as extra |
| CableCheck006.TestCase.OnConnectionClose | modules/EvseTestV2G/testcases/chn_cable_check_006.cpp:37-187 | the verdict for all combinations of flags, times and claims; what it means is told by `CableCheckVerdict.VerdictIsExact` |
| CableCheckSoundness.GapsAreRecorded | modules/EvseTestV2G/testcases/chn_cable_check_006.cpp:244-250 | over every history, the recorded durations are the truncations of the last and the longest exact gap |
| CableCheckSoundness.EveryGapIsBounded | modules/EvseTestV2G/testcases/chn_cable_check_006.cpp:244-250 | over every history, the recorded maximum bounds every time from a response to the next request, up to one millisecond; the soundness of the early and of the state B claim rests on it |
| CableCheckSoundness.TimingClaimsAreSound | modules/EvseTestV2G/testcases/chn_cable_check_006.cpp:87-107 | over every history, and wherever between the last parameters and its second request the EV starts its 40 s timer: if it decides on every request while the timer runs, and the request it withholds after the last response, no later than after some response before, falls after the timer's end, then neither claim is off by a millisecond or more |
| CableCheckSoundness.EarlyCheckExactly | modules/EvseTestV2G/testcases/chn_cable_check_006.cpp:87-96 | the early claim is made if and only if the longest gap, less its fraction of a millisecond, is too short |
| CableCheckSoundness.LateCheckExactly | modules/EvseTestV2G/testcases/chn_cable_check_006.cpp:98-107 | the late claim is made if and only if the last request, less the last gap in whole milliseconds, is after the latest end of the timer |
| CableCheckSoundness.EarlyStopIsCaught | modules/EvseTestV2G/testcases/chn_cable_check_006.cpp:87-96 | an EV for which no timer start after the parameters and no withheld request explain the stop is always claimed too early |
| CableCheckSoundness.LateRequestIsCaught | modules/EvseTestV2G/testcases/chn_cable_check_006.cpp:98-107 | an EV for which no timer start between the parameters and the second request lets it decide on every request in time is always claimed too late |
| CableCheckSoundness.EarlyErrorExactly | modules/EvseTestV2G/testcases/chn_cable_check_006.cpp:87-96 | over every history: the stop can be explained by some timer start and yet is claimed too early, if and only if the longest gap reaches the earliest end of the timer by less than its own fraction of a millisecond |
| CableCheckSoundness.LateErrorExactly | modules/EvseTestV2G/testcases/chn_cable_check_006.cpp:98-107 | over every history: the requests can be explained by some timer start and yet are claimed too late, if and only if the response before the last request precedes the latest end of the timer by less than the last gap's fraction of a millisecond |
| CableCheckSoundness.TruncationCanFailAnEv | modules/EvseTestV2G/testcases/chn_cable_check_006.cpp:87-96 | a history in which an EV that meets all the conditions of soundness is claimed too early by less than a millisecond |
| CableCheckSoundness.GivingUpIsSoundExactlyAfterTheFirst | modules/EvseTestV2G/testcases/chn_cable_check_006.cpp:15-21 | giving up is justified for every possible timer start if and only if it is not on the first request |
| CableCheckSoundness.SlowFirstRequestFails | modules/EvseTestV2G/testcases/chn_cable_check_006.cpp:308-313 | a first request more than 45 s after the parameters fails the test although the timer may just have started |
| CableCheckSoundness.StateBClaimIsSound | modules/EvseTestV2G/testcases/chn_cable_check_006.cpp:123-137 | an EV that stops when its timer expires and signals state B within 4.5 s of that stop is not claimed late by a millisecond or more |
| CableCheckSoundness.CloseCheckExactly | modules/EvseTestV2G/testcases/chn_cable_check_006.cpp:147-177 | without SessionStop, the connection is claimed to be closed late exactly from 5.001 s after the last request plus the longest gap in whole milliseconds |
| CableCheckSoundness.CloseClaimIsSoundExactlyIf | modules/EvseTestV2G/testcases/chn_cable_check_006.cpp:147-177 | no EV that stops within its longest gap after the last response and closes within 5 s, after what has happened so far, is claimed late, if and only if none can be in time any more, or that response and the fraction cut off took less than a millisecond together |
| CableCheckSoundness.StopCheckExactly | modules/EvseTestV2G/testcases/chn_cable_check_006.cpp:147-160 | SessionStop is claimed late exactly after 5 s from the last request plus the longest gap in whole milliseconds |
| CableCheckSoundness.StopClaimIsSoundExactlyIf | modules/EvseTestV2G/testcases/chn_cable_check_006.cpp:147-160 | over histories: no EV whose next message is a SessionStop sent in time is claimed late, if and only if none can be in time any more, or response and fraction cost nothing |
| CableCheckSoundness.CloseAfterStopIsSound | modules/EvseTestV2G/testcases/chn_cable_check_006.cpp:147-177 | after an answered SessionStop, an EV that closes within 5 s after its longest gap is never claimed late |
| CableCheckSoundness.SlowResponseFailsAnEv | modules/EvseTestV2G/testcases/chn_cable_check_006.cpp:147-177 | a history in which a response takes 10 ms, and an EV that meets all conditions of soundness and closes in time is claimed late |
| CableCheckVerdict.RunRecords | modules/EvseTestV2G/testcases/chn_cable_check_006.cpp:226-364 | over every history, each field stands for what the history contains: which requests, answers and signals came first or last, whether any was faulty, extra or too late, and how long the gaps were |
| CableCheckVerdict.ClaimsAreExact | modules/EvseTestV2G/testcases/chn_cable_check_006.cpp:83-177 | over every history, each of the five claims is made if and only if its requirement, told from the history in exact gaps less their fractions of a millisecond, is not met |
| CableCheckVerdict.VerdictIsExact | modules/EvseTestV2G/testcases/chn_cable_check_006.cpp:37-187 | over every history, an EV passes if and only if CableCheck was tested without fault, nothing extra was requested, the test did not give up, and all five timing requirements are met; and the preconditions are not met if and only if it was not tested |
| CableCheckVerdict.UnexplainedIsNotPassed | modules/EvseTestV2G/testcases/chn_cable_check_006.cpp:87-107 | an EV whose stop, or whose requests, no timer start explains is never passed |
| CableCheckVerdict.EndsExactlyAtTheSecond | modules/EvseTestV2G/testcases/chn_cable_check_006.cpp:308-316 | the connection is ended from the second request on that comes more than 45 s after both possible starts of the timer; every other CableCheckReq is answered as the server answers it |
| Durations.ExceedsMs | modules/EvseTestV2G/testcases/chn_cable_check_006.cpp:168-171 | a truncated duration exceeds a bound exactly from the next whole millisecond on |
| CurrentDemand005.VerdictIsExact | modules/EvseTestV2G/testcases/chn_current_demand_005.cpp:37-184 | over all histories, the outcome is a pass if and only if the demand was accepted, nothing unexpected was requested, and state B, SessionStop and the end of the connection lie in their windows; and that the preconditions are not met if and only if there was no demand, or the server refused it |
| CurrentDemand005.RunRecords | modules/EvseTestV2G/testcases/chn_current_demand_005.cpp:192-350 | over all histories, the fields record the first demand, unexpected requests, and the last state B and SessionStop after the demand |
| CurrentDemand005.TestCase.HandleRequest | modules/EvseTestV2G/testcases/chn_current_demand_005.cpp:192-212 | the gate: only the first demand and SessionStop are admitted from the demand on |
| CurrentDemand005.TestCase.HandleCurrentDemand | modules/EvseTestV2G/testcases/chn_current_demand_005.cpp:237-298 | an accepted demand is noted and left unanswered |
| CurrentDemand005.TestCase.HandleSessionStop | modules/EvseTestV2G/testcases/chn_current_demand_005.cpp:300-350 | notes the times of SessionStop once the demand was received |
| CurrentDemand005.TestCase.OnUpdateBsp | modules/EvseTestV2G/testcases/chn_current_demand_005.cpp:27-35 | notes state B only while it is validated |
| CurrentDemand005.TestCase.OnConnectionClose | modules/EvseTestV2G/testcases/chn_current_demand_005.cpp:37-184 | the verdict for all fields |
| PhysicalValues.PhysicalValue.Populate | modules/EvseTestV2G/v2g_ctx.cpp:24-44 | succeeds if and only if the value is between -32768999 and 32767999; then uses the least multiplier, otherwise restores the old value |
| PhysicalValues.RepresentableMeansFits | modules/EvseTestV2G/v2g_ctx.cpp:35-39 | those bounds are exactly the values for which multiplier 3 is large enough |
| PhysicalValues.IntegerRoundTrip | modules/EvseTestV2G/v2g_ctx.cpp:29-33 | scaling an integer down and decoding it stays within one unit of the multiplier |
| PhysicalValues.ScaledIsLarge | modules/EvseTestV2G/v2g_ctx.cpp:29-33 | a scaled value is at least 3276 in magnitude |
| PhysicalValues.PhysicalValue.PopulateFloat | modules/EvseTestV2G/v2g_ctx.cpp:46-68 | the multiplier and value left for every number, including those whose integer part does not fit |
| PhysicalValues.FloatRoundTripsExactlyIfItFits | modules/EvseTestV2G/tools.cpp:280-282 | for every number that is not refused and every 8-bit count of places: encoding and decoding stays within one unit, whatever an out-of-range conversion yields, if and only if the integer part fits 16 bits, and the places used are at most 128 or leave less than two |
| ScheduleWalk.CheckChargingProfileValues | modules/EvseTestV2G/server/iso_server.cpp:96-176 | for every profile and schedule: only the first profile entry is compared, with the schedule entry at which its walk ends; if the walk does not end, the check does not return |
| ScheduleWalk.Walk | modules/EvseTestV2G/server/iso_server.cpp:119-173 | for every time and schedule: the walk ends at its first visit whose interval contains the time, and goes on as long as there is none |
| ScheduleWalk.EndsIfWatchedLongEnough | modules/EvseTestV2G/server/iso_server.cpp:119-173 | watched for some number of visits the walk is seen to end if and only if some visit is within its interval, so that what is proved of such visits is proved of the method |
| ScheduleWalk.Visit | modules/EvseTestV2G/server/iso_server.cpp:127-143 | one visit keeps the 32-bit sum equal to the wrapped total of all starts so far, and says whether that entry's interval contains the time |
| ScheduleWalk.LastIntervalExactly | modules/EvseTestV2G/server/iso_server.cpp:136-143 | the last entry's interval ends with its duration, in 32-bit arithmetic, or where it begins if it has none |
| ScheduleWalk.ExceedsExactly | modules/EvseTestV2G/server/iso_server.cpp:150-157 | the profile asks for too much if and only if it does so in integers, once both multipliers are raised alike |
| ScheduleWalk.WalkFindsTheEntry | modules/EvseTestV2G/server/iso_server.cpp:111-173 | for times between the first start and the end of a schedule that does not overflow, the walk visits each entry at most once and ends at the unique entry whose prefix-sum interval contains the time |
| ScheduleWalk.WalkEndsExactly | modules/EvseTestV2G/server/iso_server.cpp:119-173 | for every schedule and time, wrap-around included: the walk ends if and only if an entry before the last one is hit when visited, or the largest sum the last entry can reach, below the time and without overflow, is close enough to it; a condition on remainders |
| ScheduleWalk.BoundedWalkEndsExactly | modules/EvseTestV2G/server/iso_server.cpp:119-173 | for a schedule that does not overflow, the first part is that the time lies between its first start and its end |
| ScheduleWalk.WalkHangs | modules/EvseTestV2G/server/iso_server.cpp:161-173 | if nothing overflows and the last entry's start is 0, the walk ends if and only if the time lies between the first start and the end of the schedule |
| ScheduleWalk.BeyondTheEnd | modules/EvseTestV2G/server/iso_server.cpp:161-173 | past the end, with a last start L above 0 and duration D, the walk ends before its sums pass the time if and only if the time past the last start, modulo L, is at most D |
| ScheduleWalk.DefaultSchedule | modules/EvseTestV2G/server/iso_server.cpp:1075-1085 | with the default schedule, the walk ends if and only if the EV's time is at most 24 hours |

## Left out

- EXI and transport header codecs, OpenSSL, TLS, sockets, select and MQTT: foreign code; received bytes and results are inputs, and the header parser is a parameter of `Framing.Connection`.
- The codec's header reader V2GTP_ReadHeader is not part of this model.
- Memory allocation failures other than those of the connection's buffer and documents.
- Sessions with `terminate_connection_on_failed_response` unset, in which a failed answer still moves the state and the session goes on: the servers' results are for the flag set.
- Races of two connections on one context, and changes of the charger's inputs in the middle of one handler.
- `CableCheck006.TestCase.HandleCableCheck`: the fields of the response that the test rewrites (Ongoing, an invalid insulation, FAILED when it gives up), and the state that it resets to keep the EV asking; the verdict depends on none of them.
- That a signature can be checked only after PaymentDetails has supplied the key, which the source asserts: the outcome of the check is an input of the request.
- `is_charging`: it is set before validation and cleared before it is read, so no contactor property follows from it.
- The SAE bidirectional extension, the payment and service lists, and the physical values inside ISO and DIN responses; response fields that no state or code depends on.
- The orchestrator's announcements of its states and of scheduling: signals without effect on it.
- The other test cases, the ISO variants of the two verdicts, and test reports and error texts: near copies, or text.
- `add_service_to_service_list`, `configure_parameter_set`, `format_duration` and the charging state initialisation: bounded lists and formatting.
- The Python test server and the constraint tables.
- `V2gServer.Connection.ReceiveLoop`: a connection's turns are a finite list, after which the peer closes; a peer that talks forever is covered through every finite part of its talk.
- `ScheduleWalk.Walk`: watched for a number of visits that the caller chooses, because it need not end; what holds for every number holds of the walk itself.
- `ScheduleWalk.CheckChargingProfileValues`: as for `Walk`.
- `TestStateMachine.StateMachine.UnscheduleTest`: for a call that nothing interrupts; what happens between its critical section and its publication is in `Publications`. There an instance may be withdrawn as soon as it is queued, also before its identifier has been returned, and the queued instance that is reported after the lock is released is a value.
- The theorems of `Recovery`, `CrossModule` and `EndToEnd` take scheduling calls as one step; by `Publications.SplitRunMatches` the control state is the same otherwise.
- `PhysicalValues.PhysicalValue.PopulateFloat`: over real numbers, so floating-point rounding is not modelled; a number beyond the 64-bit range counts as not representable.
- `PacketSniffer.InvNext`: the mutex that callers hold around their wait is not modelled; without it there are only more interleavings.
- `Recovery.BoundedRecovery`: the loop must have been run by 20 s after the heartbeat at the latest, which holds of every machine at rest that was enabled then.
- `CrossModule.ConnectionIsReportedExactly`: a connection without a buffer publishes no result, so it is left to `V2gServer.Lifecycle`.
