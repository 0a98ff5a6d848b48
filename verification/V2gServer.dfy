/**
 * The life of one V2G connection: what it publishes, dispatches, reads and answers on every
 * path from the first status to the last, for any peer, any test server and any failure of
 * decoding, encoding or the socket. Clock readings are milliseconds of the monotonic clock.
 */
module V2gServer {
  import opened V2g

  const HEARTBEAT_UPDATE_RATE := 2000

  /** Result of reading one frame: 0, 1 or -1 in the source. */
  datatype Incoming = Frame | PeerClosed | ReadFailed

  /**
   * What the surroundings contribute to one pass of the receive loop. `decoding` and
   * `encoding` are the codec's return codes, `event` is the test server's answer.
   */
  datatype Turn = Turn(now: int, incoming: Incoming, decoding: int, event: V2gEvent, encoding: int, writes: bool)

  /** Everything the surroundings contribute to one connection; after the last turn the peer closes. */
  datatype Surroundings = Surroundings(
    begin: int,
    bufferAllocated: bool,
    handshakeAt: int,
    handshake: Incoming,
    terminated: bool,
    negotiation: V2gEvent,
    handshakeWrites: bool,
    negotiatedAt: int,
    protocol: Protocol,
    documentsAllocated: bool,
    testKnown: bool,
    turns: seq<Turn>,
    closedAt: int,
    endedAt: int)

  /** What a connection does, in order. */
  datatype Output =
    | SaysRunning
    | Heartbeat(at: int)
    | Listened
    | Negotiated(event: V2gEvent)
    | Started
    | Handled(event: V2gEvent)
    | Answered(delivered: bool)
    | Closed
    | TestFinished
    | SaysResult
    | SaysFinished

  /** Progress of a connection: its output, the time of its last heartbeat and its return code. */
  datatype Progress = Progress(log: seq<Output>, lastHeartbeat: int, rv: int)

  // ---------------------------------------------------------------------------
  // Specification
  // ---------------------------------------------------------------------------

  function Beat(p: Progress, now: int): Progress {
    if now - p.lastHeartbeat >= HEARTBEAT_UPDATE_RATE then
      p.(log := p.log + [Heartbeat(now)], lastHeartbeat := now)
    else p
  }

  function Code(incoming: Incoming): int {
    match incoming
    case Frame => 0
    case PeerClosed => 1
    case ReadFailed => -1
  }

  function Write(p: Progress, writes: bool): Progress {
    p.(log := p.log + [Answered(writes)], rv := if writes then 0 else -1)
  }

  /** The handshake goes on to a session only after a response that does not terminate. */
  predicate HandshakePasses(s: Surroundings) {
    s.handshake == Frame && !s.terminated
    && match s.negotiation
       case NoEvent => s.handshakeWrites
       case SendAndTerminate => false
       case TerminateConnection => false
       case _ => true
  }

  function AfterHandshake(p: Progress, s: Surroundings): Progress {
    var b := Beat(p, s.handshakeAt);
    var l := b.(log := b.log + [Listened], rv := Code(s.handshake));
    if s.handshake != Frame then l
    else if s.terminated then l.(rv := -1)
    else
      var n := l.(log := l.log + [Negotiated(s.negotiation)]);
      match s.negotiation
      case NoEvent => Write(n, s.handshakeWrites)
      case SendAndTerminate => Write(n, s.handshakeWrites).(rv := -1)
      case TerminateConnection => n.(rv := -1)
      case _ => n
  }

  /** A test server exists for the connection. */
  predicate ServerCreated(s: Surroundings) {
    s.bufferAllocated && HandshakePasses(s) && s.protocol != UnknownProtocol && s.documentsAllocated && s.testKnown
  }

  /** Requests that cannot be decoded are ignored. */
  function EventOf(t: Turn): V2gEvent {
    if t.decoding != 0 then IgnoreMsg else t.event
  }

  /** Response prepared by the server: encoded unless the server provides the stream itself. */
  function Respond(p: Progress, t: Turn): Progress {
    match EventOf(t)
    case SendRecvExiMsg => Write(p, t.writes)
    case NoEvent => if t.encoding != 0 then p.(rv := t.encoding) else Write(p, t.writes)
    case SendAndTerminate => if t.encoding != 0 then p.(rv := t.encoding) else Write(p, t.writes)
    case _ => p
  }

  function AfterTurn(p: Progress, t: Turn): Progress {
    var b := Beat(p, t.now);
    var l := b.(log := b.log + [Listened], rv := Code(t.incoming));
    if t.incoming != Frame then l else Respond(l.(log := l.log + [Handled(EventOf(t))]), t)
  }

  predicate GoesOn(p: Progress, t: Turn) {
    t.incoming == Frame && AfterTurn(p, t).rv == 0 && Continues(EventOf(t))
  }

  function AfterClose(p: Progress, closedAt: int): Progress {
    var b := Beat(p, closedAt);
    b.(log := b.log + [Listened], rv := 1)
  }

  function AfterTurns(p: Progress, turns: seq<Turn>, closedAt: int): Progress
    decreases |turns|
  {
    if turns == [] then AfterClose(p, closedAt)
    else if GoesOn(p, turns[0]) then AfterTurns(AfterTurn(p, turns[0]), turns[1..], closedAt)
    else AfterTurn(p, turns[0])
  }

  /** Messaging with a test server, from its start to the end of its test. */
  function AfterTest(p: Progress, s: Surroundings): Progress {
    var q := Beat(AfterTurns(p.(log := p.log + [Started]), s.turns, s.closedAt), s.endedAt);
    q.(log := q.log + [Closed, TestFinished])
  }

  function AfterSetup(p: Progress, s: Surroundings): Progress {
    var h := AfterHandshake(p, s);
    if !HandshakePasses(s) then h
    else
      var b := Beat(h, s.negotiatedAt);
      if ServerCreated(s.(bufferAllocated := true)) then AfterTest(b, s) else b
  }

  function AfterConnection(s: Surroundings, lastHeartbeat: int): Progress {
    var p := Beat(Progress([SaysRunning], lastHeartbeat, -1), s.begin);
    if !s.bufferAllocated then p.(log := p.log + [SaysFinished])
    else
      var q := AfterSetup(p, s);
      q.(log := q.log + [SaysResult, SaysFinished], rv := if q.rv == 0 then 0 else -1)
  }

  // ---------------------------------------------------------------------------
  // Lifecycle
  // ---------------------------------------------------------------------------

  /** The entries of a log that are not heartbeats, reads, requests or responses. */
  function Milestones(log: seq<Output>): seq<Output> {
    if log == [] then []
    else
      var o := log[|log| - 1];
      Milestones(log[..|log| - 1]) + if IsMilestone(o) then [o] else []
  }

  predicate IsMilestone(o: Output) {
    !(o.Heartbeat? || o.Listened? || o.Negotiated? || o.Handled? || o.Answered?)
  }

  lemma MilestonesOfOne(log: seq<Output>, o: Output)
    ensures Milestones(log + [o]) == if IsMilestone(o) then Milestones(log) + [o] else Milestones(log)
  {
    assert (log + [o])[..|log|] == log;
  }

  lemma MilestonesOfTwo(log: seq<Output>, a: Output, b: Output)
    requires a in {SaysResult, Closed} && b in {SaysFinished, TestFinished}
    ensures Milestones(log + [a, b]) == Milestones(log) + [a, b]
  {
    MilestonesOfOne(log, a);
    MilestonesOfOne(log + [a], b);
    assert log + [a, b] == log + [a] + [b];
  }

  lemma BeatIsNoMilestone(p: Progress, now: int)
    ensures Milestones(Beat(p, now).log) == Milestones(p.log)
  {
    MilestonesOfOne(p.log, Heartbeat(now));
  }

  lemma ExchangeIsNoMilestone(log: seq<Output>, request: Output, delivered: bool)
    requires request.Negotiated? || request.Handled?
    ensures var l := log + [Listened];
            var r := l + [request];
            Milestones(log) == Milestones(l) == Milestones(r) == Milestones(r + [Answered(delivered)])
  {
    MilestonesOfOne(log, Listened);
    MilestonesOfOne(log + [Listened], request);
    MilestonesOfOne(log + [Listened] + [request], Answered(delivered));
  }

  lemma LogOfHandshake(p: Progress, s: Surroundings)
    ensures var l := Beat(p, s.handshakeAt).log + [Listened];
            var n := l + [Negotiated(s.negotiation)];
            AfterHandshake(p, s).log in {l, n, n + [Answered(s.handshakeWrites)]}
  {
  }

  lemma LogOfTurn(p: Progress, t: Turn)
    ensures var l := Beat(p, t.now).log + [Listened];
            var h := l + [Handled(EventOf(t))];
            AfterTurn(p, t).log in {l, h, h + [Answered(t.writes)]}
  {
  }

  lemma HandshakeIsNoMilestone(p: Progress, s: Surroundings)
    ensures Milestones(AfterHandshake(p, s).log) == Milestones(p.log)
  {
    BeatIsNoMilestone(p, s.handshakeAt);
    ExchangeIsNoMilestone(Beat(p, s.handshakeAt).log, Negotiated(s.negotiation), s.handshakeWrites);
    LogOfHandshake(p, s);
  }

  lemma TurnIsNoMilestone(p: Progress, t: Turn)
    ensures Milestones(AfterTurn(p, t).log) == Milestones(p.log)
  {
    BeatIsNoMilestone(p, t.now);
    ExchangeIsNoMilestone(Beat(p, t.now).log, Handled(EventOf(t)), t.writes);
    LogOfTurn(p, t);
  }

  lemma {:induction false} TurnsAreNoMilestones(p: Progress, turns: seq<Turn>, closedAt: int)
    ensures Milestones(AfterTurns(p, turns, closedAt).log) == Milestones(p.log)
    decreases |turns|
  {
    if turns == [] {
      BeatIsNoMilestone(p, closedAt);
      MilestonesOfOne(Beat(p, closedAt).log, Listened);
    } else {
      TurnIsNoMilestone(p, turns[0]);
      if GoesOn(p, turns[0]) {
        TurnsAreNoMilestones(AfterTurn(p, turns[0]), turns[1..], closedAt);
      }
    }
  }

  lemma Joined(log: seq<Output>)
    ensures log + [Started] + [Closed, TestFinished] == log + [Started, Closed, TestFinished]
  {
  }

  lemma MilestonesOfTest(p: Progress, s: Surroundings)
    ensures Milestones(AfterTest(p, s).log) == Milestones(p.log) + [Started, Closed, TestFinished]
  {
    var q := AfterTurns(p.(log := p.log + [Started]), s.turns, s.closedAt);
    Joined(Milestones(p.log));
    MilestonesOfOne(p.log, Started);
    TurnsAreNoMilestones(p.(log := p.log + [Started]), s.turns, s.closedAt);
    BeatIsNoMilestone(q, s.endedAt);
    MilestonesOfTwo(Beat(q, s.endedAt).log, Closed, TestFinished);
  }

  lemma MilestonesOfSetup(p: Progress, s: Surroundings)
    requires s.bufferAllocated
    ensures Milestones(AfterSetup(p, s).log)
         == Milestones(p.log) + if ServerCreated(s) then [Started, Closed, TestFinished] else []
  {
    var h := AfterHandshake(p, s);
    assert s.(bufferAllocated := true) == s;
    HandshakeIsNoMilestone(p, s);
    BeatIsNoMilestone(h, s.negotiatedAt);
    MilestonesOfTest(Beat(h, s.negotiatedAt), s);
  }

  lemma {:induction false} TurnsOnlyAppend(p: Progress, turns: seq<Turn>, closedAt: int)
    ensures p.log <= AfterTurns(p, turns, closedAt).log
    decreases |turns|
  {
    if turns != [] && GoesOn(p, turns[0]) {
      TurnsOnlyAppend(AfterTurn(p, turns[0]), turns[1..], closedAt);
    }
  }

  lemma SetupOnlyAppends(p: Progress, s: Surroundings)
    ensures p.log <= AfterSetup(p, s).log
  {
    var b := Beat(AfterHandshake(p, s), s.negotiatedAt);
    TurnsOnlyAppend(b.(log := b.log + [Started]), s.turns, s.closedAt);
  }

  lemma FirstAndLast(s: Surroundings, lastHeartbeat: int)
    ensures var log := AfterConnection(s, lastHeartbeat).log;
            && |log| >= 2 && log[0] == SaysRunning && log[|log| - 1] == SaysFinished
            && (s.bufferAllocated ==> log[|log| - 2] == SaysResult)
  {
    if s.bufferAllocated {
      SetupOnlyAppends(Beat(Progress([SaysRunning], lastHeartbeat, -1), s.begin), s);
    }
  }

  lemma MilestonesOfStart(lastHeartbeat: int, now: int)
    ensures Milestones(Beat(Progress([SaysRunning], lastHeartbeat, -1), now).log) == [SaysRunning]
  {
    MilestonesOfOne([], SaysRunning);
    assert [] + [SaysRunning] == [SaysRunning];
    BeatIsNoMilestone(Progress([SaysRunning], lastHeartbeat, -1), now);
  }

  /** Running, then the test's start and end if there is a server, then a result, then Finished. */
  function Course(s: Surroundings): seq<Output> {
    if !s.bufferAllocated then [SaysRunning] + [SaysFinished]
    else [SaysRunning] + (if ServerCreated(s) then [Started, Closed, TestFinished] else []) + [SaysResult, SaysFinished]
  }

  lemma MilestonesOfConnection(s: Surroundings, lastHeartbeat: int)
    ensures Milestones(AfterConnection(s, lastHeartbeat).log) == Course(s)
  {
    var p := Beat(Progress([SaysRunning], lastHeartbeat, -1), s.begin);
    MilestonesOfStart(lastHeartbeat, s.begin);
    if s.bufferAllocated {
      MilestonesOfSetup(p, s);
      MilestonesOfTwo(AfterSetup(p, s).log, SaysResult, SaysFinished);
    } else {
      MilestonesOfOne(p.log, SaysFinished);
    }
  }

  /**
   * On every path, a connection publishes Running first and Finished last, one result just
   * before that, and dispatches test start, connection close and test end once each, in this
   * order, exactly if a test server was created. Without a buffer there is no result.
   */
  lemma Lifecycle(s: Surroundings, lastHeartbeat: int)
    ensures var log := AfterConnection(s, lastHeartbeat).log;
            && |log| >= 2 && log[0] == SaysRunning && log[|log| - 1] == SaysFinished
            && (s.bufferAllocated ==> log[|log| - 2] == SaysResult)
            && Milestones(log) == Course(s)
  {
    FirstAndLast(s, lastHeartbeat);
    MilestonesOfConnection(s, lastHeartbeat);
  }

  // ---------------------------------------------------------------------------
  // Requests and responses
  // ---------------------------------------------------------------------------

  predicate IsRequest(o: Output) {
    o.Negotiated? || o.Handled?
  }

  /** Every request follows a read, and every response a request that is to be answered. */
  predicate Paired(log: seq<Output>) {
    forall k | 0 <= k < |log| :: Follows(log[..k], log[k])
  }

  /** A request comes right after a read, and a response right after a request to be answered. */
  predicate Follows(log: seq<Output>, o: Output) {
    && (IsRequest(o) ==> log != [] && log[|log| - 1] == Listened)
    && (o.Answered? ==> log != [] && IsRequest(log[|log| - 1]) && Sends(log[|log| - 1].event))
  }

  /** Nothing is read after a request whose event terminates the connection. */
  predicate Obedient(log: seq<Output>) {
    forall j, k | 0 <= j < k < |log| && IsRequest(log[j]) && !Continues(log[j].event) :: log[k] != Listened
  }

  /** No request so far has terminated the connection. */
  predicate Alive(log: seq<Output>) {
    forall j | 0 <= j < |log| && IsRequest(log[j]) :: Continues(log[j].event)
  }

  predicate Orderly(log: seq<Output>) {
    Paired(log) && Obedient(log)
  }

  /** An output that keeps a log orderly. */
  predicate MayFollow(log: seq<Output>, o: Output) {
    Follows(log, o) && (o == Listened ==> Alive(log))
  }

  lemma OneMore(log: seq<Output>, o: Output)
    requires Orderly(log) && MayFollow(log, o)
    ensures Orderly(log + [o])
    ensures Alive(log + [o]) <==> Alive(log) && (IsRequest(o) ==> Continues(o.event))
  {
    var more := log + [o];
    forall k | 0 <= k < |more| ensures Follows(more[..k], more[k]) {
      assert more[..k] == log[..k];
    }
    assert more[|log|] == o;
    assert forall k | 0 <= k < |log| :: more[k] == log[k];
  }

  lemma BeatIsOrderly(p: Progress, now: int)
    requires Orderly(p.log)
    ensures Orderly(Beat(p, now).log) && (Alive(p.log) ==> Alive(Beat(p, now).log))
  {
    OneMore(p.log, Heartbeat(now));
  }

  /** A read, the request it yields, and the response if one is written. */
  lemma ExchangeIsOrderly(log: seq<Output>, request: Output, delivered: bool)
    requires Orderly(log) && Alive(log) && IsRequest(request)
    ensures var l := log + [Listened];
            var r := l + [request];
            && Orderly(l) && Alive(l)
            && Orderly(r) && (Continues(request.event) ==> Alive(r))
            && (Sends(request.event) ==>
                  Orderly(r + [Answered(delivered)]) && (Continues(request.event) ==> Alive(r + [Answered(delivered)])))
  {
    var l := log + [Listened];
    OneMore(log, Listened);
    OneMore(l, request);
    if Sends(request.event) {
      OneMore(l + [request], Answered(delivered));
    }
  }

  lemma HandshakeIsOrderly(p: Progress, s: Surroundings)
    requires Orderly(p.log) && Alive(p.log)
    ensures var q := AfterHandshake(p, s); Orderly(q.log) && (HandshakePasses(s) ==> Alive(q.log))
  {
    BeatIsOrderly(p, s.handshakeAt);
    ExchangeIsOrderly(Beat(p, s.handshakeAt).log, Negotiated(s.negotiation), s.handshakeWrites);
  }

  lemma TurnIsOrderly(p: Progress, t: Turn)
    requires Orderly(p.log) && Alive(p.log)
    ensures var q := AfterTurn(p, t); Orderly(q.log) && (GoesOn(p, t) ==> Alive(q.log))
  {
    BeatIsOrderly(p, t.now);
    ExchangeIsOrderly(Beat(p, t.now).log, Handled(EventOf(t)), t.writes);
  }

  lemma {:induction false} TurnsAreOrderly(p: Progress, turns: seq<Turn>, closedAt: int)
    requires Orderly(p.log) && Alive(p.log)
    ensures Orderly(AfterTurns(p, turns, closedAt).log)
    decreases |turns|
  {
    if turns == [] {
      BeatIsOrderly(p, closedAt);
      OneMore(Beat(p, closedAt).log, Listened);
    } else {
      TurnIsOrderly(p, turns[0]);
      if GoesOn(p, turns[0]) {
        TurnsAreOrderly(AfterTurn(p, turns[0]), turns[1..], closedAt);
      }
    }
  }

  lemma TwoMore(log: seq<Output>, a: Output, b: Output)
    requires Orderly(log) && a in {SaysResult, Closed} && b in {SaysFinished, TestFinished}
    ensures Orderly(log + [a, b])
  {
    OneMore(log, a);
    OneMore(log + [a], b);
    assert log + [a, b] == log + [a] + [b];
  }

  lemma TestIsOrderly(p: Progress, s: Surroundings)
    requires Orderly(p.log) && Alive(p.log)
    ensures Orderly(AfterTest(p, s).log)
  {
    var started := p.(log := p.log + [Started]);
    var q := AfterTurns(started, s.turns, s.closedAt);
    OneMore(p.log, Started);
    TurnsAreOrderly(started, s.turns, s.closedAt);
    BeatIsOrderly(q, s.endedAt);
    TwoMore(Beat(q, s.endedAt).log, Closed, TestFinished);
  }

  lemma SetupIsOrderly(p: Progress, s: Surroundings)
    requires Orderly(p.log) && Alive(p.log)
    ensures Orderly(AfterSetup(p, s).log)
  {
    var h := AfterHandshake(p, s);
    HandshakeIsOrderly(p, s);
    if HandshakePasses(s) {
      BeatIsOrderly(h, s.negotiatedAt);
      TestIsOrderly(Beat(h, s.negotiatedAt), s);
    }
  }

  /**
   * On every path, each read yields at most one request and each request at most one response,
   * none if it is ignored or terminates without a response; and nothing is read after a request
   * that terminates the connection, with or without a response.
   */
  lemma RequestsAndResponses(s: Surroundings, lastHeartbeat: int)
    ensures Orderly(AfterConnection(s, lastHeartbeat).log)
  {
    var p0 := Progress([SaysRunning], lastHeartbeat, -1);
    var p := Beat(p0, s.begin);
    BeatIsOrderly(p0, s.begin);
    if s.bufferAllocated {
      SetupIsOrderly(p, s);
      TwoMore(AfterSetup(p, s).log, SaysResult, SaysFinished);
    } else {
      OneMore(p.log, SaysFinished);
    }
  }

  // ---------------------------------------------------------------------------
  // Return code
  // ---------------------------------------------------------------------------

  /** The response to a request, if there is one, is delivered. */
  predicate Delivers(t: Turn) {
    match EventOf(t)
    case NoEvent => t.encoding == 0 && t.writes
    case SendAndTerminate => t.encoding == 0 && t.writes
    case SendRecvExiMsg => t.writes
    case _ => true
  }

  /** The test server itself ends the conversation, and everything before that was delivered. */
  predicate Concluded(turns: seq<Turn>) {
    turns != [] && turns[0].incoming == Frame && Delivers(turns[0])
    && (Continues(EventOf(turns[0])) ==> Concluded(turns[1..]))
  }

  lemma {:induction false} TurnsReturn(p: Progress, turns: seq<Turn>, closedAt: int)
    ensures AfterTurns(p, turns, closedAt).rv == 0 <==> Concluded(turns)
    decreases |turns|
  {
    if turns != [] && GoesOn(p, turns[0]) {
      TurnsReturn(AfterTurn(p, turns[0]), turns[1..], closedAt);
    }
  }

  /**
   * A connection returns 0 exactly if its handshake passed and the test server ended the
   * conversation by itself, or no test server could be created at all.
   */
  lemma ReturnCode(s: Surroundings, lastHeartbeat: int)
    requires s.bufferAllocated
    ensures AfterConnection(s, lastHeartbeat).rv == 0
       <==> HandshakePasses(s) && (ServerCreated(s) ==> Concluded(s.turns))
  {
    assert s.(bufferAllocated := true) == s;
    var p := Beat(Progress([SaysRunning], lastHeartbeat, -1), s.begin);
    var b := Beat(AfterHandshake(p, s), s.negotiatedAt);
    TurnsReturn(b.(log := b.log + [Started]), s.turns, s.closedAt);
  }

  // ---------------------------------------------------------------------------
  // The connection object
  // ---------------------------------------------------------------------------

  class Connection {
    var log: seq<Output>
    var lastHeartbeat: int

    constructor (lastHeartbeat: int)
      ensures log == [] && this.lastHeartbeat == lastHeartbeat
    {
      this.log, this.lastHeartbeat := [], lastHeartbeat;
    }

    function P(rv: int): Progress
      reads this
    {
      Progress(log, lastHeartbeat, rv)
    }

    method UpdateHeartbeat(now: int)
      modifies this
      ensures forall rv :: P(rv) == Beat(old(P(rv)), now)
    {
      if now - lastHeartbeat >= HEARTBEAT_UPDATE_RATE {
        log := log + [Heartbeat(now)];
        lastHeartbeat := now;
      }
    }

    method IncomingV2gtp(incoming: Incoming) returns (rv: int)
      modifies `log
      ensures log == old(log) + [Listened] && rv == Code(incoming)
    {
      log := log + [Listened];
      match incoming
      case Frame => rv := 0;
      case PeerClosed => rv := 1;
      case ReadFailed => rv := -1;
    }

    method OutgoingV2gtp(writes: bool) returns (rv: int)
      modifies `log
      ensures P(rv) == Write(old(P(0)), writes)
    {
      log := log + [Answered(writes)];
      rv := if writes then 0 else -1;
    }

    /** The handshake loop, which is left after its first pass, and the handshake's response. */
    method Handshake(s: Surroundings) returns (rv: int, passed: bool)
      modifies this
      ensures P(rv) == AfterHandshake(old(P(0)), s) && passed == HandshakePasses(s)
    {
      var event := NoEvent;
      var again := true;
      rv := 0;
      while again
        invariant again ==> P(0) == old(P(0))
        invariant !again ==> rv == 0 && s.handshake == Frame && !s.terminated && event == s.negotiation
        invariant !again ==> var b := Beat(old(P(0)), s.handshakeAt);
                             P(rv) == b.(log := b.log + [Listened] + [Negotiated(event)], rv := 0)
        decreases again
      {
        UpdateHeartbeat(s.handshakeAt);
        rv := IncomingV2gtp(s.handshake);
        if rv != 0 {
          return rv, false;
        }
        if s.terminated {
          return -1, false;
        }
        event := s.negotiation;
        log := log + [Negotiated(event)];
        again := rv == 1 && event == IgnoreMsg;
      }
      if event == SendAndTerminate || event == NoEvent {
        rv := OutgoingV2gtp(s.handshakeWrites);
        if rv == -1 {
          return rv, false;
        }
      }
      if event == SendAndTerminate || event == TerminateConnection {
        return -1, false;
      }
      passed := true;
    }

    /** One pass of the receive loop after a frame has been read. */
    method HandleFrame(t: Turn) returns (rv: int, stop: bool)
      modifies `log
      ensures var was := old(P(0)); P(rv) == Respond(was.(log := was.log + [Handled(EventOf(t))]), t)
      ensures stop == !Continues(EventOf(t))
      ensures var responds := && t.decoding == 0
                              && (t.event == SendRecvExiMsg
                                  || ((t.event == NoEvent || t.event == SendAndTerminate) && t.encoding == 0));
              log == old(log) + [Handled(if t.decoding == 0 then t.event else IgnoreMsg)]
                     + if responds then [Answered(t.writes)] else []
    {
      var event := t.event;
      rv := t.decoding;
      stop := false;
      if rv != 0 {
        rv := 0;
        event := IgnoreMsg;
      }
      log := log + [Handled(event)];
      match event {
        case SendAndTerminate =>
          stop := true;
          rv := t.encoding;
          if rv == 0 {
            rv := OutgoingV2gtp(t.writes);
          }
        case NoEvent =>
          rv := t.encoding;
          if rv == 0 {
            rv := OutgoingV2gtp(t.writes);
          }
        case SendRecvExiMsg => rv := OutgoingV2gtp(t.writes);
        case IgnoreMsg =>
        case TerminateConnection => stop := true;
      }
    }

    method ReceiveLoop(turns: seq<Turn>, closedAt: int) returns (rv: int)
      modifies this
      ensures P(rv) == AfterTurns(old(P(0)), turns, closedAt)
    {
      var i := 0;
      var going := true;
      rv := 0;
      while going
        invariant i <= |turns|
        invariant going ==> rv == 0
        invariant going ==> AfterTurns(P(rv), turns[i..], closedAt) == AfterTurns(old(P(0)), turns, closedAt)
        invariant !going ==> P(rv) == AfterTurns(old(P(0)), turns, closedAt)
        decreases |turns| - i, going
      {
        UpdateHeartbeat(if i == |turns| then closedAt else turns[i].now);
        rv := IncomingV2gtp(if i == |turns| then PeerClosed else turns[i].incoming);
        if rv == 1 || rv == -1 {
          break;
        }
        assert turns[i..][1..] == turns[i + 1..];
        var stop;
        rv, stop := HandleFrame(turns[i]);
        i := i + 1;
        going := rv == 0 && !stop;
      }
    }

    method HandleConnection(s: Surroundings) returns (rv: int)
      requires log == []
      modifies this
      ensures P(rv) == AfterConnection(s, old(lastHeartbeat))
    {
      log := log + [SaysRunning];
      assert log == [SaysRunning];
      UpdateHeartbeat(s.begin);
      assert P(-1) == Beat(Progress([SaysRunning], old(lastHeartbeat), -1), s.begin);
      if !s.bufferAllocated {
        log := log + [SaysFinished];
        return -1;
      }
      rv := Setup(s);
      log := log + [SaysResult, SaysFinished];
      rv := if rv != 0 then -1 else 0;
    }

    /** From the handshake to the clean-up, whichever way the connection ends. */
    method Setup(s: Surroundings) returns (rv: int)
      modifies this
      ensures P(rv) == AfterSetup(old(P(-1)), s)
    {
      var passed;
      rv, passed := Handshake(s);
      if passed {
        UpdateHeartbeat(s.negotiatedAt);
        if s.protocol != UnknownProtocol && s.documentsAllocated && s.testKnown {
          log := log + [Started];
          rv := ReceiveLoop(s.turns, s.closedAt);
          UpdateHeartbeat(s.endedAt);
          log := log + [Closed, TestFinished];
        }
      }
    }
  }
}
