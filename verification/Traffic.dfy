/**
 * What passes between a connection and its peer, told from the surroundings alone: which frames
 * are read, what each of them is taken for, and which response is written to it.
 */
module Traffic {
  import opened V2g
  import opened V2gServer
  import opened Wrappers

  // ---------------------------------------------------------------------------
  // Exchanges, told from the surroundings
  // ---------------------------------------------------------------------------

  predicate IsTraffic(o: Output) {
    o.Listened? || o.Negotiated? || o.Handled? || o.Answered?
  }

  /** The reads, requests and responses of a log, in order. */
  function TrafficOf(log: seq<Output>): seq<Output> {
    if log == [] then []
    else TrafficOf(log[..|log| - 1]) + if IsTraffic(log[|log| - 1]) then [log[|log| - 1]] else []
  }

  /** A frame that cannot be decoded is taken for one to be ignored. */
  function Taken(t: Turn): V2gEvent {
    if t.decoding == 0 then t.event else IgnoreMsg
  }

  /** A response is written: one that the test server provides as a stream, or one that could be encoded. */
  predicate Responds(t: Turn) {
    && t.incoming == Frame && t.decoding == 0
    && (t.event == SendRecvExiMsg || ((t.event == NoEvent || t.event == SendAndTerminate) && t.encoding == 0))
  }

  /** What one pass of the receive loop exchanges. */
  function Exchange(t: Turn): seq<Output> {
    if t.incoming != Frame then [Listened]
    else if !Responds(t) then [Listened, Handled(Taken(t))]
    else [Listened, Handled(Taken(t)), Answered(t.writes)]
  }

  /** The next frame is read: this one is ignored, or it leaves the connection open and its response is written. */
  predicate Proceeds(t: Turn) {
    && t.incoming == Frame
    && (Taken(t) == IgnoreMsg || (Responds(t) && t.writes && t.event != SendAndTerminate))
  }

  /** What the passes of the receive loop exchange, up to the one that ends it; after the last frame the peer closes. */
  function Conversation(turns: seq<Turn>): seq<Output> {
    if turns == [] then [Listened]
    else Exchange(turns[0]) + if Proceeds(turns[0]) then Conversation(turns[1..]) else []
  }

  /** The handshake's request is handled. */
  predicate Negotiates(s: Surroundings) {
    s.handshake == Frame && !s.terminated
  }

  /** The handshake's response is written. */
  predicate RespondsToHandshake(s: Surroundings) {
    Negotiates(s) && (s.negotiation == NoEvent || s.negotiation == SendAndTerminate)
  }

  function HandshakeExchange(s: Surroundings): seq<Output> {
    if !Negotiates(s) then [Listened]
    else if !RespondsToHandshake(s) then [Listened, Negotiated(s.negotiation)]
    else [Listened, Negotiated(s.negotiation), Answered(s.handshakeWrites)]
  }

  /** The handshake leaves the connection open, and its response, if it has one, is delivered. */
  predicate GetsThrough(s: Surroundings) {
    && Negotiates(s)
    && s.negotiation != SendAndTerminate && s.negotiation != TerminateConnection
    && (s.negotiation == NoEvent ==> s.handshakeWrites)
  }

  /** The connection comes to its receive loop. */
  predicate Served(s: Surroundings) {
    && s.bufferAllocated && GetsThrough(s)
    && (s.protocol == Din70121 || s.protocol == Iso2010 || s.protocol == Iso2013)
    && s.documentsAllocated && s.testKnown
  }

  // ---------------------------------------------------------------------------
  // The log contains them, and nothing else
  // ---------------------------------------------------------------------------

  lemma TrafficOfOneMore(log: seq<Output>, o: Output)
    ensures TrafficOf(log + [o]) == TrafficOf(log) + if IsTraffic(o) then [o] else []
  {
    assert (log + [o])[..|log|] == log;
  }

  lemma {:induction false} TrafficOfMore(log: seq<Output>, more: seq<Output>)
    requires forall k | 0 <= k < |more| :: IsTraffic(more[k])
    ensures TrafficOf(log + more) == TrafficOf(log) + more
  {
    if more == [] {
      assert log + more == log;
    } else {
      var front, o := more[..|more| - 1], more[|more| - 1];
      TrafficOfMore(log, front);
      TrafficOfOneMore(log + front, o);
      Associates(log, front, [o]);
      Associates(TrafficOf(log), front, [o]);
      assert front + [o] == more;
    }
  }

  lemma AppendedOneByOne(log: seq<Output>, a: Output, b: Output, c: Output)
    ensures log + [a] + [b] == log + [a, b]
    ensures log + [a] + [b] + [c] == log + [a, b, c]
  {
  }

  lemma NoTraffic(log: seq<Output>, a: Output, b: Output)
    requires !IsTraffic(a) && !IsTraffic(b)
    ensures TrafficOf(log + [a]) == TrafficOf(log + [a, b]) == TrafficOf(log)
  {
    TrafficOfOneMore(log, a);
    TrafficOfOneMore(log + [a], b);
    assert log + [a] + [b] == log + [a, b];
  }

  lemma BeatIsNoTraffic(p: Progress, now: int)
    ensures TrafficOf(Beat(p, now).log) == TrafficOf(p.log)
  {
    NoTraffic(p.log, Heartbeat(now), Heartbeat(now));
  }

  /** One pass adds its exchange to the log, after a heartbeat that may be due. */
  lemma TurnIsLogged(p: Progress, t: Turn)
    ensures AfterTurn(p, t).log == Beat(p, t.now).log + Exchange(t)
    ensures GoesOn(p, t) <==> Proceeds(t)
  {
    AppendedOneByOne(Beat(p, t.now).log, Listened, Handled(Taken(t)), Answered(t.writes));
  }

  lemma ExchangeIsTraffic(t: Turn)
    ensures forall k | 0 <= k < |Exchange(t)| :: IsTraffic(Exchange(t)[k])
  {
  }

  lemma HandshakeExchangeIsTraffic(s: Surroundings)
    ensures forall k | 0 <= k < |HandshakeExchange(s)| ::
              IsTraffic(HandshakeExchange(s)[k]) && !HandshakeExchange(s)[k].Handled?
  {
  }

  lemma TurnIsTraffic(p: Progress, t: Turn)
    ensures TrafficOf(AfterTurn(p, t).log) == TrafficOf(p.log) + Exchange(t)
  {
    TurnIsLogged(p, t);
    BeatIsNoTraffic(p, t.now);
    ExchangeIsTraffic(t);
    TrafficOfMore(Beat(p, t.now).log, Exchange(t));
  }

  lemma {:induction false} TurnsAreLogged(p: Progress, turns: seq<Turn>, closedAt: int)
    ensures TrafficOf(AfterTurns(p, turns, closedAt).log) == TrafficOf(p.log) + Conversation(turns)
    decreases |turns|
  {
    if turns == [] {
      BeatIsNoTraffic(p, closedAt);
      TrafficOfOneMore(Beat(p, closedAt).log, Listened);
    } else {
      TurnIsLogged(p, turns[0]);
      TurnIsTraffic(p, turns[0]);
      if GoesOn(p, turns[0]) {
        TurnsAreLogged(AfterTurn(p, turns[0]), turns[1..], closedAt);
        Associates(TrafficOf(p.log), Exchange(turns[0]), Conversation(turns[1..]));
      }
    }
  }

  lemma HandshakeIsLogged(p: Progress, s: Surroundings)
    ensures AfterHandshake(p, s).log == Beat(p, s.handshakeAt).log + HandshakeExchange(s)
    ensures s.bufferAllocated ==> (HandshakePasses(s) && ServerCreated(s) <==> Served(s))
  {
    AppendedOneByOne(Beat(p, s.handshakeAt).log, Listened, Negotiated(s.negotiation), Answered(s.handshakeWrites));
  }

  lemma HandshakeIsTraffic(p: Progress, s: Surroundings)
    ensures TrafficOf(AfterHandshake(p, s).log) == TrafficOf(p.log) + HandshakeExchange(s)
  {
    HandshakeIsLogged(p, s);
    BeatIsNoTraffic(p, s.handshakeAt);
    HandshakeExchangeIsTraffic(s);
    TrafficOfMore(Beat(p, s.handshakeAt).log, HandshakeExchange(s));
  }

  lemma TestIsLogged(p: Progress, s: Surroundings)
    ensures TrafficOf(AfterTest(p, s).log) == TrafficOf(p.log) + Conversation(s.turns)
  {
    var start := p.(log := p.log + [Started]);
    var q := AfterTurns(start, s.turns, s.closedAt);
    NoTraffic(p.log, Started, Started);
    TurnsAreLogged(start, s.turns, s.closedAt);
    BeatIsNoTraffic(q, s.endedAt);
    NoTraffic(Beat(q, s.endedAt).log, Closed, TestFinished);
  }

  lemma SetupIsLogged(p: Progress, s: Surroundings)
    requires s.bufferAllocated
    ensures TrafficOf(AfterSetup(p, s).log)
         == TrafficOf(p.log) + HandshakeExchange(s) + if Served(s) then Conversation(s.turns) else []
  {
    var h := AfterHandshake(p, s);
    HandshakeIsLogged(p, s);
    HandshakeIsTraffic(p, s);
    BeatIsNoTraffic(h, s.negotiatedAt);
    TestIsLogged(Beat(h, s.negotiatedAt), s);
    SetupByServer(p, s);
  }

  /** The course of a set-up, by whether the handshake passes and a server is created. */
  lemma SetupByServer(p: Progress, s: Surroundings)
    requires s.bufferAllocated
    ensures var h := AfterHandshake(p, s);
            AfterSetup(p, s) == if !HandshakePasses(s) then h
                                else if ServerCreated(s) then AfterTest(Beat(h, s.negotiatedAt), s)
                                else Beat(h, s.negotiatedAt)
  {
    assert s.(bufferAllocated := true) == s;
  }

  /**
   * On every path, the peer is read from and answered exactly so: once for the handshake, if there is a
   * buffer, and then, if the connection comes to its receive loop, once for each frame up to the one that
   * ends it. Every request that is to be answered gets its response if one can be written, and no other does.
   */
  lemma TrafficExactly(s: Surroundings, lastHeartbeat: int)
    ensures TrafficOf(AfterConnection(s, lastHeartbeat).log)
         == if !s.bufferAllocated then []
            else HandshakeExchange(s) + if Served(s) then Conversation(s.turns) else []
  {
    var p := Beginning(s, lastHeartbeat);
    if s.bufferAllocated {
      SetupIsLogged(p, s);
      NoTraffic(AfterSetup(p, s).log, SaysResult, SaysFinished);
      assert [] + HandshakeExchange(s) == HandshakeExchange(s);
    } else {
      NoTraffic(p.log, SaysFinished, SaysFinished);
    }
  }

  function Beginning(s: Surroundings, lastHeartbeat: int): (p: Progress)
    ensures TrafficOf(p.log) == []
  {
    var p := Progress([SaysRunning], lastHeartbeat, -1);
    NoTraffic([], SaysRunning, SaysRunning);
    assert [] + [SaysRunning] == [SaysRunning];
    BeatIsNoTraffic(p, s.begin);
    Beat(p, s.begin)
  }

  // ---------------------------------------------------------------------------
  // Every request and its response
  // ---------------------------------------------------------------------------

  /** How many requests a log contains after the handshake. */
  function Requests(log: seq<Output>): nat {
    if log == [] then 0 else Requests(log[..|log| - 1]) + if log[|log| - 1].Handled? then 1 else 0
  }

  lemma RequestsOfOneMore(log: seq<Output>, o: Output)
    ensures Requests(log + [o]) == Requests(log) + if o.Handled? then 1 else 0
  {
    assert (log + [o])[..|log|] == log;
  }

  lemma RequestsOfExchange(p: Progress, t: Turn)
    ensures Requests(Beat(p, t.now).log) == Requests(p.log)
    ensures Requests(AfterTurn(p, t).log) == Requests(p.log) + if t.incoming == Frame then 1 else 0
  {
    var b := Beat(p, t.now).log;
    RequestsOfOneMore(p.log, Heartbeat(t.now));
    RequestsOfOneMore(b, Listened);
    RequestsOfOneMore(b + [Listened], Handled(Taken(t)));
    RequestsOfOneMore(b + [Listened] + [Handled(Taken(t))], Answered(t.writes));
  }

  /** Whatever has been logged before it, a read comes next, perhaps after a heartbeat. */
  lemma ReadComesNext(p: Progress, turns: seq<Turn>, closedAt: int)
    ensures var log := AfterTurns(p, turns, closedAt).log;
            p.log < log && (log[|p.log|].Heartbeat? || log[|p.log|].Listened?)
  {
    if turns != [] {
      var q := AfterTurn(p, turns[0]);
      TurnIsLogged(p, turns[0]);
      assert q.log[|p.log|].Heartbeat? || q.log[|p.log|].Listened?;
      if GoesOn(p, turns[0]) {
        TurnsOnlyAppend(q, turns[1..], closedAt);
      }
    }
  }

  /** Turn `i` is in the log, after `i` requests, and no response follows but its own. */
  lemma {:induction false} TurnIsInLog(p: Progress, turns: seq<Turn>, closedAt: int, i: nat)
    returns (before: seq<Output>)
    requires i < |turns| && forall j | 0 <= j < i :: Proceeds(turns[j])
    ensures var log, until := AfterTurns(p, turns, closedAt).log, before + Exchange(turns[i]);
            until <= log && (until < log ==> !log[|until|].Answered?)
    ensures Requests(before) == Requests(p.log) + i
    decreases |turns|
  {
    var q := AfterTurn(p, turns[0]);
    TurnIsLogged(p, turns[0]);
    RequestsOfExchange(p, turns[0]);
    if i == 0 {
      before := Beat(p, turns[0].now).log;
      if GoesOn(p, turns[0]) {
        ReadComesNext(q, turns[1..], closedAt);
      }
    } else {
      before := TurnIsInLog(q, turns[1..], closedAt, i - 1);
    }
  }

  lemma {:induction false} NoRequests(log: seq<Output>, more: seq<Output>)
    requires forall k | 0 <= k < |more| :: !more[k].Handled?
    ensures Requests(log + more) == Requests(log)
  {
    if more == [] {
      assert log + more == log;
    } else {
      var front, o := more[..|more| - 1], more[|more| - 1];
      NoRequests(log, front);
      RequestsOfOneMore(log + front, o);
      Associates(log, front, [o]);
      assert front + [o] == more;
    }
  }

  lemma HandshakeRequestsNothing(p: Progress, s: Surroundings)
    ensures Requests(AfterHandshake(p, s).log) == Requests(p.log)
  {
    HandshakeIsLogged(p, s);
    RequestsOfOneMore(p.log, Heartbeat(s.handshakeAt));
    HandshakeExchangeIsTraffic(s);
    NoRequests(Beat(p, s.handshakeAt).log, HandshakeExchange(s));
  }

  /** What the receive loop starts with. */
  function LoopStart(s: Surroundings, lastHeartbeat: int): Progress {
    var b := Beat(AfterHandshake(Beat(Progress([SaysRunning], lastHeartbeat, -1), s.begin), s), s.negotiatedAt);
    b.(log := b.log + [Started])
  }

  lemma NoRequestYet(s: Surroundings, lastHeartbeat: int)
    ensures Requests(LoopStart(s, lastHeartbeat).log) == 0
  {
    var p0 := Progress([SaysRunning], lastHeartbeat, -1);
    var p := Beat(p0, s.begin);
    var h := AfterHandshake(p, s);
    RequestsOfOneMore([], SaysRunning);
    assert [] + [SaysRunning] == [SaysRunning];
    RequestsOfOneMore(p0.log, Heartbeat(s.begin));
    HandshakeRequestsNothing(p, s);
    RequestsOfOneMore(h.log, Heartbeat(s.negotiatedAt));
    RequestsOfOneMore(Beat(h, s.negotiatedAt).log, Started);
  }

  lemma LoopIsLogged(s: Surroundings, lastHeartbeat: int)
    requires Served(s)
    ensures AfterConnection(s, lastHeartbeat).log
         == Beat(AfterTurns(LoopStart(s, lastHeartbeat), s.turns, s.closedAt), s.endedAt).log
            + [Closed, TestFinished, SaysResult, SaysFinished]
  {
    var p := Beat(Progress([SaysRunning], lastHeartbeat, -1), s.begin);
    HandshakeIsLogged(p, s);
    SetupByServer(p, s);
    assert [Closed, TestFinished] + [SaysResult, SaysFinished] == [Closed, TestFinished, SaysResult, SaysFinished];
  }

  /**
   * Every frame that the receive loop comes to is the next request of the log, and if it can be answered, it is:
   * the response follows directly, with the outcome of writing it. Otherwise, no response follows.
   */
  lemma RequestIsAnswered(s: Surroundings, lastHeartbeat: int, i: nat) returns (k: nat)
    requires Served(s) && i < |s.turns| && s.turns[i].incoming == Frame
    requires forall j | 0 <= j < i :: Proceeds(s.turns[j])
    ensures var log, t := AfterConnection(s, lastHeartbeat).log, s.turns[i];
            && k + 1 < |log| && log[k] == Handled(Taken(t)) && Requests(log[..k]) == i
            && if Responds(t) then log[k + 1] == Answered(t.writes) else !log[k + 1].Answered?
  {
    var t := s.turns[i];
    var start := LoopStart(s, lastHeartbeat);
    NoRequestYet(s, lastHeartbeat);
    LoopIsLogged(s, lastHeartbeat);
    var before := TurnIsInLog(start, s.turns, s.closedAt, i);
    var log, turns := AfterConnection(s, lastHeartbeat).log, AfterTurns(start, s.turns, s.closedAt).log;
    k := |before| + 1;
    assert turns <= log && |turns| < |log|;
    assert log[..k] == before + [Listened];
    RequestsOfOneMore(before, Listened);
  }

  // ---------------------------------------------------------------------------
  // Return code
  // ---------------------------------------------------------------------------

  /** The test server ends the conversation with a frame, and everything before that has been delivered. */
  predicate EndsItself(t: Turn) {
    t.incoming == Frame && (Taken(t) == TerminateConnection || (t.event == SendAndTerminate && Responds(t) && t.writes))
  }

  predicate EndsAt(turns: seq<Turn>, n: nat)
    requires n < |turns|
  {
    EndsItself(turns[n]) && forall j | 0 <= j < n :: Proceeds(turns[j])
  }

  lemma EndsLater(turns: seq<Turn>, n: nat)
    requires n + 1 < |turns| && Proceeds(turns[0])
    ensures EndsAt(turns, n + 1) <==> EndsAt(turns[1..], n)
  {
    assert forall j | 0 < j < |turns| :: turns[j] == turns[1..][j - 1];
  }

  lemma {:induction false} ConcludedExactly(turns: seq<Turn>)
    ensures Concluded(turns) <==> exists n | 0 <= n < |turns| :: EndsAt(turns, n)
  {
    if turns != [] {
      ConcludedExactly(turns[1..]);
      assert Concluded(turns) <==> EndsItself(turns[0]) || (Proceeds(turns[0]) && Concluded(turns[1..]));
      assert EndsAt(turns, 0) <==> EndsItself(turns[0]);
      if Proceeds(turns[0]) {
        forall n: nat | n < |turns| - 1 ensures EndsAt(turns, n + 1) <==> EndsAt(turns[1..], n) {
          EndsLater(turns, n);
        }
        if n :| 0 < n < |turns| && EndsAt(turns, n) {
          assert EndsAt(turns[1..], n - 1);
        }
      }
    }
  }

  /**
   * A connection returns 0 exactly if its handshake got through and either no test server could be created,
   * or the test server ended the conversation with some frame, up to which everything was delivered; otherwise -1.
   */
  lemma ReturnsExactly(s: Surroundings, lastHeartbeat: int)
    ensures AfterConnection(s, lastHeartbeat).rv
         == if && s.bufferAllocated && GetsThrough(s)
               && (Served(s) ==> exists n | 0 <= n < |s.turns| :: EndsAt(s.turns, n))
            then 0 else -1
  {
    if s.bufferAllocated {
      ReturnCode(s, lastHeartbeat);
      ConcludedExactly(s.turns);
      HandshakeIsLogged(Beat(Progress([SaysRunning], lastHeartbeat, -1), s.begin), s);
    }
  }
}
