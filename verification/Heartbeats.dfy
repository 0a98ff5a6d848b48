/**
 * When the heartbeats of a connection are recent enough for whoever watches it. A connection
 * sends one only where its course passes a call of `update_heartbeat`; the reads in between
 * block without sending any.
 */
module Heartbeats {
  import opened V2g
  import opened V2gServer
  import opened Wrappers

  /** The times of the heartbeats in a log. */
  function Beats(log: seq<Output>): seq<int> {
    if log == [] then []
    else Beats(log[..|log| - 1]) + match log[|log| - 1] case Heartbeat(at) => [at] case _ => []
  }

  lemma BeatsOfOneMore(log: seq<Output>, o: Output)
    ensures Beats(log + [o]) == Beats(log) + match o case Heartbeat(at) => [at] case _ => []
  {
    assert (log + [o])[..|log|] == log;
  }

  /** The time of the last heartbeat after a call at `now`. */
  function Beaten(last: int, now: int): int {
    if now - last >= HEARTBEAT_UPDATE_RATE then now else last
  }

  /** The heartbeats sent by calls at these times, after a heartbeat at `last`. */
  function Sent(last: int, calls: seq<int>): seq<int>
    decreases |calls|
  {
    if calls == [] then []
    else if calls[0] - last >= HEARTBEAT_UPDATE_RATE then [calls[0]] + Sent(calls[0], calls[1..])
    else Sent(last, calls[1..])
  }

  /** The time of the last heartbeat after these calls. */
  function Last(last: int, calls: seq<int>): int
    decreases |calls|
  {
    if calls == [] then last
    else Last(Beaten(last, calls[0]), calls[1..])
  }

  lemma {:induction false} CallsSplit(last: int, a: seq<int>, b: seq<int>)
    ensures Sent(last, a + b) == Sent(last, a) + Sent(Last(last, a), b)
    ensures Last(last, a + b) == Last(Last(last, a), b)
    decreases |a|
  {
    if a == [] {
      assert a + b == b;
    } else {
      assert (a + b)[1..] == a[1..] + b;
      CallsSplit(Beaten(last, a[0]), a[1..], b);
    }
  }

  // ---------------------------------------------------------------------------
  // The calls of a connection
  // ---------------------------------------------------------------------------

  /** From `p` to `q`, the connection made calls at these times and sent no other heartbeats. */
  predicate Makes(p: Progress, q: Progress, calls: seq<int>) {
    && q.lastHeartbeat == Last(p.lastHeartbeat, calls)
    && Beats(q.log) == Beats(p.log) + Sent(p.lastHeartbeat, calls)
  }

  lemma OneAfterAnother(p: Progress, q: Progress, r: Progress, a: seq<int>, b: seq<int>)
    requires Makes(p, q, a) && Makes(q, r, b)
    ensures Makes(p, r, a + b)
  {
    CallsSplit(p.lastHeartbeat, a, b);
    Associates(Beats(p.log), Sent(p.lastHeartbeat, a), Sent(q.lastHeartbeat, b));
  }

  lemma OneCall(last: int, now: int)
    ensures Sent(last, [now]) == if now - last >= HEARTBEAT_UPDATE_RATE then [now] else []
    ensures Last(last, [now]) == Beaten(last, now)
  {
    var rest := [now][1..];
    assert rest == [];
    assert Sent(now, rest) == [] && Sent(last, rest) == [];
  }

  lemma BeatMakesOne(p: Progress, now: int)
    ensures Makes(p, Beat(p, now), [now])
  {
    BeatsOfOneMore(p.log, Output.Heartbeat(now));
    OneCall(p.lastHeartbeat, now);
  }

  lemma QuietOutputs(log: seq<Output>, a: Output, b: Output, c: Output)
    requires !a.Heartbeat? && !b.Heartbeat? && !c.Heartbeat?
    ensures Beats(log) == Beats(log + [a]) == Beats(log + [a] + [b]) == Beats(log + [a] + [b] + [c])
  {
    BeatsOfOneMore(log, a);
    BeatsOfOneMore(log + [a], b);
    BeatsOfOneMore(log + [a] + [b], c);
  }

  lemma TwoQuietOutputs(log: seq<Output>, a: Output, b: Output)
    requires !a.Heartbeat? && !b.Heartbeat?
    ensures Beats(log + [a, b]) == Beats(log)
  {
    QuietOutputs(log, a, b, b);
    assert log + [a] + [b] == log + [a, b];
  }

  lemma Quiet(p: Progress, q: Progress, r: Progress, calls: seq<int>)
    requires Makes(p, q, calls) && r.lastHeartbeat == q.lastHeartbeat && Beats(r.log) == Beats(q.log)
    ensures Makes(p, r, calls)
  {
  }

  lemma ExchangeMakesOne(p: Progress, q: Progress, now: int, request: Output, delivered: bool)
    requires request.Negotiated? || request.Handled?
    requires var l := Beat(p, now).log + [Listened];
             var r := l + [request];
             q.log in {l, r, r + [Answered(delivered)]}
    requires q.lastHeartbeat == Beat(p, now).lastHeartbeat
    ensures Makes(p, q, [now])
  {
    BeatMakesOne(p, now);
    QuietOutputs(Beat(p, now).log, Listened, request, Answered(delivered));
  }

  lemma HandshakeMakesOne(p: Progress, s: Surroundings)
    ensures Makes(p, AfterHandshake(p, s), [s.handshakeAt])
  {
    LogOfHandshake(p, s);
    ExchangeMakesOne(p, AfterHandshake(p, s), s.handshakeAt, Negotiated(s.negotiation), s.handshakeWrites);
  }

  lemma TurnMakesOne(p: Progress, t: Turn)
    ensures Makes(p, AfterTurn(p, t), [t.now])
  {
    LogOfTurn(p, t);
    ExchangeMakesOne(p, AfterTurn(p, t), t.now, Handled(EventOf(t)), t.writes);
  }

  function CallsOfTurns(p: Progress, turns: seq<Turn>, closedAt: int): seq<int>
    decreases |turns|
  {
    if turns == [] then [closedAt]
    else if GoesOn(p, turns[0]) then [turns[0].now] + CallsOfTurns(AfterTurn(p, turns[0]), turns[1..], closedAt)
    else [turns[0].now]
  }

  lemma {:induction false} TurnsMakeCalls(p: Progress, turns: seq<Turn>, closedAt: int)
    ensures Makes(p, AfterTurns(p, turns, closedAt), CallsOfTurns(p, turns, closedAt))
    decreases |turns|
  {
    if turns == [] {
      BeatMakesOne(p, closedAt);
      BeatsOfOneMore(Beat(p, closedAt).log, Listened);
    } else {
      var q := AfterTurn(p, turns[0]);
      TurnMakesOne(p, turns[0]);
      if GoesOn(p, turns[0]) {
        TurnsMakeCalls(q, turns[1..], closedAt);
        OneAfterAnother(p, q, AfterTurns(q, turns[1..], closedAt), [turns[0].now],
                        CallsOfTurns(q, turns[1..], closedAt));
      }
    }
  }

  function CallsOfTest(p: Progress, s: Surroundings): seq<int> {
    CallsOfTurns(p.(log := p.log + [Started]), s.turns, s.closedAt) + [s.endedAt]
  }

  lemma StartIsQuiet(p: Progress, s: Surroundings)
    ensures var start := p.(log := p.log + [Started]);
            Makes(p, AfterTurns(start, s.turns, s.closedAt), CallsOfTurns(start, s.turns, s.closedAt))
  {
    BeatsOfOneMore(p.log, Started);
    TurnsMakeCalls(p.(log := p.log + [Started]), s.turns, s.closedAt);
  }

  lemma TestMakesCalls(p: Progress, s: Surroundings)
    ensures Makes(p, AfterTest(p, s), CallsOfTest(p, s))
  {
    var start := p.(log := p.log + [Started]);
    var turns := AfterTurns(start, s.turns, s.closedAt);
    var q := Beat(turns, s.endedAt);
    StartIsQuiet(p, s);
    BeatMakesOne(turns, s.endedAt);
    OneAfterAnother(p, turns, q, CallsOfTurns(start, s.turns, s.closedAt), [s.endedAt]);
    TwoQuietOutputs(q.log, Closed, TestFinished);
    Quiet(p, q, AfterTest(p, s), CallsOfTest(p, s));
  }

  function CallsOfSetup(p: Progress, s: Surroundings): seq<int> {
    var h := AfterHandshake(p, s);
    if !HandshakePasses(s) then [s.handshakeAt]
    else
      [s.handshakeAt] + ([s.negotiatedAt]
      + if ServerCreated(s.(bufferAllocated := true)) then CallsOfTest(Beat(h, s.negotiatedAt), s) else [])
  }

  lemma SetupMakesCalls(p: Progress, s: Surroundings)
    ensures Makes(p, AfterSetup(p, s), CallsOfSetup(p, s))
  {
    var h := AfterHandshake(p, s);
    HandshakeMakesOne(p, s);
    if HandshakePasses(s) {
      var b := Beat(h, s.negotiatedAt);
      BeatMakesOne(h, s.negotiatedAt);
      if ServerCreated(s.(bufferAllocated := true)) {
        TestMakesCalls(b, s);
        OneAfterAnother(h, b, AfterTest(b, s), [s.negotiatedAt], CallsOfTest(b, s));
        OneAfterAnother(p, h, AfterTest(b, s), [s.handshakeAt], [s.negotiatedAt] + CallsOfTest(b, s));
      } else {
        assert [s.negotiatedAt] + [] == [s.negotiatedAt];
        OneAfterAnother(p, h, b, [s.handshakeAt], [s.negotiatedAt]);
      }
    }
  }

  /** The times at which a connection calls `update_heartbeat`, on the path that it takes. */
  function Calls(s: Surroundings, lastHeartbeat: int): seq<int> {
    [s.begin]
    + if s.bufferAllocated then CallsOfSetup(Beat(Progress([SaysRunning], lastHeartbeat, -1), s.begin), s) else []
  }

  /** A connection sends the heartbeats that its calls send, and no others. */
  lemma ConnectionSends(s: Surroundings, lastHeartbeat: int)
    ensures Beats(AfterConnection(s, lastHeartbeat).log) == Sent(lastHeartbeat, Calls(s, lastHeartbeat))
  {
    var start := Progress([SaysRunning], lastHeartbeat, -1);
    var p := Beat(start, s.begin);
    assert Beats([SaysRunning]) == [] by {
      BeatsOfOneMore([], SaysRunning);
      assert [] + [SaysRunning] == [SaysRunning];
    }
    BeatMakesOne(start, s.begin);
    if s.bufferAllocated {
      var q := AfterSetup(p, s);
      SetupMakesCalls(p, s);
      OneAfterAnother(start, p, q, [s.begin], CallsOfSetup(p, s));
      TwoQuietOutputs(q.log, SaysResult, SaysFinished);
    } else {
      BeatsOfOneMore(p.log, SaysFinished);
      assert [s.begin] + [] == [s.begin];
    }
  }

  // ---------------------------------------------------------------------------
  // Freshness
  // ---------------------------------------------------------------------------

  /** At `t`, some heartbeat is no older than `bound`. */
  predicate Fresh(last: int, sent: seq<int>, bound: int, t: int) {
    t - bound <= last <= t || exists i | 0 <= i < |sent| :: t - bound <= sent[i] <= t
  }

  /** From `from` to `end` there is always a heartbeat that is no older than `bound`. */
  ghost predicate FreshThroughout(last: int, sent: seq<int>, bound: int, from: int, end: int) {
    forall t | from <= t <= end :: Fresh(last, sent, bound, t)
  }

  /** Times in order, from `last` on. */
  predicate Ordered(last: int, calls: seq<int>)
    decreases |calls|
  {
    calls == [] || (last <= calls[0] && Ordered(calls[0], calls[1..]))
  }

  /** Each call comes at most `bound` after the last heartbeat before it. */
  predicate InTime(last: int, calls: seq<int>, bound: int)
    decreases |calls|
  {
    calls == [] || (calls[0] - last <= bound && InTime(Beaten(last, calls[0]), calls[1..], bound))
  }

  /** The same, told of every call at once. */
  lemma {:induction false} InTimeMeans(last: int, calls: seq<int>, bound: int)
    ensures InTime(last, calls, bound) <==> forall k | 0 <= k < |calls| :: calls[k] - Last(last, calls[..k]) <= bound
    decreases |calls|
  {
    if calls != [] {
      var next, rest := Beaten(last, calls[0]), calls[1..];
      InTimeMeans(next, rest, bound);
      assert calls[..0] == [];
      forall k | 0 <= k < |rest|
        ensures Last(next, rest[..k]) == Last(last, calls[..k + 1]) && rest[k] == calls[k + 1]
      {
        assert calls[..k + 1][1..] == rest[..k];
      }
      if forall k | 0 <= k < |calls| :: calls[k] - Last(last, calls[..k]) <= bound {
        forall k | 0 <= k < |rest| ensures rest[k] - Last(next, rest[..k]) <= bound {
          assert calls[k + 1] - Last(last, calls[..k + 1]) <= bound;
        }
      }
      if InTime(last, calls, bound) {
        forall k | 0 <= k < |calls| ensures calls[k] - Last(last, calls[..k]) <= bound {
          if k > 0 {
            assert rest[k - 1] - Last(next, rest[..k - 1]) <= bound;
          }
        }
      }
    }
  }

  /** No heartbeat is sent before the first call. */
  lemma {:induction false} SentAreLater(last: int, at: int, calls: seq<int>)
    requires Ordered(at, calls)
    ensures forall i | 0 <= i < |Sent(last, calls)| :: Sent(last, calls)[i] >= at
    decreases |calls|
  {
    if calls != [] {
      SentAreLater(calls[0], calls[0], calls[1..]);
      SentAreLater(last, calls[0], calls[1..]);
    }
  }

  lemma {:induction false} AtLeastFirst(at: int, calls: seq<int>, k: nat)
    requires Ordered(at, calls) && k < |calls|
    ensures at <= calls[0] <= calls[k]
    decreases k
  {
    if k > 0 {
      AtLeastFirst(calls[0], calls[1..], k - 1);
    }
  }

  /** From the next heartbeat on, the one before it does not matter. */
  lemma NewerCounts(last: int, now: int, sent: seq<int>, bound: int, t: int)
    requires last <= now <= t
    ensures Fresh(last, [now] + sent, bound, t) <==> Fresh(now, sent, bound, t)
  {
    var all := [now] + sent;
    assert all[0] == now;
    if Fresh(now, sent, bound, t) && !(t - bound <= now) {
      var i :| 0 <= i < |sent| && t - bound <= sent[i] <= t;
      assert all[i + 1] == sent[i];
    }
    if i :| 0 < i < |all| && t - bound <= all[i] <= t {
      assert all[i] == sent[i - 1];
    }
  }

  function EndOf(at: int, calls: seq<int>): int {
    if calls == [] then at else calls[|calls| - 1]
  }

  /** Before the first call, only the heartbeat at `last` counts. */
  lemma BeforeFirstCall(last: int, calls: seq<int>, bound: int, t: int)
    requires calls != [] && Ordered(last, calls) && last <= t < calls[0]
    ensures Fresh(last, Sent(last, calls), bound, t) <==> t - bound <= last
  {
    SentAreLater(last, calls[0], calls[1..]);
    SentAreLater(calls[0], calls[0], calls[1..]);
  }

  /** From the first call on, the heartbeats are those of the remaining calls. */
  lemma FromFirstCall(last: int, calls: seq<int>, bound: int, t: int)
    requires calls != [] && last <= calls[0] <= t
    ensures var next := Beaten(last, calls[0]);
            Fresh(last, Sent(last, calls), bound, t) <==> Fresh(next, Sent(next, calls[1..]), bound, t)
  {
    if Beaten(last, calls[0]) != last {
      NewerCounts(last, calls[0], Sent(calls[0], calls[1..]), bound, t);
    }
  }

  /**
   * There is a recent heartbeat at every moment exactly if each call comes in time; `last` is the time of the
   * last heartbeat and `at` that of the last call.
   */
  lemma {:induction false} FreshExactly(last: int, at: int, calls: seq<int>, bound: int)
    requires bound >= HEARTBEAT_UPDATE_RATE - 1
    requires last <= at < last + HEARTBEAT_UPDATE_RATE && Ordered(at, calls)
    ensures FreshThroughout(last, Sent(last, calls), bound, at, EndOf(at, calls)) <==> InTime(last, calls, bound + 1)
    decreases |calls|
  {
    if calls != [] {
      var now, rest, end := calls[0], calls[1..], EndOf(at, calls);
      var next := Beaten(last, now);
      FreshExactly(next, now, rest, bound);
      AtLeastFirst(at, calls, |calls| - 1);
      forall t | now <= t <= end
        ensures Fresh(last, Sent(last, calls), bound, t) <==> Fresh(next, Sent(next, rest), bound, t)
      {
        FromFirstCall(last, calls, bound, t);
      }
      forall t | at <= t < now ensures Fresh(last, Sent(last, calls), bound, t) <==> t - bound <= last {
        BeforeFirstCall(last, calls, bound, t);
      }
      if FreshThroughout(last, Sent(last, calls), bound, at, end) {
        assert at < now ==> Fresh(last, Sent(last, calls), bound, now - 1);
        assert FreshThroughout(next, Sent(next, rest), bound, now, end);
      }
      if InTime(last, calls, bound + 1) {
        assert FreshThroughout(next, Sent(next, rest), bound, now, end);
      }
    }
  }

  // ---------------------------------------------------------------------------
  // Freshness of a connection
  // ---------------------------------------------------------------------------

  const FRESH := 20_000

  /** From the first call of a connection to its last there is always a heartbeat that is at most 20 s old. */
  ghost predicate StaysFresh(s: Surroundings, lastHeartbeat: int) {
    var calls := Calls(s, lastHeartbeat);
    FreshThroughout(lastHeartbeat, Beats(AfterConnection(s, lastHeartbeat).log), FRESH, s.begin, EndOf(s.begin, calls))
  }

  /** The clock does not go back from one call to the next. */
  predicate Clocked(s: Surroundings, lastHeartbeat: int) {
    lastHeartbeat <= s.begin && Ordered(s.begin, Calls(s, lastHeartbeat))
  }

  /** The calls after the first one. */
  function LaterCalls(s: Surroundings, lastHeartbeat: int): seq<int> {
    Calls(s, lastHeartbeat)[1..]
  }

  /**
   * A connection keeps its heartbeats fresh if and only if each call after the first comes at most
   * 20.001 s after the last heartbeat before it.
   */
  lemma ConnectionIsFreshExactly(s: Surroundings, lastHeartbeat: int)
    requires Clocked(s, lastHeartbeat)
    ensures StaysFresh(s, lastHeartbeat) <==>
              InTime(Beaten(lastHeartbeat, s.begin), LaterCalls(s, lastHeartbeat), FRESH + 1)
  {
    var calls, rest := Calls(s, lastHeartbeat), LaterCalls(s, lastHeartbeat);
    var next, end := Beaten(lastHeartbeat, s.begin), EndOf(s.begin, Calls(s, lastHeartbeat));
    ConnectionSends(s, lastHeartbeat);
    assert calls == [s.begin] + rest && end == EndOf(s.begin, rest);
    forall t | s.begin <= t <= end
      ensures Fresh(lastHeartbeat, Sent(lastHeartbeat, calls), FRESH, t) <==> Fresh(next, Sent(next, rest), FRESH, t)
    {
      FromFirstCall(lastHeartbeat, calls, FRESH, t);
    }
    FreshExactly(next, s.begin, rest, FRESH);
    assert StaysFresh(s, lastHeartbeat) <==> FreshThroughout(next, Sent(next, rest), FRESH, s.begin, end);
  }

  /** In the pause before call `k`, every heartbeat is at least as old as the call before it. */
  lemma {:induction false} PauseHasNone(last: int, at: int, calls: seq<int>, k: nat, bound: int, t: int)
    requires last <= at && Ordered(at, calls) && k < |calls| && bound >= 0
    requires (if k == 0 then at else calls[k - 1]) + bound < t < calls[k]
    ensures !Fresh(last, Sent(last, calls), bound, t)
    decreases k
  {
    if k == 0 {
      BeforeFirstCall(last, calls, bound, t);
    } else {
      assert k > 1 ==> calls[1..][k - 2] == calls[k - 1];
      AtLeastFirst(at, calls, k - 1);
      FromFirstCall(last, calls, bound, t);
      PauseHasNone(Beaten(last, calls[0]), calls[0], calls[1..], k - 1, bound, t);
    }
  }

  /**
   * If a pause between two calls is longer than 20 s, then the last heartbeat gets older than that. A read
   * that waits for the next request can pause for 60 s.
   */
  lemma PauseIsStale(s: Surroundings, lastHeartbeat: int, k: nat, t: int)
    requires Clocked(s, lastHeartbeat) && 0 < k < |Calls(s, lastHeartbeat)|
    requires Calls(s, lastHeartbeat)[k - 1] + FRESH < t < Calls(s, lastHeartbeat)[k]
    ensures !Fresh(lastHeartbeat, Beats(AfterConnection(s, lastHeartbeat).log), FRESH, t)
  {
    ConnectionSends(s, lastHeartbeat);
    PauseHasNone(lastHeartbeat, s.begin, Calls(s, lastHeartbeat), k, FRESH, t);
  }

  // ---------------------------------------------------------------------------
  // Which gaps between calls are short enough
  // ---------------------------------------------------------------------------

  /** No call comes more than `gap` after the one before. */
  predicate Spaced(last: int, calls: seq<int>, gap: int)
    decreases |calls|
  {
    calls == [] || (calls[0] <= last + gap && Spaced(calls[0], calls[1..], gap))
  }

  lemma {:induction false} SpacedIsInTime(last: int, at: int, calls: seq<int>, gap: nat)
    requires last <= at < last + HEARTBEAT_UPDATE_RATE && Ordered(at, calls) && Spaced(at, calls, gap)
    ensures InTime(last, calls, HEARTBEAT_UPDATE_RATE - 1 + gap)
    decreases |calls|
  {
    if calls != [] {
      SpacedIsInTime(Beaten(last, calls[0]), calls[0], calls[1..], gap);
    }
  }

  /** A session whose EV sends its first request at once, and then nothing from `first` to `second`. */
  function PausingEv(first: int, second: int): Surroundings {
    Surroundings(0, true, 0, Frame, false, NoEvent, true, 0, Iso2013, true, true,
                 [Turn(first, Frame, 0, NoEvent, 0, true)], second, second)
  }

  /** Milliseconds of the last heartbeat before the session. */
  const LONG_AGO := -HEARTBEAT_UPDATE_RATE

  lemma TurnsOfPausingEv(p: Progress, first: int, second: int)
    ensures CallsOfTurns(p, PausingEv(first, second).turns, second) == [first, second]
  {
    var t := PausingEv(first, second).turns[0];
    assert GoesOn(p, t);
    assert CallsOfTurns(AfterTurn(p, t), [t][1..], second) == [second];
  }

  lemma CallsOfPausingEv(first: int, second: int)
    ensures HandshakePasses(PausingEv(first, second)) && ServerCreated(PausingEv(first, second))
    ensures Calls(PausingEv(first, second), LONG_AGO) == [0] + [0, 0, first, second, second]
  {
    var s := PausingEv(first, second);
    var h := AfterHandshake(Beat(Progress([SaysRunning], LONG_AGO, -1), 0), s);
    var b := Beat(h, 0);
    TurnsOfPausingEv(b.(log := b.log + [Started]), first, second);
    assert CallsOfTest(b, s) == [first, second] + [second];
  }

  lemma OneCallBefore(last: int, now: int, rest: seq<int>, gap: int, bound: int)
    ensures Ordered(last, [now] + rest) <==> last <= now && Ordered(now, rest)
    ensures Spaced(last, [now] + rest, gap) <==> now <= last + gap && Spaced(now, rest, gap)
    ensures InTime(last, [now] + rest, bound) <==> now - last <= bound && InTime(Beaten(last, now), rest, bound)
  {
    assert ([now] + rest)[1..] == rest;
  }

  /** The calls of the pausing EV after the first one, at which a heartbeat is sent. */
  lemma PauseCalls(first: int, second: int, gap: int)
    requires 0 <= first < HEARTBEAT_UPDATE_RATE && first <= second
    ensures var calls := [0, 0, first, second, second];
            && Ordered(0, calls)
            && (Spaced(0, calls, gap) <==> 0 <= gap && first <= gap && second - first <= gap)
            && (InTime(0, calls, FRESH + 1) <==> second <= FRESH + 1)
  {
    var last := if second >= HEARTBEAT_UPDATE_RATE then second else 0;
    var c1 := [second] + [];
    var c2 := [second] + c1;
    var c3 := [first] + c2;
    var c4 := [0] + c3;
    OneCallBefore(last, second, [], gap, FRESH + 1);
    OneCallBefore(second, second, [], gap, FRESH + 1);
    OneCallBefore(0, second, c1, gap, FRESH + 1);
    OneCallBefore(first, second, c1, gap, FRESH + 1);
    OneCallBefore(0, first, c2, gap, FRESH + 1);
    OneCallBefore(0, 0, c3, gap, FRESH + 1);
    OneCallBefore(0, 0, c4, gap, FRESH + 1);
    assert [0] + c4 == [0, 0, first, second, second];
  }

  /** Heartbeats do go stale: a session that passes its handshake, and pauses for 30 s before the second request. */
  lemma HeartbeatsGoStale() returns (s: Surroundings)
    ensures HandshakePasses(s) && ServerCreated(s) && Clocked(s, LONG_AGO) && !StaysFresh(s, LONG_AGO)
  {
    s := PausingEv(0, 30_000);
    CallsOfPausingEv(0, 30_000);
    PauseCalls(0, 30_000, 0);
    OneCallBefore(0, 0, [0, 0, 0, 30_000, 30_000], 0, 0);
    ConnectionIsFreshExactly(s, LONG_AGO);
  }

  /**
   * Calls at most `gap` apart keep the heartbeats of every connection fresh if and only if the gap is at most
   * 18.002 s: up to two seconds can pass without a heartbeat before it begins.
   */
  lemma GapIsShortEnoughExactly(gap: nat)
    ensures (forall s, last | Clocked(s, last) && Spaced(s.begin, Calls(s, last), gap) :: StaysFresh(s, last))
       <==> gap <= FRESH + 2 - HEARTBEAT_UPDATE_RATE
  {
    if gap <= FRESH + 2 - HEARTBEAT_UPDATE_RATE {
      forall s, last | Clocked(s, last) && Spaced(s.begin, Calls(s, last), gap) ensures StaysFresh(s, last) {
        ConnectionIsFreshExactly(s, last);
        SpacedIsInTime(Beaten(last, s.begin), s.begin, LaterCalls(s, last), gap);
        InTimeGrows(Beaten(last, s.begin), LaterCalls(s, last), HEARTBEAT_UPDATE_RATE - 1 + gap, FRESH + 1);
      }
    } else {
      var first := HEARTBEAT_UPDATE_RATE - 1;
      var s := PausingEv(first, first + gap);
      CallsOfPausingEv(first, first + gap);
      PauseCalls(first, first + gap, gap);
      OneCallBefore(0, 0, [0, 0, first, first + gap, first + gap], gap, 0);
      ConnectionIsFreshExactly(s, LONG_AGO);
      assert Clocked(s, LONG_AGO) && Spaced(s.begin, Calls(s, LONG_AGO), gap);
    }
  }

  lemma {:induction false} InTimeGrows(last: int, calls: seq<int>, a: int, b: int)
    requires InTime(last, calls, a) && a <= b
    ensures InTime(last, calls, b)
    decreases |calls|
  {
    if calls != [] {
      InTimeGrows(Beaten(last, calls[0]), calls[1..], a, b);
    }
  }
}
