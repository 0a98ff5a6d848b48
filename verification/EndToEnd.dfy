/**
 * One connection from its own calls to what is published about it: if the connection keeps its
 * heartbeats coming and messages are delivered within a bound, then the orchestrator never takes
 * the test for dead. Both modules' clocks count from the same origin, in milliseconds on the
 * connection's side and in nanoseconds on the orchestrator's.
 */
module EndToEnd {
  import opened CrossModule
  import opened Durations
  import opened OrchestratorSafety
  import opened TestStateMachine
  import opened Wrappers

  import Heartbeats
  import V2gServer

  // ---------------------------------------------------------------------------
  // Timed runs of the orchestrator
  // ---------------------------------------------------------------------------

  /** An action and the times between which it is carried out. */
  datatype Timed = Timed(action: Action, from: int, to: int)

  function Actions(run: seq<Timed>): seq<Action> {
    if run == [] then [] else [run[0].action] + Actions(run[1..])
  }

  /** The readings of a call find the flag set and a time between these. */
  predicate Reads(rs: seq<Reading>, from: int, to: int) {
    forall r | r in rs :: r.enabled && from <= r.now <= to
  }

  predicate Carried(t: Timed) {
    t.from <= t.to
    && match t.action
       case Tick(rs) => Reads(rs, t.from, t.to)
       case Heartbeat(now) => t.from <= now <= t.to
       case StatusMessage(_, before, after) => Reads(before, t.from, t.to) && Reads(after, t.from, t.to)
       case ResultMessage(before, after) => Reads(before, t.from, t.to) && Reads(after, t.from, t.to)
       case _ => true
  }

  /** One action is carried out after the other, because each holds the lock. */
  predicate InTurn(run: seq<Timed>)
    decreases |run|
  {
    run == []
    || (Carried(run[0]) && InTurn(run[1..]) && (|run| > 1 ==> run[0].to <= run[1].from))
  }

  /** A message and the time at which it is sent. */
  datatype Dispatch = Dispatch(message: Message, at: int)

  /** Messages are handled in the order in which they are sent, at most `d` later. */
  predicate Delivers(run: seq<Timed>, sends: seq<Dispatch>, d: nat)
    decreases |run|
  {
    if run == [] then sends == []
    else if DeliveredBy(run[0].action) == [] then Delivers(run[1..], sends, d)
    else
      && sends != [] && DeliveredBy(run[0].action) == [sends[0].message]
      && sends[0].at <= run[0].from && run[0].to <= sends[0].at + d
      && Delivers(run[1..], sends[1..], d)
  }

  function Messages(sends: seq<Dispatch>): seq<Message> {
    if sends == [] then [] else [sends[0].message] + Messages(sends[1..])
  }

  lemma {:induction false} DeliveredInOrder(run: seq<Timed>, sends: seq<Dispatch>, d: nat)
    requires Delivers(run, sends, d)
    ensures Delivered(Actions(run)) == Messages(sends)
    decreases |run|
  {
    if run != [] {
      assert Actions(run)[1..] == Actions(run[1..]);
      if DeliveredBy(run[0].action) == [] {
        DeliveredInOrder(run[1..], sends, d);
      } else {
        DeliveredInOrder(run[1..], sends[1..], d);
      }
    }
  }

  /** No action ends later than the next message may be handled. */
  lemma {:induction false} BeforeNextDelivery(run: seq<Timed>, sends: seq<Dispatch>, d: nat)
    requires InTurn(run) && Delivers(run, sends, d) && sends != []
    ensures run != [] && run[0].to <= sends[0].at + d
    decreases |run|
  {
    if DeliveredBy(run[0].action) == [] {
      BeforeNextDelivery(run[1..], sends, d);
    }
  }

  // ---------------------------------------------------------------------------
  // The test is not taken for dead
  // ---------------------------------------------------------------------------

  /** Each message is sent at most `x` after the last one that shows the test to be alive. */
  predicate Lively(sends: seq<Dispatch>, last: int, x: int)
    decreases |sends|
  {
    sends == []
    || (sends[0].at <= last + x
        && Lively(sends[1..], if sends[0].message == ResultReport then last else sends[0].at, x))
  }

  /** What comes after Running: heartbeats, perhaps a result, and Finished last. */
  predicate Concludes(sends: seq<Dispatch>)
    decreases |sends|
  {
    sends != []
    && if |sends| == 1 then sends[0].message == StatusReport(Status.Finished)
       else (sends[0].message == Beat || sends[0].message == ResultReport) && Concludes(sends[1..])
  }

  /** How the machine stands when these messages are still to come, the test having been alive at `last`. */
  predicate Awaits(m: Machine, sends: seq<Dispatch>, last: int) {
    && Stable(m)
    && if sends == [] then m.state != RunningTest
       else if sends[0].message == StatusReport(Running) then m.state == SetupTest && Concludes(sends[1..])
       else m.state == RunningTest && m.lastHeartbeat >= last && Concludes(sends)
  }

  /** A call of the loop that does not start in RunningTest does not get there. */
  lemma {:induction false} ElsewhereIsWatched(m: Machine, rs: seq<Reading>, from: int, to: int)
    requires WellFormed(m) && m.state != RunningTest && Settles(m, rs) && Reads(rs, from, to)
    ensures Watched(m, rs) && RunLoop(m, rs).state != RunningTest
    decreases |rs|
  {
    assert rs[0] in rs;
    if !Stable(Pass(m, rs[0])) {
      assert forall r | r in rs[1..] :: r in rs;
      ElsewhereIsWatched(Pass(m, rs[0]), rs[1..], from, to);
    }
  }

  /** A call that finds the last heartbeat recent leaves a running test alone. */
  lemma {:induction false} RunningIsWatched(m: Machine, rs: seq<Reading>, from: int, to: int)
    requires WellFormed(m) && Stable(m) && m.state == RunningTest && Settles(m, rs) && Reads(rs, from, to)
    requires to - m.lastHeartbeat <= HEARTBEAT_TIMEOUT
    ensures Watched(m, rs) && RunLoop(m, rs) == m
  {
    assert rs[0] in rs;
    assert Pass(m, rs[0]) == m;
  }

  lemma {:induction false} SetupIsWatched(m: Machine, rs: seq<Reading>, from: int, to: int)
    requires WellFormed(m) && Stable(m) && m.state == SetupTest && Settles(m, rs) && Reads(rs, from, to)
    ensures Watched(m, rs) && RunLoop(m, rs) == m
  {
    assert rs[0] in rs;
    assert Pass(m, rs[0]) == m;
  }

  lemma {:induction false} StartIsWatched(m: Machine, rs: seq<Reading>, from: int, to: int)
    requires WellFormed(m) && !Stable(m) && m.state == RunningTest && Settles(m, rs) && Reads(rs, from, to)
    ensures Watched(m, rs) && RunLoop(m, rs).state == RunningTest && RunLoop(m, rs).lastHeartbeat >= from
  {
    assert rs[0] in rs;
    assert Stable(Pass(m, rs[0]));
  }

  function AliveSince(a: Action, sends: seq<Dispatch>, last: int): int {
    if DeliveredBy(a) == [] || sends == [] || sends[0].message == ResultReport then last else sends[0].at
  }

  function StillToCome(a: Action, sends: seq<Dispatch>): seq<Dispatch> {
    if DeliveredBy(a) == [] || sends == [] then sends else sends[1..]
  }

  lemma {:induction false} WhileSettingUp(m: Machine, t: Timed, sends: seq<Dispatch>, last: int)
    requires WellFormed(m) && Possible(m, t.action) && Carried(t) && Awaits(m, sends, last)
    requires sends != [] && sends[0].message == StatusReport(Running)
    requires DeliveredBy(t.action) == []
             || (DeliveredBy(t.action) == [sends[0].message] && sends[0].at <= t.from)
    ensures WatchedAction(m, t.action)
    ensures Awaits(Do(m, t.action), StillToCome(t.action, sends), AliveSince(t.action, sends, last))
  {
    match t.action
    case Tick(rs) => SetupIsWatched(m, rs, t.from, t.to);
    case StatusMessage(status, before, after) =>
      SetupIsWatched(m, before, t.from, t.to);
      StartIsWatched(OnStatus(m, Running), after, t.from, t.to);
    case _ =>
  }

  lemma {:induction false} WhileRunning(m: Machine, t: Timed, sends: seq<Dispatch>, last: int)
    requires WellFormed(m) && Possible(m, t.action) && Carried(t) && Awaits(m, sends, last)
    requires sends != [] && Concludes(sends)
    requires t.to - last <= HEARTBEAT_TIMEOUT
    requires DeliveredBy(t.action) == []
             || (DeliveredBy(t.action) == [sends[0].message] && sends[0].at <= t.from)
    ensures WatchedAction(m, t.action)
    ensures Awaits(Do(m, t.action), StillToCome(t.action, sends), AliveSince(t.action, sends, last))
  {
    match t.action
    case Tick(rs) => RunningIsWatched(m, rs, t.from, t.to);
    case StatusMessage(status, before, after) =>
      RunningIsWatched(m, before, t.from, t.to);
      ElsewhereIsWatched(OnStatus(m, status), after, t.from, t.to);
    case ResultMessage(before, after) =>
      RunningIsWatched(m, before, t.from, t.to);
      RunningIsWatched(OnResult(m), after, t.from, t.to);
    case _ =>
  }

  lemma {:induction false} WhenConcluded(m: Machine, t: Timed, last: int)
    requires WellFormed(m) && Possible(m, t.action) && Carried(t) && Awaits(m, [], last)
    requires DeliveredBy(t.action) == []
    ensures WatchedAction(m, t.action) && Awaits(Do(m, t.action), [], last)
  {
    match t.action
    case Tick(rs) => ElsewhereIsWatched(m, rs, t.from, t.to);
    case _ =>
  }

  /** If the messages are sent and delivered in time, every call of the loop finds the test alive. */
  lemma {:induction false} DeliveryKeepsWatch(m: Machine, run: seq<Timed>, sends: seq<Dispatch>,
                                              last: int, x: nat, d: nat)
    requires WellFormed(m) && CanRun(m, Actions(run)) && InTurn(run) && Delivers(run, sends, d)
    requires Awaits(m, sends, last) && Lively(sends, last, x) && x + d <= HEARTBEAT_TIMEOUT
    ensures WatchedRun(m, Actions(run))
    decreases |run|
  {
    if run != [] {
      var t := run[0];
      assert Actions(run)[1..] == Actions(run[1..]);
      if sends == [] {
        WhenConcluded(m, t, last);
      } else {
        BeforeNextDelivery(run, sends, d);
        if sends[0].message == StatusReport(Running) {
          WhileSettingUp(m, t, sends, last);
        } else {
          WhileRunning(m, t, sends, last);
        }
      }
      DeliveryKeepsWatch(Do(m, t.action), run[1..], StillToCome(t.action, sends),
                         AliveSince(t.action, sends, last), x, d);
    }
  }

  // ---------------------------------------------------------------------------
  // The messages of a connection
  // ---------------------------------------------------------------------------

  function At(ms: int): int {
    ms * NS_PER_MS
  }

  /** The reports of a connection are sent at these times, in milliseconds; a heartbeat's time is in the log. */
  datatype Times = Times(running: int, result: int, finished: int)

  function DispatchOf(o: V2gServer.Output, t: Times): seq<Dispatch> {
    match o
    case SaysRunning => [Dispatch(StatusReport(Running), At(t.running))]
    case SaysFinished => [Dispatch(StatusReport(Status.Finished), At(t.finished))]
    case SaysResult => [Dispatch(ResultReport, At(t.result))]
    case Heartbeat(at) => [Dispatch(Beat, At(at))]
    case _ => []
  }

  /** What a connection sends, and when. */
  function Dispatches(log: seq<V2gServer.Output>, t: Times): seq<Dispatch> {
    if log == [] then [] else Dispatches(log[..|log| - 1], t) + DispatchOf(log[|log| - 1], t)
  }

  lemma {:induction false} MessagesOfAppend(a: seq<Dispatch>, b: seq<Dispatch>)
    ensures Messages(a + b) == Messages(a) + Messages(b)
  {
    if a == [] {
      assert a + b == b;
    } else {
      MessagesOfAppend(a[1..], b);
      assert (a + b)[1..] == a[1..] + b;
      Associates([a[0].message], Messages(a[1..]), Messages(b));
    }
  }

  lemma MessageDispatched(o: V2gServer.Output, t: Times)
    ensures Messages(DispatchOf(o, t)) == MessageOf(o)
  {
    assert DispatchOf(o, t) == [] || DispatchOf(o, t)[1..] == [];
  }

  lemma {:induction false} DispatchesAreTheWire(log: seq<V2gServer.Output>, t: Times)
    ensures Messages(Dispatches(log, t)) == Wire(log)
  {
    if log != [] {
      var front, o := log[..|log| - 1], log[|log| - 1];
      DispatchesAreTheWire(front, t);
      MessageDispatched(o, t);
      MessagesOfAppend(Dispatches(front, t), DispatchOf(o, t));
    }
  }

  /** Heartbeats at these times. */
  function BeatsAt(times: seq<int>): seq<Dispatch> {
    if times == [] then [] else [Dispatch(Beat, At(times[0]))] + BeatsAt(times[1..])
  }

  lemma {:induction false} BeatsAtAppend(a: seq<int>, b: seq<int>)
    ensures BeatsAt(a + b) == BeatsAt(a) + BeatsAt(b)
  {
    if a == [] {
      assert a + b == b;
    } else {
      BeatsAtAppend(a[1..], b);
      assert (a + b)[1..] == a[1..] + b;
      Associates([Dispatch(Beat, At(a[0]))], BeatsAt(a[1..]), BeatsAt(b));
    }
  }

  predicate IsReport(o: V2gServer.Output) {
    o.SaysRunning? || o.SaysResult? || o.SaysFinished?
  }

  lemma OneMoreOutput(log: seq<V2gServer.Output>, o: V2gServer.Output, t: Times)
    ensures Dispatches(log + [o], t) == Dispatches(log, t) + DispatchOf(o, t)
  {
    assert (log + [o])[..|log|] == log;
  }

  lemma QuietOutput(o: V2gServer.Output, t: Times)
    requires !IsReport(o)
    ensures DispatchOf(o, t) == BeatsAt(match o case Heartbeat(at) => [at] case _ => [])
  {
    if o.Heartbeat? {
      assert [o.at][1..] == [];
    }
  }

  const OPENING := [V2gServer.SaysRunning]

  function Opening(t: Times): seq<Dispatch> {
    [Dispatch(StatusReport(Running), At(t.running))]
  }

  /** Nothing is reported. */
  predicate Quiet(log: seq<V2gServer.Output>) {
    forall o | o in log :: !IsReport(o)
  }

  lemma QuietAppends(front: seq<V2gServer.Output>, o: V2gServer.Output, t: Times, opening: seq<Dispatch>)
    requires !IsReport(o) && Dispatches(front, t) == opening + BeatsAt(Heartbeats.Beats(front))
    ensures Dispatches(front + [o], t) == opening + BeatsAt(Heartbeats.Beats(front + [o]))
  {
    var beat := match o case Heartbeat(at) => [at] case _ => [];
    OneMoreOutput(front, o, t);
    Heartbeats.BeatsOfOneMore(front, o);
    QuietOutput(o, t);
    BeatsAtAppend(Heartbeats.Beats(front), beat);
    Associates(opening, BeatsAt(Heartbeats.Beats(front)), BeatsAt(beat));
  }

  lemma OnlyOpening(t: Times)
    ensures Dispatches(OPENING, t) == Opening(t) && Heartbeats.Beats(OPENING) == []
  {
    OneMoreOutput([], V2gServer.SaysRunning, t);
    Heartbeats.BeatsOfOneMore([], V2gServer.SaysRunning);
    assert [] + OPENING == OPENING;
  }

  lemma {:induction false} OpeningDispatches(rest: seq<V2gServer.Output>, t: Times)
    requires Quiet(rest)
    ensures Dispatches(OPENING + rest, t) == Opening(t) + BeatsAt(Heartbeats.Beats(OPENING + rest))
  {
    if rest == [] {
      OnlyOpening(t);
      assert OPENING + rest == OPENING;
    } else {
      var front, o := rest[..|rest| - 1], rest[|rest| - 1];
      OpeningDispatches(front, t);
      assert front + [o] == rest;
      Associates(OPENING, front, [o]);
      QuietAppends(OPENING + front, o, t, Opening(t));
    }
  }

  lemma {:induction false} MilestonesOfTail(first: V2gServer.Output, rest: seq<V2gServer.Output>)
    requires V2gServer.IsMilestone(first)
    ensures V2gServer.Milestones([first] + rest) == [first] + V2gServer.Milestones(rest)
  {
    if rest == [] {
      V2gServer.MilestonesOfOne([], first);
      assert [] + [first] == [first] + rest;
    } else {
      var front, o := rest[..|rest| - 1], rest[|rest| - 1];
      MilestonesOfTail(first, front);
      V2gServer.MilestonesOfOne(front, o);
      V2gServer.MilestonesOfOne([first] + front, o);
      assert [first] + front + [o] == [first] + rest && front + [o] == rest;
    }
  }

  lemma {:induction false} MilestonesAreKept(log: seq<V2gServer.Output>, k: nat)
    requires k < |log| && V2gServer.IsMilestone(log[k])
    ensures log[k] in V2gServer.Milestones(log)
  {
    if k < |log| - 1 {
      MilestonesAreKept(log[..|log| - 1], k);
    }
  }

  lemma QuietByMilestones(rest: seq<V2gServer.Output>, middle: seq<V2gServer.Output>)
    requires Quiet(middle) && V2gServer.Milestones(OPENING + rest) == OPENING + middle
    ensures Quiet(rest)
  {
    MilestonesOfTail(V2gServer.SaysRunning, rest);
    assert V2gServer.Milestones(rest) == (OPENING + middle)[1..] == middle;
    forall k | 0 <= k < |rest| ensures !IsReport(rest[k]) {
      if V2gServer.IsMilestone(rest[k]) {
        MilestonesAreKept(rest, k);
      }
    }
  }

  lemma WithoutLastTwo<T>(a: seq<T>, b: seq<T>, x: T, y: T)
    requires a + [x] + [y] == b + [x, y]
    ensures a == b
  {
    assert a == (a + [x] + [y])[..|a|];
  }

  lemma LastTwo<T>(log: seq<T>)
    requires |log| >= 2
    ensures log == log[..|log| - 2] + [log[|log| - 2]] + [log[|log| - 1]]
  {
  }

  lemma MilestonesBeforeEnd(front: seq<V2gServer.Output>, before: seq<V2gServer.Output>)
    requires V2gServer.Milestones(front + [V2gServer.SaysResult] + [V2gServer.SaysFinished])
          == before + [V2gServer.SaysResult, V2gServer.SaysFinished]
    ensures V2gServer.Milestones(front) == before
    ensures before != [] ==> front != []
  {
    V2gServer.MilestonesOfOne(front, V2gServer.SaysResult);
    V2gServer.MilestonesOfOne(front + [V2gServer.SaysResult], V2gServer.SaysFinished);
    WithoutLastTwo(V2gServer.Milestones(front), before, V2gServer.SaysResult, V2gServer.SaysFinished);
  }

  /** Between Running and its result, a connection reports nothing. */
  lemma ReportsAtBothEnds(s: V2gServer.Surroundings, lastHeartbeat: int) returns (rest: seq<V2gServer.Output>)
    requires s.bufferAllocated
    ensures Quiet(rest)
    ensures V2gServer.AfterConnection(s, lastHeartbeat).log
         == OPENING + rest + [V2gServer.SaysResult] + [V2gServer.SaysFinished]
  {
    var log := V2gServer.AfterConnection(s, lastHeartbeat).log;
    var middle :=
      if V2gServer.ServerCreated(s) then [V2gServer.Started, V2gServer.Closed, V2gServer.TestFinished] else [];
    V2gServer.Lifecycle(s, lastHeartbeat);
    LastTwo(log);
    var front := log[..|log| - 2];
    MilestonesBeforeEnd(front, OPENING + middle);
    rest := front[1..];
    assert front == OPENING + rest;
    QuietByMilestones(rest, middle);
  }

  function Ending(t: Times): seq<Dispatch> {
    [Dispatch(ResultReport, At(t.result))] + [Dispatch(StatusReport(Status.Finished), At(t.finished))]
  }

  lemma ClosedDispatches(front: seq<V2gServer.Output>, t: Times)
    ensures var log := front + [V2gServer.SaysResult] + [V2gServer.SaysFinished];
            && Heartbeats.Beats(log) == Heartbeats.Beats(front)
            && Dispatches(log, t) == Dispatches(front, t) + Ending(t)
  {
    Heartbeats.BeatsOfOneMore(front, V2gServer.SaysResult);
    Heartbeats.BeatsOfOneMore(front + [V2gServer.SaysResult], V2gServer.SaysFinished);
    OneMoreOutput(front, V2gServer.SaysResult, t);
    OneMoreOutput(front + [V2gServer.SaysResult], V2gServer.SaysFinished, t);
    Associates(Dispatches(front, t), DispatchOf(V2gServer.SaysResult, t), DispatchOf(V2gServer.SaysFinished, t));
  }

  /** Running first, then the heartbeats, then the result and Finished. */
  lemma ConnectionDispatches(s: V2gServer.Surroundings, lastHeartbeat: int, t: Times)
    requires s.bufferAllocated
    ensures Dispatches(V2gServer.AfterConnection(s, lastHeartbeat).log, t)
         == Opening(t) + (BeatsAt(Heartbeats.Sent(lastHeartbeat, Heartbeats.Calls(s, lastHeartbeat))) + Ending(t))
  {
    var rest := ReportsAtBothEnds(s, lastHeartbeat);
    Heartbeats.ConnectionSends(s, lastHeartbeat);
    ClosedDispatches(OPENING + rest, t);
    OpeningDispatches(rest, t);
    Associates(Opening(t), BeatsAt(Heartbeats.Beats(OPENING + rest)), Ending(t));
  }

  // ---------------------------------------------------------------------------
  // A lively connection
  // ---------------------------------------------------------------------------

  lemma EndingIsLively(t: Times, last: int, x: nat)
    requires t.result <= t.finished <= last + x
    ensures Lively(Ending(t), At(last), At(x)) && Concludes(Ending(t))
  {
    assert Ending(t)[1..] == [Dispatch(StatusReport(Status.Finished), At(t.finished))];
    assert Ending(t)[1..][1..] == [];
  }

  lemma OneBeatMore(at: int, rest: seq<Dispatch>, last: int, x: nat)
    requires at <= last + x && Lively(rest, At(at), At(x)) && Concludes(rest)
    ensures Lively([Dispatch(Beat, At(at))] + rest, At(last), At(x)) && Concludes([Dispatch(Beat, At(at))] + rest)
  {
    assert ([Dispatch(Beat, At(at))] + rest)[1..] == rest;
  }

  /** Calls in time make for heartbeats in time; the orchestrator has known the test alive since `alive`. */
  lemma {:induction false} CallsAreLively(last: int, alive: int, calls: seq<int>, t: Times, x: nat)
    requires last <= alive && Heartbeats.InTime(last, calls, x)
    requires t.result <= t.finished <= Heartbeats.Last(last, calls) + x
    ensures var sends := BeatsAt(Heartbeats.Sent(last, calls)) + Ending(t);
            Lively(sends, At(alive), At(x)) && Concludes(sends)
    decreases |calls|
  {
    var sends := BeatsAt(Heartbeats.Sent(last, calls)) + Ending(t);
    if calls == [] {
      EndingIsLively(t, alive, x);
      assert sends == Ending(t);
    } else {
      var now, rest := calls[0], calls[1..];
      if Heartbeats.Beaten(last, now) == last {
        CallsAreLively(last, alive, rest, t, x);
        if now == last {
          assert Heartbeats.Sent(last, calls) == Heartbeats.Sent(last, rest);
        }
      } else {
        CallsAreLively(now, now, rest, t, x);
        var later := BeatsAt(Heartbeats.Sent(now, rest));
        assert ([now] + Heartbeats.Sent(now, rest))[1..] == Heartbeats.Sent(now, rest);
        Associates([Dispatch(Beat, At(now))], later, Ending(t));
        OneBeatMore(now, later + Ending(t), alive, x);
      }
    }
  }

  /**
   * The connection keeps up: its first call comes at most `x` after Running, each later call at most `x`
   * after the last heartbeat before it, and so does Finished.
   */
  predicate KeepsUp(s: V2gServer.Surroundings, lastHeartbeat: int, t: Times, x: nat) {
    && lastHeartbeat <= t.running && s.begin <= t.running + x
    && Heartbeats.InTime(Heartbeats.Beaten(lastHeartbeat, s.begin), Heartbeats.LaterCalls(s, lastHeartbeat), x)
    && t.result <= t.finished <= Heartbeats.Last(lastHeartbeat, Heartbeats.Calls(s, lastHeartbeat)) + x
  }

  lemma ConnectionIsLively(s: V2gServer.Surroundings, lastHeartbeat: int, t: Times, x: nat)
    requires KeepsUp(s, lastHeartbeat, t, x)
    ensures var sends := BeatsAt(Heartbeats.Sent(lastHeartbeat, Heartbeats.Calls(s, lastHeartbeat))) + Ending(t);
            Lively(sends, At(t.running), At(x)) && Concludes(sends)
  {
    var next, later := Heartbeats.Beaten(lastHeartbeat, s.begin), Heartbeats.LaterCalls(s, lastHeartbeat);
    if next == lastHeartbeat {
      CallsAreLively(lastHeartbeat, t.running, later, t, x);
    } else {
      CallsAreLively(s.begin, s.begin, later, t, x);
      var beats := BeatsAt(Heartbeats.Sent(s.begin, later));
      assert ([s.begin] + Heartbeats.Sent(s.begin, later))[1..] == Heartbeats.Sent(s.begin, later);
      Associates([Dispatch(Beat, At(s.begin))], beats, Ending(t));
      OneBeatMore(s.begin, beats + Ending(t), t.running, x);
    }
  }

  /**
   * End to end: while a test is being set up, let one connection run that keeps up with a bound of `x`
   * milliseconds, let its messages be handled in order and at most `d` milliseconds after they are sent,
   * with x + d at most 20 s, interleaved in any way with ticks and scheduling calls that find the flag set.
   * Then the orchestrator publishes for the instance exactly Running, one result and Finished, whatever
   * happened on the connection.
   */
  lemma LivelyConnectionIsReported(m: Machine, run: seq<Timed>, id: Id, s: V2gServer.Surroundings,
                                   lastHeartbeat: int, t: Times, x: nat, d: nat)
    requires Inv(m) && Stable(m) && m.state == SetupTest && m.current == Some(id)
    requires CanRun(m, Actions(run)) && InTurn(run)
    requires s.bufferAllocated && KeepsUp(s, lastHeartbeat, t, x)
    requires Delivers(run, Dispatches(V2gServer.AfterConnection(s, lastHeartbeat).log, t), At(d))
    requires At(x + d) <= HEARTBEAT_TIMEOUT
    ensures History(Run(m, Actions(run)).events, id)
         == History(m.events, id) + [StatusOf(id, Running), ResultOf(id), StatusOf(id, Status.Finished)]
    ensures PhaseOf(Run(m, Actions(run)).events, id) == Ended
  {
    var log := V2gServer.AfterConnection(s, lastHeartbeat).log;
    var later := BeatsAt(Heartbeats.Sent(lastHeartbeat, Heartbeats.Calls(s, lastHeartbeat))) + Ending(t);
    ConnectionDispatches(s, lastHeartbeat, t);
    ConnectionIsLively(s, lastHeartbeat, t, x);
    assert Dispatches(log, t)[1..] == later;
    DeliveryKeepsWatch(m, run, Dispatches(log, t), At(t.running), At(x), At(d));
    DeliveredInOrder(run, Dispatches(log, t), At(d));
    DispatchesAreTheWire(log, t);
    ConnectionIsReportedExactly(m, Actions(run), id, s, lastHeartbeat);
  }
}
