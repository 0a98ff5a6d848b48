/**
 * One V2G connection observed by the orchestrator: what the connection publishes reaches
 * the orchestrator in order, interleaved with clock ticks and scheduling calls.
 */
module CrossModule {
  import opened OrchestratorSafety
  import opened TestStateMachine
  import V2gServer
  import opened Wrappers

  /** What the V2G module sends to the orchestrator. */
  datatype Message = StatusReport(status: Status) | ResultReport | Beat

  /** The messages of a connection, in order. */
  function Wire(log: seq<V2gServer.Output>): seq<Message> {
    if log == [] then [] else Wire(log[..|log| - 1]) + MessageOf(log[|log| - 1])
  }

  function MessageOf(o: V2gServer.Output): seq<Message> {
    match o
    case SaysRunning => [StatusReport(Running)]
    case SaysFinished => [StatusReport(Status.Finished)]
    case SaysResult => [ResultReport]
    case Heartbeat(_) => [Beat]
    case _ => []
  }

  /** The messages that a sequence of actions delivers, in order. */
  function Delivered(actions: seq<Action>): seq<Message> {
    if actions == [] then [] else DeliveredBy(actions[0]) + Delivered(actions[1..])
  }

  function DeliveredBy(a: Action): seq<Message> {
    match a
    case StatusMessage(status, _, _) => [StatusReport(status)]
    case ResultMessage(_, _) => [ResultReport]
    case Heartbeat(_) => [Beat]
    case _ => []
  }

  function Reports(messages: seq<Message>): seq<Message> {
    if messages == [] then []
    else if messages[0] == Beat then Reports(messages[1..])
    else [messages[0]] + Reports(messages[1..])
  }

  // ---------------------------------------------------------------------------
  // The connection's side
  // ---------------------------------------------------------------------------

  lemma {:induction false} ReportsOfAppend(a: seq<Message>, b: seq<Message>)
    ensures Reports(a + b) == Reports(a) + Reports(b)
  {
    if a == [] {
      assert a + b == b;
    } else {
      ReportsOfAppend(a[1..], b);
      assert (a + b)[1..] == a[1..] + b;
      Associates([a[0]], Reports(a[1..]), Reports(b));
    }
  }

  lemma ReportsOfOne(message: Message)
    ensures Reports([message]) == if message == Beat then [] else [message]
  {
    assert Reports([message][1..]) == [];
  }

  lemma WireOfOneMore(log: seq<V2gServer.Output>, o: V2gServer.Output)
    ensures Wire(log + [o]) == Wire(log) + MessageOf(o)
  {
    assert (log + [o])[..|log|] == log;
  }

  /** The reports that an output sends: every message but a heartbeat. */
  function ReportOf(o: V2gServer.Output): seq<Message> {
    if V2gServer.IsMilestone(o) then MessageOf(o) else []
  }

  lemma ReportsOfOneMore(log: seq<V2gServer.Output>, o: V2gServer.Output)
    ensures Reports(Wire(log + [o])) == Reports(Wire(log)) + ReportOf(o)
  {
    WireOfOneMore(log, o);
    ReportsOfAppend(Wire(log), MessageOf(o));
    if MessageOf(o) != [] {
      ReportsOfOne(MessageOf(o)[0]);
      assert MessageOf(o) == [MessageOf(o)[0]];
    }
  }

  lemma WireOfMilestones(log: seq<V2gServer.Output>, o: V2gServer.Output)
    ensures Wire(V2gServer.Milestones(log + [o])) == Wire(V2gServer.Milestones(log)) + ReportOf(o)
  {
    V2gServer.MilestonesOfOne(log, o);
    WireOfOneMore(V2gServer.Milestones(log), o);
  }

  /** Only milestones are reported, apart from heartbeats. */
  lemma {:induction false} ReportsOfMilestones(log: seq<V2gServer.Output>)
    ensures Reports(Wire(log)) == Wire(V2gServer.Milestones(log))
  {
    if log != [] {
      var front, o := log[..|log| - 1], log[|log| - 1];
      assert front + [o] == log;
      ReportsOfMilestones(front);
      ReportsOfOneMore(front, o);
      WireOfMilestones(front, o);
    }
  }

  const REPORTS := [StatusReport(Running), ResultReport, StatusReport(Status.Finished)]

  lemma ConnectionReports(s: V2gServer.Surroundings, lastHeartbeat: int)
    requires s.bufferAllocated
    ensures Reports(Wire(V2gServer.AfterConnection(s, lastHeartbeat).log)) == REPORTS
  {
    var log := V2gServer.AfterConnection(s, lastHeartbeat).log;
    V2gServer.Lifecycle(s, lastHeartbeat);
    ReportsOfMilestones(log);
    WireOfCourse(s);
  }

  lemma WireOfCourse(s: V2gServer.Surroundings)
    requires s.bufferAllocated
    ensures Wire(V2gServer.Course(s)) == REPORTS
  {
    var start := [V2gServer.SaysRunning];
    var middle :=
      if V2gServer.ServerCreated(s) then [V2gServer.Started, V2gServer.Closed, V2gServer.TestFinished] else [];
    WireOfOneMore([], V2gServer.SaysRunning);
    assert [] + [V2gServer.SaysRunning] == start;
    if V2gServer.ServerCreated(s) {
      WireOfOneMore(start, V2gServer.Started);
      WireOfOneMore(start + [V2gServer.Started], V2gServer.Closed);
      WireOfOneMore(start + [V2gServer.Started] + [V2gServer.Closed], V2gServer.TestFinished);
      assert start + [V2gServer.Started] + [V2gServer.Closed] + [V2gServer.TestFinished] == start + middle;
    } else {
      assert start + middle == start;
    }
    WireOfOneMore(start + middle, V2gServer.SaysResult);
    WireOfOneMore(start + middle + [V2gServer.SaysResult], V2gServer.SaysFinished);
    assert start + middle + [V2gServer.SaysResult] + [V2gServer.SaysFinished] == V2gServer.Course(s);
  }

  // ---------------------------------------------------------------------------
  // The orchestrator's side
  // ---------------------------------------------------------------------------

  /** After its terminal status, nothing is published about an instance. */
  lemma {:induction false} EndIsFinal(a: seq<Event>, b: seq<Event>, id: Id)
    requires a <= b && PhaseOf(a, id) == Ended && PhaseOf(b, id) != Broken
    ensures PhaseOf(b, id) == Ended && History(b, id) == History(a, id)
  {
    if a != b {
      BrokenForGood(b, |b| - 1, id);
      EndIsFinal(a, b[..|b| - 1], id);
    }
  }

  /** In one call of the loop, the flag is set, and in RunningTest the last heartbeat is recent. */
  predicate Watched(m: Machine, rs: seq<Reading>)
    requires WellFormed(m)
    decreases |rs|
  {
    && rs != [] && rs[0].enabled
    && (m.state == RunningTest && Stable(m) ==> rs[0].now - m.lastHeartbeat <= HEARTBEAT_TIMEOUT)
    && (Stable(Pass(m, rs[0])) || Watched(Pass(m, rs[0]), rs[1..]))
  }

  predicate WatchedAction(m: Machine, a: Action)
    requires WellFormed(m) && Possible(m, a)
  {
    match a
    case Tick(rs) => Watched(m, rs)
    case StatusMessage(status, before, after) =>
      Watched(m, before) && Watched(OnStatus(RunLoop(m, before), status), after)
    case ResultMessage(before, after) => Watched(m, before) && Watched(OnResult(RunLoop(m, before)), after)
    case _ => true
  }

  predicate WatchedRun(m: Machine, actions: seq<Action>)
    requires WellFormed(m) && CanRun(m, actions)
    decreases |actions|
  {
    actions == [] || (WatchedAction(m, actions[0]) && WatchedRun(Do(m, actions[0]), actions[1..]))
  }

  /** Where the instance stands when these reports are still to come. */
  predicate Expecting(m: Machine, id: Id, reports: seq<Message>) {
    && Stable(m)
    && if reports == REPORTS then m.state == SetupTest && m.current == Some(id)
       else if reports == REPORTS[1..] || reports == REPORTS[2..] then m.state == RunningTest && m.current == Some(id)
       else reports == [] && PhaseOf(m.events, id) == Ended
  }

  /** What the orchestrator publishes for the reports. */
  function PublishedFor(reports: seq<Message>, id: Id): seq<Event> {
    if reports == [] then []
    else
      [match reports[0] case StatusReport(status) => StatusOf(id, status) case _ => ResultOf(id)]
      + PublishedFor(reports[1..], id)
  }

  /** A machine that waits in SetupTest, or watches a lively test, does not move. */
  lemma {:induction false} LoopWaits(m: Machine, rs: seq<Reading>)
    requires WellFormed(m) && Stable(m) && (m.state == SetupTest || m.state == RunningTest)
    requires Settles(m, rs) && Watched(m, rs)
    ensures RunLoop(m, rs) == m
  {
    assert Pass(m, rs[0]) == m;
  }

  lemma {:induction false} LoopStartsTest(m: Machine, rs: seq<Reading>)
    requires WellFormed(m) && !Stable(m) && m.state == RunningTest
    requires Settles(m, rs)
    ensures var m' := RunLoop(m, rs);
            m'.state == RunningTest && m'.current == m.current && m'.events == m.events
  {
    assert Stable(Pass(m, rs[0]));
  }

  /** An action without a report leaves the instance where it is. */
  lemma {:induction false} NoReport(m: Machine, a: Action, id: Id, reports: seq<Message>)
    requires Inv(m) && Possible(m, a) && WatchedAction(m, a) && Expecting(m, id, reports)
    requires !a.StatusMessage? && !a.ResultMessage?
    ensures Expecting(Do(m, a), id, reports) && History(Do(m, a).events, id) == History(m.events, id)
  {
    assert Accounted(m, id);
    InvDo(m, a);
    if reports == [] {
      ActionOnlyAppends(m, a);
      assert Accounted(Do(m, a), id);
      EndIsFinal(m.events, Do(m, a).events, id);
    } else {
      match a
      case Tick(rs) => LoopWaits(m, rs);
      case Schedule(x) => NothingPublishedYet(m.events, x); HistoryOfOneMore(m.events, StatusOf(x, Queued), id);
      case Unschedule(x) => HistoryOfOneMore(m.events, StatusOf(x, Canceled), id);
      case Heartbeat(_) =>
    }
  }

  lemma {:induction false} RunningReported(m: Machine, a: Action, id: Id)
    requires Inv(m) && Possible(m, a) && WatchedAction(m, a) && Expecting(m, id, REPORTS)
    requires a.StatusMessage? && a.status == Running
    ensures Expecting(Do(m, a), id, REPORTS[1..])
    ensures History(Do(m, a).events, id) == History(m.events, id) + [StatusOf(id, Running)]
  {
    LoopWaits(m, a.before);
    LoopStartsTest(OnStatus(m, Running), a.after);
    HistoryOfOneMore(m.events, StatusOf(id, Running), id);
  }

  lemma {:induction false} ResultReported(m: Machine, a: Action, id: Id)
    requires Inv(m) && Possible(m, a) && WatchedAction(m, a) && Expecting(m, id, REPORTS[1..])
    requires a.ResultMessage?
    ensures Expecting(Do(m, a), id, REPORTS[2..])
    ensures History(Do(m, a).events, id) == History(m.events, id) + [ResultOf(id)]
  {
    LoopWaits(m, a.before);
    LoopWaits(OnResult(m), a.after);
    HistoryOfOneMore(m.events, ResultOf(id), id);
  }

  lemma {:induction false} FinishedReported(m: Machine, a: Action, id: Id)
    requires Inv(m) && Possible(m, a) && WatchedAction(m, a) && Expecting(m, id, REPORTS[2..])
    requires a.StatusMessage? && a.status == Status.Finished
    ensures Expecting(Do(m, a), id, [])
    ensures History(Do(m, a).events, id) == History(m.events, id) + [StatusOf(id, Status.Finished)]
  {
    assert Accounted(m, id);
    LoopWaits(m, a.before);
    var f := OnStatus(m, Status.Finished);
    HistoryOfOneMore(m.events, StatusOf(id, Status.Finished), id);
    Published(m.events, StatusOf(id, Status.Finished), id);
    InvDo(m, a);
    LoopOnlyAppends(f, a.after);
    assert Accounted(Do(m, a), id);
    EndIsFinal(f.events, Do(m, a).events, id);
  }

  /** Each report is published for the instance, and takes it one stage further. */
  lemma {:induction false} OneReport(m: Machine, a: Action, id: Id, reports: seq<Message>)
    requires Inv(m) && Possible(m, a) && WatchedAction(m, a) && Expecting(m, id, reports) && reports != []
    requires DeliveredBy(a) == [reports[0]] && reports[0] != Beat
    ensures Expecting(Do(m, a), id, reports[1..])
    ensures History(Do(m, a).events, id) == History(m.events, id) + PublishedFor([reports[0]], id)
  {
    assert PublishedFor([reports[0]][1..], id) == [];
    if reports == REPORTS {
      RunningReported(m, a, id);
    } else if reports == REPORTS[1..] {
      ResultReported(m, a, id);
    } else {
      FinishedReported(m, a, id);
      assert reports[1..] == [];
    }
  }

  lemma PublishedForAppend(a: seq<Message>, b: seq<Message>, id: Id)
    requires |a| <= 1
    ensures PublishedFor(a + b, id) == PublishedFor(a, id) + PublishedFor(b, id)
  {
    if a == [] {
      assert a + b == b;
    } else {
      assert (a + b)[1..] == b && a[1..] == [];
    }
  }

  lemma {:induction false} OneAction(m: Machine, a: Action, id: Id, now: seq<Message>, later: seq<Message>)
    requires Inv(m) && Possible(m, a) && WatchedAction(m, a)
    requires now == Reports(DeliveredBy(a)) && Expecting(m, id, now + later)
    ensures |now| <= 1
    ensures Expecting(Do(m, a), id, later)
    ensures History(Do(m, a).events, id) == History(m.events, id) + PublishedFor(now, id)
  {
    if DeliveredBy(a) == [] {
      assert now + later == later;
      NoReport(m, a, id, later);
    } else {
      var message := DeliveredBy(a)[0];
      ReportsOfOne(message);
      assert DeliveredBy(a) == [message];
      if message == Beat {
        assert now + later == later;
        NoReport(m, a, id, later);
      } else {
        assert (now + later)[1..] == later;
        OneReport(m, a, id, now + later);
      }
    }
  }

  lemma {:induction false} ReportsArePublished(m: Machine, actions: seq<Action>, id: Id, reports: seq<Message>)
    requires Inv(m) && CanRun(m, actions) && WatchedRun(m, actions)
    requires Expecting(m, id, reports) && Reports(Delivered(actions)) == reports
    ensures var m' := Run(m, actions);
            Expecting(m', id, []) && History(m'.events, id) == History(m.events, id) + PublishedFor(reports, id)
    decreases |actions|
  {
    if actions != [] {
      var a, rest := actions[0], actions[1..];
      var next, now, later := Do(m, a), Reports(DeliveredBy(a)), Reports(Delivered(rest));
      ReportsOfAppend(DeliveredBy(a), Delivered(rest));
      InvDo(m, a);
      OneAction(m, a, id, now, later);
      ReportsArePublished(next, rest, id, later);
      PublishedForAppend(now, later, id);
      Associates(History(m.events, id), PublishedFor(now, id), PublishedFor(later, id));
    }
  }

  lemma PublishedForAll(id: Id)
    ensures PublishedFor(REPORTS, id) == [StatusOf(id, Running), ResultOf(id), StatusOf(id, Status.Finished)]
  {
    assert REPORTS == [StatusReport(Running)] + ([ResultReport] + [StatusReport(Status.Finished)]);
    PublishedForAppend([StatusReport(Running)], [ResultReport] + [StatusReport(Status.Finished)], id);
    PublishedForAppend([ResultReport], [StatusReport(Status.Finished)], id);
  }

  /**
   * While a test is being set up, let the messages of one connection reach the orchestrator
   * in order, interleaved in any way with ticks and scheduling calls. If the orchestrator stays
   * enabled and no heartbeat is more than 20 s old whenever it looks (`Heartbeats` says when a
   * connection sees to that, and `EndToEnd` joins the two), then it publishes for the instance
   * exactly Running, one result and Finished, whatever happened on the connection.
   */
  lemma {:induction false} ConnectionIsReportedExactly(m: Machine, actions: seq<Action>, id: Id,
                                    s: V2gServer.Surroundings, lastHeartbeat: int)
    requires Inv(m) && Stable(m) && m.state == SetupTest && m.current == Some(id)
    requires CanRun(m, actions) && WatchedRun(m, actions)
    requires s.bufferAllocated
    requires Delivered(actions) == Wire(V2gServer.AfterConnection(s, lastHeartbeat).log)
    ensures History(Run(m, actions).events, id)
         == History(m.events, id) + [StatusOf(id, Running), ResultOf(id), StatusOf(id, Status.Finished)]
    ensures PhaseOf(Run(m, actions).events, id) == Ended
  {
    ConnectionReports(s, lastHeartbeat);
    ReportsArePublished(m, actions, id, REPORTS);
    PublishedForAll(id);
  }
}
