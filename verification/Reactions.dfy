/**
 * What one call of the loop and one message do to a machine at rest, told in the clock, the
 * flag and what is published; and, over every run, what the machine's clocks remember.
 */
module Reactions {
  import opened OrchestratorSafety
  import opened TestStateMachine
  import opened Wrappers

  const MILLISECOND := 1_000_000
  const SECOND := 1000 * MILLISECOND

  // ---------------------------------------------------------------------------
  // One call of the loop
  // ---------------------------------------------------------------------------

  /** The flag is set and nothing has been heard for more than 20 s. */
  predicate Silent(heard: int, r: Reading) {
    r.enabled && r.now > heard + 20 * SECOND
  }

  /** More than 10 s have passed, in whole milliseconds. */
  predicate Overdue(since: int, r: Reading) {
    r.now >= since + 10_001 * MILLISECOND
  }

  /** Only the bookkeeping of the loop has changed. */
  predicate OnlyMovedTo(m: Machine, e: Machine, state: TestingState) {
    e == m.(state := state, detected := state, stateStarted := e.stateStarted)
  }

  /** The machine has left a state for a later one, whose entry actions it has carried out. */
  predicate Went(m: Machine, e: Machine, state: TestingState, now: int, told: seq<Event>, done: seq<Signal>) {
    e == m.(state := state, detected := state, stateStarted := now, events := m.events + told,
            signals := m.signals + done)
  }

  /**
   * From Disabled or Idle, a call ends with the first waiting instance being set up, or in Idle
   * with the flag set and nothing waiting, or in Disabled with the flag unset.
   */
  lemma {:induction false} SelectionExactly(m: Machine, rs: seq<Reading>)
    requires WellFormed(m) && Settles(m, rs)
    requires m.state == Disabled || m.state == Idle
    ensures var e := RunLoop(m, rs);
            var last := rs[PassCount(m, rs) - 1];
            match e.state
            case SetupTest =>
              && PassCount(m, rs) >= 2 && rs[PassCount(m, rs) - 2].enabled && m.queue != []
              && var id := m.queue[0];
                 Went(m.(queue := m.queue[1..], current := Some(id)), e, SetupTest, last.now, [],
                      [SetUp(id), CaptureStarted(id)])
            case Idle => last.enabled && m.queue == [] && OnlyMovedTo(m, e, Idle)
            case Disabled => !last.enabled && OnlyMovedTo(m, e, Disabled)
            case _ => false
    decreases |rs|
  {
    var p := Pass(m, rs[0]);
    if !Stable(p) {
      if p.state == SetupTest {
        assert Stable(Pass(p, rs[1]));
        assert PassCount(m, rs) == 2;
        assert m.events + [] == m.events;
      } else {
        SelectionExactly(p, rs[1..]);
      }
    }
  }

  /** What a call does from each state at rest, by its first reading. */
  lemma {:induction false} CallExactly(m: Machine, rs: seq<Reading>)
    requires WellFormed(m) && Stable(m) && Settles(m, rs)
    ensures var e := RunLoop(m, rs);
            match m.state
            case RunningTest =>
              if Silent(m.lastHeartbeat, rs[0]) then
                |rs| >= 2 && Went(m, e, CancelTest, rs[1].now, [], [Cancelled(m.current.value)])
              else e == m
            case CancelTest =>
              if Overdue(m.stateStarted, rs[0]) then
                && |rs| >= 2
                && Went(m, e, CleanupTest, rs[1].now, [StatusOf(m.current.value, Canceled)],
                        [CleanedUp(m.current.value), CaptureStopped(m.current.value)])
              else e == m
            case CleanupTest =>
              if Overdue(m.stateStarted, rs[0]) then
                && Settles(m.(state := Idle), rs[1..]) && e == RunLoop(m.(state := Idle), rs[1..])
                && (e.state == Disabled || e.state == Idle || e.state == SetupTest)
              else e == m
            case SetupTest => e == m
            case _ => e.state == Disabled || e.state == Idle || e.state == SetupTest
  {
    var p := Pass(m, rs[0]);
    match m.state
    case Disabled => SelectionExactly(m, rs);
    case Idle => SelectionExactly(m, rs);
    case CleanupTest =>
      if !Stable(p) {
        SelectionExactly(p, rs[1..]);
      }
    case RunningTest =>
      if !Stable(p) {
        assert Stable(Pass(p, rs[1]));
        assert m.events + [] == m.events;
      }
    case CancelTest =>
      if !Stable(p) {
        assert Stable(Pass(p, rs[1]));
      }
    case SetupTest =>
  }

  /** A state that has just been entered by a message is kept by the call that follows it. */
  lemma {:induction false} EntryExactly(m: Machine, rs: seq<Reading>)
    requires WellFormed(m) && !Stable(m) && Settles(m, rs)
    requires m.state == RunningTest || m.state == CleanupTest
    ensures var e := RunLoop(m, rs);
            if m.state == RunningTest then
              e == m.(detected := m.state, stateStarted := rs[0].now, testStarted := rs[0].now,
                      lastHeartbeat := rs[0].now)
            else
              Went(m, e, CleanupTest, rs[0].now, [], [CleanedUp(m.current.value), CaptureStopped(m.current.value)])
  {
    assert Stable(Pass(m, rs[0]));
    assert m.events + [] == m.events;
  }

  // ---------------------------------------------------------------------------
  // One message
  // ---------------------------------------------------------------------------

  /** What has been published about every instance, with some publications about one instance added. */
  ghost predicate Told(before: seq<Event>, after: seq<Event>, id: Id, more: seq<Event>) {
    forall x :: History(after, x) == History(before, x) + if x == id then more else []
  }

  lemma TellOne(before: seq<Event>, e: Event)
    ensures Told(before, before + [e], e.id, [e])
  {
    forall x ensures History(before + [e], x) == History(before, x) + if x == e.id then [e] else [] {
      HistoryOfOneMore(before, e, x);
    }
  }

  lemma TellTwo(before: seq<Event>, e: Event, f: Event)
    requires e.id == f.id
    ensures Told(before, before + [e] + [f], e.id, [e, f])
  {
    forall x ensures History(before + [e] + [f], x) == History(before, x) + if x == e.id then [e, f] else [] {
      HistoryOfOneMore(before, e, x);
      HistoryOfOneMore(before + [e], f, x);
    }
  }

  /** The test of the machine at rest is ended by a status. */
  predicate EndsTest(s: Machine, status: Status) {
    (s.state == RunningTest || s.state == CancelTest) && (status == Finished || status == Canceled)
  }

  /**
   * What a status message does, by the state in which the call before it rests: Running starts
   * the test that is being set up, Finished and Canceled end the one that is running or being
   * cancelled, and the status is published for that instance and no other. Any other message
   * has no effect: what remains is the two calls of the loop.
   */
  lemma {:induction false} StatusExactly(m: Machine, status: Status, before: seq<Reading>, after: seq<Reading>)
    requires Inv(m) && Stable(m) && Possible(m, StatusMessage(status, before, after))
    ensures var s, e := RunLoop(m, before), Do(m, StatusMessage(status, before, after));
            if s.state == SetupTest && status == Running then
              var id := s.current.value;
              && Told(s.events, e.events, id, [StatusOf(id, Running)])
              && PhaseOf(s.events, id) == Waiting && PhaseOf(e.events, id) == Active
              && e == s.(state := RunningTest, detected := RunningTest, stateStarted := after[0].now,
                         testStarted := after[0].now, lastHeartbeat := after[0].now, events := e.events)
            else if EndsTest(s, status) then
              var id := s.current.value;
              && Told(s.events, e.events, id, [StatusOf(id, status)])
              && PhaseOf(s.events, id) == Active && PhaseOf(e.events, id) == Ended && !OnTest(e, id)
              && Went(s.(events := e.events), e, CleanupTest, after[0].now, [], [CleanedUp(id), CaptureStopped(id)])
            else Settles(s, after) && e == RunLoop(s, after)
  {
    var s := RunLoop(m, before);
    InvRunLoop(m, before);
    if (s.state == SetupTest && status == Running) || EndsTest(s, status) {
      ReactsToStatus(s, status, after);
    }
  }

  lemma {:induction false} ReactsToStatus(s: Machine, status: Status, after: seq<Reading>)
    requires Inv(s) && Stable(s) && Settles(OnStatus(s, status), after)
    requires (s.state == SetupTest && status == Running) || EndsTest(s, status)
    ensures var e, id := RunLoop(OnStatus(s, status), after), s.current.value;
            && Told(s.events, e.events, id, [StatusOf(id, status)])
            && (s.state == SetupTest ==>
                  && PhaseOf(s.events, id) == Waiting && PhaseOf(e.events, id) == Active
                  && e == s.(state := RunningTest, detected := RunningTest, stateStarted := after[0].now,
                             testStarted := after[0].now, lastHeartbeat := after[0].now, events := e.events))
            && (s.state != SetupTest ==>
                  && PhaseOf(s.events, id) == Active && PhaseOf(e.events, id) == Ended && !OnTest(e, id)
                  && Went(s.(events := e.events), e, CleanupTest, after[0].now, [],
                          [CleanedUp(id), CaptureStopped(id)]))
  {
    var id := s.current.value;
    assert Accounted(s, id);
    EntryExactly(OnStatus(s, status), after);
    TellOne(s.events, StatusOf(id, status));
    Published(s.events, StatusOf(id, status), id);
    assert s.events + [StatusOf(id, status)] + [] == s.events + [StatusOf(id, status)];
  }

  /**
   * What a result does: it is published for the instance that is running or being cancelled,
   * and for no other. The call after it may still give up waiting for the cancellation.
   */
  lemma {:induction false} ResultExactly(m: Machine, before: seq<Reading>, after: seq<Reading>)
    requires Inv(m) && Stable(m) && Possible(m, ResultMessage(before, after))
    ensures var s, e := RunLoop(m, before), Do(m, ResultMessage(before, after));
            if s.state == RunningTest || s.state == CancelTest then
              var id := s.current.value;
              var givenUp := s.state == CancelTest && Overdue(s.stateStarted, after[0]);
              && Told(s.events, e.events, id, [ResultOf(id)] + if givenUp then [StatusOf(id, Canceled)] else [])
              && PhaseOf(s.events, id) == Active
              && Settles(s, after) && e == RunLoop(s, after).(events := e.events)
            else Settles(s, after) && e == RunLoop(s, after)
  {
    var s := RunLoop(m, before);
    InvRunLoop(m, before);
    if s.state == RunningTest || s.state == CancelTest {
      assert Accounted(s, s.current.value);
      ReactsToResult(s, OnResult(s), after);
    }
  }

  lemma {:induction false} ReactsToResult(s: Machine, t: Machine, after: seq<Reading>)
    requires WellFormed(s) && Stable(s) && (s.state == RunningTest || s.state == CancelTest)
    requires t == s.(events := s.events + [ResultOf(s.current.value)]) && Settles(t, after)
    ensures var e, id := RunLoop(t, after), s.current.value;
            var givenUp := s.state == CancelTest && Overdue(s.stateStarted, after[0]);
            && Told(s.events, e.events, id, [ResultOf(id)] + if givenUp then [StatusOf(id, Canceled)] else [])
            && Settles(s, after) && e == RunLoop(s, after).(events := e.events)
  {
    var id := s.current.value;
    var p := Pass(s, after[0]);
    assert p.(events := Pass(t, after[0]).events) == Pass(t, after[0]);
    if !Stable(p) {
      assert Stable(Pass(p, after[1])) && Stable(Pass(Pass(t, after[0]), after[1]));
    }
    TellOne(s.events, ResultOf(id));
    TellTwo(s.events, ResultOf(id), StatusOf(id, Canceled));
    assert [ResultOf(id)] + [StatusOf(id, Canceled)] == [ResultOf(id), StatusOf(id, Canceled)];
    assert [ResultOf(id)] + [] == [ResultOf(id)];
    if s.state == CancelTest {
      CallExactly(t, after);
    }
  }

  // ---------------------------------------------------------------------------
  // What the clocks remember
  // ---------------------------------------------------------------------------

  /** An action starts a test. */
  predicate Starts(m: Machine, a: Action)
    requires WellFormed(m) && Possible(m, a)
  {
    a.StatusMessage? && m.state != RunningTest && Do(m, a).state == RunningTest
  }

  /** When the running test was last heard of: its start or the last heartbeat, whichever came later in the run. */
  function LastContact(m: Machine, actions: seq<Action>, contact: int): int
    requires WellFormed(m) && CanRun(m, actions)
    decreases |actions|
  {
    if actions == [] then contact
    else
      var a := actions[0];
      LastContact(Do(m, a), actions[1..],
                  if a.Heartbeat? then a.now else if Starts(m, a) then a.after[0].now else contact)
  }

  /** When the last test was started. */
  function LastStart(m: Machine, actions: seq<Action>, start: int): int
    requires WellFormed(m) && CanRun(m, actions)
    decreases |actions|
  {
    if actions == [] then start
    else
      var a := actions[0];
      LastStart(Do(m, a), actions[1..], if Starts(m, a) then a.after[0].now else start)
  }

  lemma {:induction false} CallKeepsClocks(m: Machine, rs: seq<Reading>)
    requires WellFormed(m) && Settles(m, rs) && (m.state == RunningTest ==> Stable(m))
    ensures RunLoop(m, rs).lastHeartbeat == m.lastHeartbeat && RunLoop(m, rs).testStarted == m.testStarted
    ensures RunLoop(m, rs).state == RunningTest ==> m.state == RunningTest && Stable(m)
    decreases |rs|
  {
    if !Stable(Pass(m, rs[0])) {
      CallKeepsClocks(Pass(m, rs[0]), rs[1..]);
    }
  }

  lemma {:induction false} ActionKeepsClocks(m: Machine, a: Action)
    requires Inv(m) && Stable(m) && Possible(m, a)
    ensures Do(m, a).lastHeartbeat
         == if a.Heartbeat? then a.now else if Starts(m, a) then a.after[0].now else m.lastHeartbeat
    ensures Do(m, a).testStarted == if Starts(m, a) then a.after[0].now else m.testStarted
  {
    match a
    case Schedule(_) =>
    case Unschedule(_) =>
    case Heartbeat(_) =>
    case Tick(rs) => CallKeepsClocks(m, rs);
    case StatusMessage(status, before, after) =>
      var s := RunLoop(m, before);
      CallKeepsClocks(m, before);
      StatusExactly(m, status, before, after);
      if !(s.state == SetupTest && status == Running) && !EndsTest(s, status) {
        CallKeepsClocks(s, after);
      }
      if m.state == RunningTest {
        CallExactly(m, before);
      }
    case ResultMessage(before, after) =>
      CallKeepsClocks(m, before);
      CallKeepsClocks(OnResult(RunLoop(m, before)), after);
  }

  lemma {:induction false} ClocksOfRun(m: Machine, actions: seq<Action>)
    requires Inv(m) && Stable(m) && CanRun(m, actions)
    ensures Run(m, actions).lastHeartbeat == LastContact(m, actions, m.lastHeartbeat)
    ensures Run(m, actions).testStarted == LastStart(m, actions, m.testStarted)
    decreases |actions|
  {
    if actions != [] {
      ActionKeepsClocks(m, actions[0]);
      InvDo(m, actions[0]);
      ClocksOfRun(Do(m, actions[0]), actions[1..]);
    }
  }

  /**
   * In every run, the start time that a published result will carry is that of the last test
   * started, and the loop measures silence from that start or from the last heartbeat.
   */
  lemma {:induction false} ClocksRemember(actions: seq<Action>)
    requires CanRun(INITIAL, actions)
    ensures Run(INITIAL, actions).testStarted == LastStart(INITIAL, actions, 0)
    ensures Run(INITIAL, actions).lastHeartbeat == LastContact(INITIAL, actions, 0)
  {
    forall id ensures Accounted(INITIAL, id) {
    }
    ClocksOfRun(INITIAL, actions);
  }

  /** How many tests have been told to stop. */
  function Cancellations(signals: seq<Signal>): nat {
    if signals == [] then 0
    else Cancellations(signals[..|signals| - 1]) + if signals[|signals| - 1].Cancelled? then 1 else 0
  }

  lemma CancellationsOfMore(signals: seq<Signal>, s: Signal, t: Signal)
    ensures Cancellations(signals + [s]) == Cancellations(signals) + if s.Cancelled? then 1 else 0
    ensures Cancellations(signals + [s, t]) == Cancellations(signals + [s]) + if t.Cancelled? then 1 else 0
  {
    assert (signals + [s])[..|signals|] == signals;
    assert (signals + [s, t])[..|signals| + 1] == signals + [s];
  }

  /** The readings from which an action's calls of the loop start, as long as no status ends the test. */
  function Looks(a: Action): seq<Reading> {
    match a
    case Tick(rs) => FirstOf(rs)
    case StatusMessage(status, before, after) =>
      FirstOf(before) + if status == Finished || status == Canceled then [] else FirstOf(after)
    case ResultMessage(before, after) => FirstOf(before) + FirstOf(after)
    case _ => []
  }

  function FirstOf(rs: seq<Reading>): seq<Reading> {
    if rs == [] then [] else [rs[0]]
  }

  /** One call tells the running test to stop exactly if it finds it silent. */
  lemma {:induction false} CallCancelsExactly(m: Machine, rs: seq<Reading>)
    requires WellFormed(m) && Settles(m, rs)
    requires Stable(m) || m.state == RunningTest || m.state == CleanupTest
    ensures Cancellations(RunLoop(m, rs).signals)
         == Cancellations(m.signals)
            + if Stable(m) && m.state == RunningTest && Silent(m.lastHeartbeat, rs[0]) then 1 else 0
    ensures m.state == RunningTest ==>
              (RunLoop(m, rs).state == RunningTest <==> !Stable(m) || !Silent(m.lastHeartbeat, rs[0]))
    ensures m.state != RunningTest ==> RunLoop(m, rs).state != RunningTest
  {
    if HasInstance(m.state) {
      var id := m.current.value;
      CancellationsOfMore(m.signals, CleanedUp(id), CaptureStopped(id));
      CancellationsOfMore(m.signals, Cancelled(id), Cancelled(id));
    }
    if !Stable(m) {
      EntryExactly(m, rs);
    } else {
      CallExactly(m, rs);
      if m.state == Disabled || m.state == Idle {
        SelectionCancelsNothing(m, rs);
      } else if m.state == CleanupTest && Overdue(m.stateStarted, rs[0]) {
        SelectionCancelsNothing(m.(state := Idle), rs[1..]);
      }
    }
  }

  lemma {:induction false} SelectionCancelsNothing(m: Machine, rs: seq<Reading>)
    requires WellFormed(m) && Settles(m, rs) && (m.state == Disabled || m.state == Idle)
    ensures Cancellations(RunLoop(m, rs).signals) == Cancellations(m.signals)
  {
    SelectionExactly(m, rs);
    if m.queue != [] {
      CancellationsOfMore(m.signals, SetUp(m.queue[0]), CaptureStarted(m.queue[0]));
    }
  }

  /**
   * In every run, the next action tells a test to stop exactly if a test is running, the flag is
   * set, and a call of the loop finds that neither its start nor a heartbeat is within 20 s.
   */
  lemma {:induction false} CancelledExactlyWhenSilent(actions: seq<Action>, a: Action)
    requires CanRun(INITIAL, actions) && Possible(Run(INITIAL, actions), a)
    ensures var m := Run(INITIAL, actions);
            var silent := exists r | r in Looks(a) :: Silent(LastContact(INITIAL, actions, 0), r);
            Cancellations(Do(m, a).signals)
            == Cancellations(m.signals) + if m.state == RunningTest && silent then 1 else 0
  {
    var m := Run(INITIAL, actions);
    InvOfRun(actions);
    ClocksRemember(actions);
    match a
    case Schedule(_) =>
    case Unschedule(_) =>
    case Heartbeat(_) =>
    case Tick(rs) =>
      assert FirstOf(rs)[0] == rs[0];
      CallCancelsExactly(m, rs);
    case StatusMessage(status, before, after) => StatusCancelsExactly(m, status, before, after);
    case ResultMessage(before, after) =>
      var s := RunLoop(m, before);
      assert Looks(a)[0] == before[0] && Looks(a)[1] == after[0];
      CallCancelsExactly(m, before);
      CallKeepsClocks(m, before);
      CallCancelsExactly(OnResult(s), after);
  }

  lemma {:induction false} ReactionCancelsExactly(s: Machine, status: Status, after: seq<Reading>)
    requires WellFormed(s) && Stable(s) && Settles(OnStatus(s, status), after)
    ensures Cancellations(RunLoop(OnStatus(s, status), after).signals)
         == Cancellations(s.signals)
            + if s.state == RunningTest && !EndsTest(s, status) && Silent(s.lastHeartbeat, after[0]) then 1 else 0
  {
    CallCancelsExactly(OnStatus(s, status), after);
  }

  lemma {:induction false} StatusCancelsExactly(
      m: Machine, status: Status, before: seq<Reading>, after: seq<Reading>)
    requires WellFormed(m) && Stable(m) && Possible(m, StatusMessage(status, before, after))
    ensures var a := StatusMessage(status, before, after);
            Cancellations(Do(m, a).signals)
            == Cancellations(m.signals)
               + if m.state == RunningTest && exists r | r in Looks(a) :: Silent(m.lastHeartbeat, r) then 1 else 0
  {
    var s, looks := RunLoop(m, before), Looks(StatusMessage(status, before, after));
    CallCancelsExactly(m, before);
    CallKeepsClocks(m, before);
    ReactionCancelsExactly(s, status, after);
    if m.state == RunningTest {
      var ends := status == Finished || status == Canceled;
      assert looks == if ends then [before[0]] else [before[0], after[0]];
      assert looks[0] == before[0];
      assert !ends ==> looks[1] == after[0];
    }
  }
}
