/**
 * The test orchestrator: a queue of test instances, a timed state machine whose entry
 * actions are found by comparing two state fields, and the messages it reacts to.
 * Times are integer nanoseconds of the system clock.
 */
module TestStateMachine {
  import opened Durations
  import opened Wrappers

  type Id = nat

  datatype TestingState = Disabled | Idle | SetupTest | RunningTest | CancelTest | CleanupTest

  datatype Status = Queued | Running | Finished | Canceled

  /** What the machine publishes about an instance. */
  datatype Event = StatusOf(id: Id, status: Status) | ResultOf(id: Id)

  /** Entry actions, in the order in which they are carried out. */
  datatype Signal =
    | SetUp(id: Id)
    | CaptureStarted(id: Id)
    | Cancelled(id: Id)
    | CleanedUp(id: Id)
    | CaptureStopped(id: Id)

  /** One reading of the clock and of the enable flag, taken by one pass of the loop. */
  datatype Reading = Reading(now: int, enabled: bool)

  const HEARTBEAT_TIMEOUT := 20_000 * NS_PER_MS
  const CANCELLATION_TIMEOUT_MS := 10_000
  const CLEANUP_TIME_MS := 10_000

  datatype Machine = Machine(
    queue: seq<Id>,
    current: Option<Id>,
    state: TestingState,
    detected: TestingState,
    stateStarted: int,
    testStarted: int,
    lastHeartbeat: int,
    events: seq<Event>,
    signals: seq<Signal>)

  /** States in which an instance has been selected. */
  predicate HasInstance(s: TestingState) {
    s == SetupTest || s == RunningTest || s == CancelTest || s == CleanupTest
  }

  predicate WellFormed(m: Machine) {
    HasInstance(m.state) ==> m.current.Some?
  }

  /** No state change is pending; every call of the loop ends so. */
  predicate Stable(m: Machine) {
    m.detected == m.state
  }

  // ---------------------------------------------------------------------------
  // Specification
  // ---------------------------------------------------------------------------

  /** Detection of a state change, with the bookkeeping and entry actions of the state entered. */
  function Entered(m: Machine, now: int): Machine
    requires WellFormed(m)
  {
    if Stable(m) then m
    else
      var e := m.(detected := m.state, stateStarted := now);
      match m.state
      case SetupTest => e.(signals := m.signals + [SetUp(m.current.value), CaptureStarted(m.current.value)])
      case RunningTest => e.(testStarted := now, lastHeartbeat := now)
      case CancelTest => e.(signals := m.signals + [Cancelled(m.current.value)])
      case CleanupTest => e.(signals := m.signals + [CleanedUp(m.current.value), CaptureStopped(m.current.value)])
      case _ => e
  }

  /** The transition that a state makes by itself, given the clock and the enable flag. */
  function Moved(m: Machine, r: Reading): Machine
    requires WellFormed(m)
  {
    match m.state
    case Disabled => if r.enabled then m.(state := Idle) else m
    case Idle =>
      if !r.enabled then m.(state := Disabled)
      else if m.queue == [] then m
      else m.(current := Some(m.queue[0]), queue := m.queue[1..], state := SetupTest)
    case SetupTest => m
    case RunningTest =>
      if r.enabled && r.now - m.lastHeartbeat > HEARTBEAT_TIMEOUT then m.(state := CancelTest) else m
    case CancelTest =>
      if ToMs(r.now - m.stateStarted) > CANCELLATION_TIMEOUT_MS then
        m.(events := m.events + [StatusOf(m.current.value, Canceled)], state := CleanupTest)
      else m
    case CleanupTest =>
      if ToMs(r.now - m.stateStarted) > CLEANUP_TIME_MS then m.(state := Idle) else m
  }

  /** One pass of the loop. */
  function Pass(m: Machine, r: Reading): (m': Machine)
    requires WellFormed(m)
    ensures WellFormed(m')
  {
    Moved(Entered(m, r.now), r)
  }

  /** The loop comes to rest within the given readings. */
  predicate Settles(m: Machine, rs: seq<Reading>)
    requires WellFormed(m)
    decreases |rs|
  {
    rs != [] && (Stable(Pass(m, rs[0])) || Settles(Pass(m, rs[0]), rs[1..]))
  }

  /** Passes until the state does not change any more. */
  function RunLoop(m: Machine, rs: seq<Reading>): (m': Machine)
    requires WellFormed(m) && Settles(m, rs)
    ensures WellFormed(m') && Stable(m')
    decreases |rs|
  {
    var p := Pass(m, rs[0]);
    if Stable(p) then p else RunLoop(p, rs[1..])
  }

  function PassCount(m: Machine, rs: seq<Reading>): (n: nat)
    requires WellFormed(m) && Settles(m, rs)
    ensures 1 <= n <= |rs|
    decreases |rs|
  {
    var p := Pass(m, rs[0]);
    if Stable(p) then 1 else 1 + PassCount(p, rs[1..])
  }

  lemma {:induction false} LoopUnfolds(m: Machine, rs: seq<Reading>, rest: seq<Reading>)
    requires WellFormed(m) && Settles(m, rs) && rs[1..] == rest
    ensures var p := Pass(m, rs[0]);
            if Stable(p) then RunLoop(m, rs) == p && PassCount(m, rs) == 1
            else && Settles(p, rest) && RunLoop(m, rs) == RunLoop(p, rest)
                 && PassCount(m, rs) == 1 + PassCount(p, rest)
  {
  }

  /** Reaction to a status message of the V2G module, once the machine has come to rest. */
  function OnStatus(m: Machine, status: Status): (m': Machine)
    requires WellFormed(m)
    ensures WellFormed(m')
  {
    if m.state == SetupTest && status == Running then
      m.(state := RunningTest, events := m.events + [StatusOf(m.current.value, Running)])
    else if (m.state == RunningTest || m.state == CancelTest) && (status == Finished || status == Canceled) then
      m.(state := CleanupTest, events := m.events + [StatusOf(m.current.value, status)])
    else m
  }

  function OnResult(m: Machine): (m': Machine)
    requires WellFormed(m)
    ensures WellFormed(m')
  {
    if m.state == RunningTest || m.state == CancelTest then m.(events := m.events + [ResultOf(m.current.value)])
    else m
  }

  /** The queue without its first occurrence of an instance. */
  function Without(queue: seq<Id>, id: Id): seq<Id> {
    if queue == [] then []
    else if queue[0] == id then queue[1..]
    else [queue[0]] + Without(queue[1..], id)
  }

  function Enqueued(m: Machine, id: Id): Machine {
    m.(queue := m.queue + [id])
  }

  function Removed(m: Machine, id: Id): Machine {
    m.(queue := Without(m.queue, id))
  }

  function Announced(m: Machine, e: Event): Machine {
    m.(events := m.events + [e])
  }

  /**
   * Everything that can happen to the machine. Loop calls and messages hold the machine's lock
   * throughout; scheduling and unscheduling publish after releasing it, and each of them is one
   * step here, as it is if nothing interferes.
   */
  datatype Action =
    | Schedule(id: Id)
    | Unschedule(id: Id)
    | Tick(rs: seq<Reading>)
    | Heartbeat(now: int)
    | StatusMessage(status: Status, before: seq<Reading>, after: seq<Reading>)
    | ResultMessage(before: seq<Reading>, after: seq<Reading>)

  /** Identifiers are fresh, and every call of the loop is given enough readings to come to rest. */
  predicate Possible(m: Machine, a: Action)
    requires WellFormed(m)
  {
    match a
    case Schedule(id) => forall e | e in m.events :: e.id != id
    case Unschedule(_) => true
    case Heartbeat(_) => true
    case Tick(rs) => Settles(m, rs)
    case StatusMessage(status, before, after) =>
      Settles(m, before) && Settles(OnStatus(RunLoop(m, before), status), after)
    case ResultMessage(before, after) => Settles(m, before) && Settles(OnResult(RunLoop(m, before)), after)
  }

  function Do(m: Machine, a: Action): (m': Machine)
    requires WellFormed(m) && Possible(m, a)
    ensures WellFormed(m')
  {
    match a
    case Schedule(id) => Announced(Enqueued(m, id), StatusOf(id, Queued))
    case Unschedule(id) => if id in m.queue then Announced(Removed(m, id), StatusOf(id, Canceled)) else m
    case Heartbeat(now) => m.(lastHeartbeat := now)
    case Tick(rs) => RunLoop(m, rs)
    case StatusMessage(status, before, after) => RunLoop(OnStatus(RunLoop(m, before), status), after)
    case ResultMessage(before, after) => RunLoop(OnResult(RunLoop(m, before)), after)
  }

  const INITIAL := Machine([], None, Disabled, Disabled, 0, 0, 0, [], [])

  // ---------------------------------------------------------------------------
  // The loop comes to rest
  // ---------------------------------------------------------------------------

  /** How often the enable flag changes from one reading to the next. */
  function Flips(rs: seq<Reading>): nat {
    if |rs| <= 1 then 0 else (if rs[0].enabled != rs[1].enabled then 1 else 0) + Flips(rs[1..])
  }

  /** Passes that can still follow while the flag keeps its value. */
  function Rank(m: Machine, enabled: bool): nat {
    match m.state
    case Disabled => if enabled then 3 else 1
    case Idle => 2
    case SetupTest => 1
    case RunningTest => 2
    case CancelTest => if Stable(m) then 2 else 1
    case CleanupTest => if Stable(m) then 3 else 1
  }

  /**
   * A call that starts in CleanupTest with the cleanup time over, the flag unset and an instance
   * waiting: the one start from which a call can take a pass more than three plus one for each change.
   */
  predicate Delays(m: Machine, r: Reading) {
    m.state == CleanupTest && Stable(m) && ToMs(r.now - m.stateStarted) > CLEANUP_TIME_MS
    && !r.enabled && m.queue != []
  }

  /** Passes that can still follow, each change of the flag counting for one. */
  function Budget(m: Machine, r: Reading): nat {
    var waiting := if m.queue == [] then 0 else 1;
    match m.state
    case Disabled => if r.enabled then 2 + waiting else 1 + waiting
    case Idle => if r.enabled then 1 + waiting else 2 + waiting
    case SetupTest => 1
    case RunningTest => 2
    case CancelTest => if Stable(m) then 2 else 1
    case CleanupTest => if !Stable(m) then 1 else if Delays(m, r) then 4 else 3
  }

  lemma PassLowers(m: Machine, r: Reading)
    requires WellFormed(m) && !Stable(Pass(m, r))
    ensures Rank(Pass(m, r), r.enabled) < Rank(m, r.enabled)
    ensures Budget(Pass(m, r), r) < Budget(m, r)
  {
  }

  lemma {:induction false} RestsUnderConstantFlag(m: Machine, rs: seq<Reading>)
    requires WellFormed(m) && rs != [] && |rs| >= Rank(m, rs[0].enabled) && Flips(rs) == 0
    ensures Settles(m, rs) && PassCount(m, rs) <= Rank(m, rs[0].enabled)
    decreases |rs|
  {
    if !Stable(Pass(m, rs[0])) {
      PassLowers(m, rs[0]);
      RestsUnderConstantFlag(Pass(m, rs[0]), rs[1..]);
    }
  }

  /** Between two passes, another reading raises the budget by one at most, and only with the flag. */
  lemma BudgetOfReading(m: Machine, r: Reading, next: Reading)
    requires !Stable(m)
    ensures Budget(m, next) <= Budget(m, r) + if r.enabled != next.enabled then 1 else 0
  {
  }

  /** A call that comes to rest stays within its budget. */
  lemma {:induction false} PassesWithinBudget(m: Machine, rs: seq<Reading>)
    requires WellFormed(m) && Settles(m, rs)
    ensures PassCount(m, rs) <= Budget(m, rs[0]) + Flips(rs[..PassCount(m, rs)])
    decreases |rs|
  {
    var p := Pass(m, rs[0]);
    if !Stable(p) {
      PassLowers(m, rs[0]);
      BudgetOfReading(p, rs[0], rs[1]);
      PassesWithinBudget(p, rs[1..]);
      FlipsOfTail(rs, 1 + PassCount(p, rs[1..]));
    }
  }

  lemma {:induction false} FlipsOfTail(rs: seq<Reading>, n: nat)
    requires 2 <= n <= |rs|
    ensures Flips(rs[..n]) == (if rs[0].enabled != rs[1].enabled then 1 else 0) + Flips(rs[1..][..n - 1])
  {
    assert rs[..n][1..] == rs[1..][..n - 1];
  }

  /** Enough readings bring every call to rest. */
  lemma {:induction false} EnoughReadingsSettle(m: Machine, rs: seq<Reading>)
    requires WellFormed(m) && rs != [] && |rs| >= Budget(m, rs[0]) + Flips(rs)
    ensures Settles(m, rs)
    decreases |rs|
  {
    var p := Pass(m, rs[0]);
    if !Stable(p) {
      PassLowers(m, rs[0]);
      BudgetOfReading(p, rs[0], rs[1]);
      EnoughReadingsSettle(p, rs[1..]);
    }
  }

  /**
   * One call of the loop makes at most three passes while the enable flag keeps its value,
   * and at most three plus one for each change of the flag, or one more if its start delays it.
   */
  lemma {:induction false} LoopComesToRest(m: Machine, rs: seq<Reading>)
    requires WellFormed(m) && |rs| >= 4 + Flips(rs)
    ensures Settles(m, rs)
    ensures PassCount(m, rs) <= 3 + Flips(rs[..PassCount(m, rs)]) + if Delays(m, rs[0]) then 1 else 0
    ensures Flips(rs) == 0 ==> PassCount(m, rs) <= 3
  {
    EnoughReadingsSettle(m, rs);
    PassesWithinBudget(m, rs);
    if Flips(rs) == 0 {
      RestsUnderConstantFlag(m, rs);
    }
  }

  /** The call makes more than three passes plus one for each change of the flag. */
  predicate Exceeds(m: Machine, rs: seq<Reading>)
    requires WellFormed(m)
  {
    Settles(m, rs) && PassCount(m, rs) > 3 + Flips(rs[..PassCount(m, rs)])
  }

  /** From Disabled or Idle, a call uses up its budget exactly if it selects an instance and ends with the flag set. */
  lemma {:induction false} BudgetIsUsedUp(m: Machine, rs: seq<Reading>)
    requires WellFormed(m) && !Stable(m) && (m.state == Disabled || m.state == Idle) && m.queue != []
    requires Settles(m, rs)
    ensures PassCount(m, rs) == Budget(m, rs[0]) + Flips(rs[..PassCount(m, rs)])
       <==> RunLoop(m, rs).state == SetupTest && rs[PassCount(m, rs) - 1].enabled
    decreases |rs|
  {
    var p := Pass(m, rs[0]);
    if !Stable(p) {
      FlipsOfTail(rs, 1 + PassCount(p, rs[1..]));
      if p.state == SetupTest {
        assert Stable(Pass(p, rs[1]));
      } else {
        BudgetIsUsedUp(p, rs[1..]);
        PassesWithinBudget(p, rs[1..]);
      }
    }
  }

  /**
   * "Three passes plus one for each change of the flag" fails exactly for calls that start in a
   * delaying state, find the flag unset for a second pass, and end by setting up an instance
   * with the flag set.
   */
  lemma {:induction false} ExceedsExactly(m: Machine, rs: seq<Reading>)
    requires WellFormed(m) && Settles(m, rs)
    ensures Exceeds(m, rs) <==>
              && Delays(m, rs[0]) && PassCount(m, rs) >= 2 && !rs[1].enabled
              && RunLoop(m, rs).state == SetupTest && rs[PassCount(m, rs) - 1].enabled
  {
    PassesWithinBudget(m, rs);
    var p := Pass(m, rs[0]);
    if Delays(m, rs[0]) {
      assert p.state == Idle && !Stable(p);
      FlipsOfTail(rs, 1 + PassCount(p, rs[1..]));
      PassesWithinBudget(p, rs[1..]);
      BudgetIsUsedUp(p, rs[1..]);
    }
  }

  /** Whether a call can exceed the bound is decided by its start and first reading alone. */
  lemma CanExceedExactly(m: Machine, r: Reading)
    requires WellFormed(m)
    ensures (exists rs :: Exceeds(m, rs) && rs[0] == r) <==> Delays(m, r)
  {
    if Delays(m, r) {
      var rs := OneFlipCostsTwoPasses(m, r);
    } else {
      forall rs | Exceeds(m, rs) && rs[0] == r ensures false {
        ExceedsExactly(m, rs);
      }
    }
  }

  lemma {:induction false} OnePassMore(m: Machine, r: Reading, rs: seq<Reading>)
    requires WellFormed(m) && !Stable(Pass(m, r)) && Settles(Pass(m, r), rs)
    ensures Settles(m, [r] + rs) && PassCount(m, [r] + rs) == 1 + PassCount(Pass(m, r), rs)
  {
    assert ([r] + rs)[1..] == rs;
  }

  /** From every delaying start, one change of the flag can cost two passes: cleanup, idle, disabled, idle, setup. */
  lemma OneFlipCostsTwoPasses(m: Machine, off: Reading) returns (rs: seq<Reading>)
    requires WellFormed(m) && Delays(m, off)
    ensures Exceeds(m, rs) && rs[0] == off && Flips(rs) == 1 && PassCount(m, rs) == |rs| == 5
  {
    var on := Reading(off.now, true);
    var m1 := Pass(m, off);
    var m2 := Pass(m1, off);
    var m3 := Pass(m2, on);
    var m4 := Pass(m3, on);
    assert m1.state == Idle && m2.state == Disabled && m3.state == Idle && m4.state == SetupTest;
    assert Stable(Pass(m4, on)) && PassCount(m4, [on]) == 1;
    OnePassMore(m3, on, [on]);
    OnePassMore(m2, on, [on] + [on]);
    OnePassMore(m1, off, [on] + ([on] + [on]));
    OnePassMore(m, off, [off] + ([on] + ([on] + [on])));
    rs := [off] + ([off] + ([on] + ([on] + [on])));
    FlipsOfFive(off, on);
    assert rs[..5] == rs;
  }

  lemma FlipsOfFive(off: Reading, on: Reading)
    requires off.enabled != on.enabled
    ensures Flips([off] + ([off] + ([on] + ([on] + [on])))) == 1
  {
    var rs := [off] + ([off] + ([on] + ([on] + [on])));
    assert rs[1..] == [off, on, on, on] && rs[1..][1..] == [on, on, on] && rs[1..][1..][1..] == [on, on];
    assert Flips([on, on]) == 0 && Flips([on, on, on]) == 0 && Flips([off, on, on, on]) == 1;
  }

  // ---------------------------------------------------------------------------
  // The machine object
  // ---------------------------------------------------------------------------

  class StateMachine {
    var scheduledTests: seq<Id>
    var currentTest: Option<Id>
    var currentState: TestingState
    var lastStateDetectStateChange: TestingState
    var currentStateStarted: int
    var currentTestStarted: int
    var lastV2gHeartbeat: int
    var published: seq<Event>
    var signalled: seq<Signal>

    function M(): Machine
      reads this
    {
      Machine(scheduledTests, currentTest, currentState, lastStateDetectStateChange, currentStateStarted,
              currentTestStarted, lastV2gHeartbeat, published, signalled)
    }

    constructor ()
      ensures M() == INITIAL
    {
      scheduledTests, currentTest := [], None;
      currentState, lastStateDetectStateChange := Disabled, Disabled;
      currentStateStarted, currentTestStarted, lastV2gHeartbeat := 0, 0, 0;
      published, signalled := [], [];
    }

    method ScheduleTest(id: Id)
      requires WellFormed(M()) && Possible(M(), Schedule(id))
      modifies this
      ensures M() == Do(old(M()), Schedule(id))
    {
      EnqueueTest(id);
      PublishTestStatus(id, Queued);
    }

    method UnscheduleTest(id: Id)
      requires WellFormed(M())
      modifies this
      ensures M() == Do(old(M()), Unschedule(id))
    {
      var found := RemoveTest(id);
      if found {
        PublishTestStatus(id, Canceled);
      }
    }

    /** What scheduling does under the lock. */
    method EnqueueTest(id: Id)
      modifies this
      ensures M() == Enqueued(old(M()), id)
    {
      scheduledTests := scheduledTests + [id];
    }

    /** What scheduling and unscheduling do after they have released it. */
    method PublishTestStatus(id: Id, status: Status)
      modifies this
      ensures M() == Announced(old(M()), StatusOf(id, status))
    {
      published := published + [StatusOf(id, status)];
    }

    /** What unscheduling does under the lock. */
    method RemoveTest(id: Id) returns (found: bool)
      modifies this
      ensures found <==> id in old(scheduledTests)
      ensures M() == if found then Removed(old(M()), id) else old(M())
    {
      var position := 0;
      while position < |scheduledTests| && scheduledTests[position] != id
        invariant position <= |scheduledTests| && id !in scheduledTests[..position]
        invariant Without(scheduledTests, id) == scheduledTests[..position] + Without(scheduledTests[position..], id)
      {
        assert scheduledTests[..position + 1] == scheduledTests[..position] + [scheduledTests[position]];
        assert scheduledTests[position..][1..] == scheduledTests[position + 1..];
        position := position + 1;
      }
      found := position < |scheduledTests|;
      if found {
        assert scheduledTests[position..][1..] == scheduledTests[position + 1..];
        scheduledTests := scheduledTests[..position] + scheduledTests[position + 1..];
      } else {
        assert scheduledTests[..position] == scheduledTests;
      }
    }

    /** One pass: detect a state change, run entry actions, then let the state act. */
    method MakePass(r: Reading)
      requires WellFormed(M())
      modifies this
      ensures M() == Pass(old(M()), r)
    {
      var initialize := lastStateDetectStateChange != currentState;
      lastStateDetectStateChange := currentState;
      if initialize {
        currentStateStarted := r.now;
      }
      var timeInCurrentState := ToMs(r.now - currentStateStarted);
      match currentState {
        case Disabled =>
          if r.enabled {
            currentState := Idle;
          }
        case Idle =>
          if !r.enabled {
            currentState := Disabled;
          } else if scheduledTests != [] {
            currentTest := Some(scheduledTests[0]);
            scheduledTests := scheduledTests[1..];
            currentState := SetupTest;
          }
        case SetupTest =>
          if initialize {
            signalled := signalled + [SetUp(currentTest.value), CaptureStarted(currentTest.value)];
          }
        case RunningTest =>
          if initialize {
            currentTestStarted := r.now;
            lastV2gHeartbeat := r.now;
          }
          if r.enabled && r.now - lastV2gHeartbeat > HEARTBEAT_TIMEOUT {
            currentState := CancelTest;
          }
        case CancelTest =>
          if initialize {
            signalled := signalled + [Cancelled(currentTest.value)];
          }
          if timeInCurrentState > CANCELLATION_TIMEOUT_MS {
            published := published + [StatusOf(currentTest.value, Canceled)];
            currentState := CleanupTest;
          }
        case CleanupTest =>
          if initialize {
            signalled := signalled + [CleanedUp(currentTest.value), CaptureStopped(currentTest.value)];
          }
          if timeInCurrentState > CLEANUP_TIME_MS {
            currentState := Idle;
          }
      }
    }

    method RunStateMachine(rs: seq<Reading>) returns (passes: nat)
      requires WellFormed(M()) && Settles(M(), rs)
      modifies this
      ensures M() == RunLoop(old(M()), rs) && passes == PassCount(old(M()), rs)
    {
      passes := 0;
      var running := true;
      ghost var rest := rs;
      while running
        invariant passes <= |rs| && rest == rs[passes..] && WellFormed(M())
        invariant running ==> Settles(M(), rest)
        invariant running ==> RunLoop(M(), rest) == RunLoop(old(M()), rs)
        invariant running ==> passes + PassCount(M(), rest) == PassCount(old(M()), rs)
        invariant !running ==> M() == RunLoop(old(M()), rs) && passes == PassCount(old(M()), rs)
        decreases |rs| - passes, running
      {
        LoopUnfolds(M(), rest, rest[1..]);
        rest := rest[1..];
        MakePass(rs[passes]);
        passes := passes + 1;
        running := lastStateDetectStateChange != currentState;
      }
    }

    method ProcessHeartbeat(now: int)
      requires WellFormed(M())
      modifies this
      ensures M() == Do(old(M()), Heartbeat(now))
    {
      lastV2gHeartbeat := now;
    }

    method ProcessTestStatus(status: Status, before: seq<Reading>, after: seq<Reading>)
      requires WellFormed(M()) && Possible(M(), StatusMessage(status, before, after))
      modifies this
      ensures M() == Do(old(M()), StatusMessage(status, before, after))
    {
      var settled := RunStateMachine(before);
      match currentState {
        case SetupTest =>
          if status == Running {
            currentState := RunningTest;
            published := published + [StatusOf(currentTest.value, status)];
          }
        case RunningTest =>
          if status == Finished || status == Canceled {
            currentState := CleanupTest;
            published := published + [StatusOf(currentTest.value, status)];
          }
        case CancelTest =>
          if status == Finished || status == Canceled {
            currentState := CleanupTest;
            published := published + [StatusOf(currentTest.value, status)];
          }
        case _ =>
      }
      settled := RunStateMachine(after);
    }

    method ProcessTestResult(before: seq<Reading>, after: seq<Reading>)
      requires WellFormed(M()) && Possible(M(), ResultMessage(before, after))
      modifies this
      ensures M() == Do(old(M()), ResultMessage(before, after))
    {
      var settled := RunStateMachine(before);
      if currentState == RunningTest || currentState == CancelTest {
        published := published + [ResultOf(currentTest.value)];
      }
      settled := RunStateMachine(after);
    }
  }
}
