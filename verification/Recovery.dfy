/**
 * Bounded recovery: while the machine is enabled and looked at often enough, a running test
 * that has gone silent is cancelled, cleaned up and left within fixed times.
 */
module Recovery {
  import opened Durations
  import opened OrchestratorSafety
  import opened TestStateMachine
  import opened Wrappers

  /** The shortest time after which cancelling and cleaning up are given up. */
  const PATIENCE := 10_001 * NS_PER_MS

  // ---------------------------------------------------------------------------
  // Attended runs
  // ---------------------------------------------------------------------------

  /** One call of the loop reads the enabled flag and a clock that never goes back nor passes the deadline. */
  predicate Timely(m: Machine, rs: seq<Reading>, from: int, deadline: int): (timely: bool)
    requires WellFormed(m)
    ensures timely ==> Settles(m, rs)
    decreases |rs|
  {
    && rs != [] && rs[0].enabled && from <= rs[0].now <= deadline
    && (Stable(Pass(m, rs[0])) || Timely(Pass(m, rs[0]), rs[1..], rs[0].now, deadline))
  }

  /** The last clock reading of a call. */
  function EndOf(m: Machine, rs: seq<Reading>): int
    requires WellFormed(m) && Settles(m, rs)
    decreases |rs|
  {
    if Stable(Pass(m, rs[0])) then rs[0].now else EndOf(Pass(m, rs[0]), rs[1..])
  }

  /** An action without status or heartbeat, whose calls of the loop end at most `d` after the previous one. */
  predicate Attended(m: Machine, a: Action, last: int, d: nat): (attended: bool)
    requires WellFormed(m)
    ensures attended ==> Possible(m, a)
  {
    match a
    case Schedule(_) => Possible(m, a)
    case Unschedule(_) => true
    case Tick(rs) => Timely(m, rs, last, last + d)
    case ResultMessage(before, after) =>
      && Timely(m, before, last, last + d)
      && var s, end := OnResult(RunLoop(m, before)), EndOf(m, before);
         Timely(s, after, end, end + d)
    case _ => false
  }

  /** When the loop was last run, after an action. */
  function LastLook(m: Machine, a: Action, last: int): int
    requires WellFormed(m) && Possible(m, a)
  {
    match a
    case Tick(rs) => EndOf(m, rs)
    case ResultMessage(before, after) => EndOf(OnResult(RunLoop(m, before)), after)
    case _ => last
  }

  predicate AttendedRun(m: Machine, actions: seq<Action>, last: int, d: nat): (attended: bool)
    requires WellFormed(m)
    ensures attended ==> CanRun(m, actions)
    decreases |actions|
  {
    actions == []
    || (Attended(m, actions[0], last, d)
        && AttendedRun(Do(m, actions[0]), actions[1..], LastLook(m, actions[0], last), d))
  }

  function FinalLook(m: Machine, actions: seq<Action>, last: int): int
    requires WellFormed(m) && CanRun(m, actions)
    decreases |actions|
  {
    if actions == [] then last
    else FinalLook(Do(m, actions[0]), actions[1..], LastLook(m, actions[0], last))
  }

  // ---------------------------------------------------------------------------
  // The invariant
  // ---------------------------------------------------------------------------

  /** How late it can be when the machine, looked at at `last`, rests in a state. */
  predicate Resting(m: Machine, last: int, h: int, d: nat) {
    match m.state
    case RunningTest => m.lastHeartbeat == h && last <= h + HEARTBEAT_TIMEOUT
    case CancelTest => m.stateStarted <= h + HEARTBEAT_TIMEOUT + d && last < m.stateStarted + PATIENCE
    case CleanupTest =>
      m.stateStarted < h + HEARTBEAT_TIMEOUT + PATIENCE + 2 * d && last < m.stateStarted + PATIENCE
    case Idle => true
    case SetupTest => true
    case Disabled => false
  }

  /** How late a call may still end while the machine is between two states. */
  predicate Moving(m: Machine, deadline: int, h: int, d: nat) {
    match m.state
    case CancelTest => deadline <= h + HEARTBEAT_TIMEOUT + d
    case CleanupTest => deadline < h + HEARTBEAT_TIMEOUT + PATIENCE + 2 * d
    case Idle => true
    case SetupTest => true
    case _ => false
  }

  predicate OnTime(m: Machine, last: int, deadline: int, h: int, d: nat) {
    if Stable(m) then Resting(m, last, h, d) && deadline <= last + d else Moving(m, deadline, h, d)
  }

  lemma PassOnTime(m: Machine, r: Reading, last: int, deadline: int, h: int, d: nat)
    requires WellFormed(m) && OnTime(m, last, deadline, h, d)
    requires r.enabled && last <= r.now <= deadline
    ensures var p := Pass(m, r);
            if Stable(p) then Resting(p, r.now, h, d) else Moving(p, deadline, h, d)
  {
    var e := Entered(m, r.now);
    ExceedsMs(r.now - e.stateStarted, CANCELLATION_TIMEOUT_MS);
    ExceedsMs(r.now - e.stateStarted, CLEANUP_TIME_MS);
  }

  lemma {:induction false} CallOnTime(m: Machine, rs: seq<Reading>, last: int, deadline: int, h: int, d: nat)
    requires WellFormed(m) && Timely(m, rs, last, deadline)
    requires OnTime(m, last, deadline, h, d)
    ensures Resting(RunLoop(m, rs), EndOf(m, rs), h, d)
    decreases |rs|
  {
    PassOnTime(m, rs[0], last, deadline, h, d);
    var p := Pass(m, rs[0]);
    if !Stable(p) {
      CallOnTime(p, rs[1..], rs[0].now, deadline, h, d);
    }
  }

  lemma {:induction false} ActionOnTime(m: Machine, a: Action, last: int, h: int, d: nat)
    requires WellFormed(m) && Stable(m) && Attended(m, a, last, d) && Resting(m, last, h, d)
    ensures Stable(Do(m, a)) && Resting(Do(m, a), LastLook(m, a, last), h, d)
  {
    match a
    case Schedule(_) =>
    case Unschedule(_) =>
    case Tick(rs) => CallOnTime(m, rs, last, last + d, h, d);
    case ResultMessage(before, after) =>
      CallOnTime(m, before, last, last + d, h, d);
      var s, end := OnResult(RunLoop(m, before)), EndOf(m, before);
      CallOnTime(s, after, end, end + d, h, d);
  }

  // ---------------------------------------------------------------------------
  // What has been published
  // ---------------------------------------------------------------------------

  lemma {:induction false} LoopFinishesNothing(m: Machine, rs: seq<Reading>, id: Id)
    requires WellFormed(m) && Settles(m, rs) && StatusOf(id, Finished) !in m.events
    ensures StatusOf(id, Finished) !in RunLoop(m, rs).events
    decreases |rs|
  {
    if !Stable(Pass(m, rs[0])) {
      LoopFinishesNothing(Pass(m, rs[0]), rs[1..], id);
    }
  }

  lemma {:induction false} ActionFinishesNothing(m: Machine, a: Action, last: int, d: nat, id: Id)
    requires WellFormed(m) && Attended(m, a, last, d) && StatusOf(id, Finished) !in m.events
    ensures StatusOf(id, Finished) !in Do(m, a).events
  {
    match a
    case Schedule(_) =>
    case Unschedule(_) =>
    case Tick(rs) => LoopFinishesNothing(m, rs, id);
    case ResultMessage(before, after) =>
      LoopFinishesNothing(m, before, id);
      LoopFinishesNothing(OnResult(RunLoop(m, before)), after, id);
  }

  lemma {:induction false} StatusesArePublished(events: seq<Event>, id: Id, s: Status)
    ensures s in Statuses(events, id) <==> StatusOf(id, s) in events
  {
    if events != [] {
      var front := events[..|events| - 1];
      StatusesArePublished(front, id, s);
      assert events == front + [events[|events| - 1]];
    }
  }

  /** Once an instance runs, nothing but its end can be published for it. */
  lemma {:induction false} RunningThenEnded(a: seq<Event>, b: seq<Event>, id: Id)
    requires a <= b && (PhaseOf(a, id) == Active || PhaseOf(a, id) == Ended) && PhaseOf(b, id) != Broken
    ensures PhaseOf(b, id) == Active || PhaseOf(b, id) == Ended
  {
    if a != b {
      BrokenForGood(b, |b| - 1, id);
      RunningThenEnded(a, b[..|b| - 1], id);
    }
  }

  // ---------------------------------------------------------------------------
  // Runs
  // ---------------------------------------------------------------------------

  /** The instance has been started, and nobody has reported that it finished. */
  predicate Abandoned(m: Machine, id: Id) {
    && (PhaseOf(m.events, id) == Active || PhaseOf(m.events, id) == Ended)
    && StatusOf(id, Finished) !in m.events
  }

  lemma {:induction false} RunOnTime(m: Machine, actions: seq<Action>, last: int, h: int, d: nat, id: Id)
    requires Inv(m) && Stable(m) && AttendedRun(m, actions, last, d)
    requires Resting(m, last, h, d) && Abandoned(m, id)
    ensures var m' := Run(m, actions);
            Inv(m') && Resting(m', FinalLook(m, actions, last), h, d) && Abandoned(m', id)
    decreases |actions|
  {
    if actions != [] {
      var a := actions[0];
      var next := Do(m, a);
      InvDo(m, a);
      ActionOnTime(m, a, last, h, d);
      ActionFinishesNothing(m, a, last, d, id);
      ActionOnlyAppends(m, a);
      assert Accounted(next, id);
      RunningThenEnded(m.events, next.events, id);
      RunOnTime(next, actions[1..], LastLook(m, a, last), h, d, id);
    }
  }

  /** At rest in RunningTest, the loop has last been run at most one timeout after the heartbeat. */
  predicate Silent(m: Machine, id: Id, h: int, last: int) {
    m.state == RunningTest && Stable(m) && m.current == Some(id) && m.lastHeartbeat == h
    && last <= h + HEARTBEAT_TIMEOUT
  }

  lemma AbandonedWhenSilent(m: Machine, id: Id, h: int, last: int)
    requires Inv(m) && Silent(m, id, h, last)
    ensures Abandoned(m, id)
  {
    assert Accounted(m, id);
    StatusesLead(m.events, id);
    StatusesArePublished(m.events, id, Finished);
  }

  /**
   * A running test whose last heartbeat was at `h`, and which sends no further heartbeat or
   * status, has been reported as Canceled by h + 30.001 s + 2d, and its cleanup has been left
   * by h + 40.002 s + 3d, where `d` bounds the time between two calls of the loop and `t` is
   * any time not later than `d` after the last of them.
   */
  lemma {:induction false} BoundedRecovery(m: Machine, actions: seq<Action>, id: Id, h: int, last: int, d: nat, t: int)
    requires Inv(m) && Silent(m, id, h, last)
    requires AttendedRun(m, actions, last, d)
    requires FinalLook(m, actions, last) <= t <= FinalLook(m, actions, last) + d
    ensures var m' := Run(m, actions);
            && (t >= h + 30_001 * NS_PER_MS + 2 * d ==>
                  m'.state in {CleanupTest, Idle, SetupTest}
                  && Statuses(m'.events, id) == [Queued, Running, Canceled])
            && (t >= h + 40_002 * NS_PER_MS + 3 * d ==> m'.state == Idle || m'.state == SetupTest)
  {
    var m' := Run(m, actions);
    AbandonedWhenSilent(m, id, h, last);
    RunOnTime(m, actions, last, h, d, id);
    assert Accounted(m', id);
    StatusesLead(m'.events, id);
    StatusesArePublished(m'.events, id, Finished);
  }
}
