/**
 * What the orchestrator keeps in every interleaving of scheduling calls, clock ticks and
 * incoming messages: the queue's conservation and order, the grammar of the statuses and
 * results published for an instance, and the grammar of the entry actions.
 */
module OrchestratorSafety {
  import opened TestStateMachine
  import opened Wrappers

  // ---------------------------------------------------------------------------
  // Runs
  // ---------------------------------------------------------------------------

  /** The actions can happen one after the other from a machine. */
  predicate CanRun(m: Machine, actions: seq<Action>)
    requires WellFormed(m)
    decreases |actions|
  {
    actions == [] || (Possible(m, actions[0]) && CanRun(Do(m, actions[0]), actions[1..]))
  }

  function Run(m: Machine, actions: seq<Action>): (m': Machine)
    requires WellFormed(m) && CanRun(m, actions)
    ensures WellFormed(m')
    decreases |actions|
  {
    if actions == [] then m else Run(Do(m, actions[0]), actions[1..])
  }

  /** The instances that a sequence of actions schedules, in order. */
  function Schedules(actions: seq<Action>): seq<Id> {
    if actions == [] then []
    else (if actions[0].Schedule? then [actions[0].id] else []) + Schedules(actions[1..])
  }

  // ---------------------------------------------------------------------------
  // Histories
  // ---------------------------------------------------------------------------

  /** Where an instance is in its life, as told by what has been published about it. */
  datatype Phase = Unknown | Waiting | Withdrawn | Active | Ended | Broken

  function NextPhase(p: Phase, e: Event): Phase {
    match e
    case StatusOf(_, Queued) => if p == Unknown then Waiting else Broken
    case StatusOf(_, Running) => if p == Waiting then Active else Broken
    case StatusOf(_, Finished) => if p == Active then Ended else Broken
    case StatusOf(_, Canceled) => if p == Waiting then Withdrawn else if p == Active then Ended else Broken
    case ResultOf(_) => if p == Active then Active else Broken
  }

  function PhaseOf(events: seq<Event>, id: Id): Phase {
    if events == [] then Unknown
    else
      var e := events[|events| - 1];
      var p := PhaseOf(events[..|events| - 1], id);
      if e.id == id then NextPhase(p, e) else p
  }

  /** What has been published about an instance, in order. */
  function History(events: seq<Event>, id: Id): seq<Event> {
    if events == [] then []
    else
      var e := events[|events| - 1];
      History(events[..|events| - 1], id) + if e.id == id then [e] else []
  }

  lemma HistoryOfOneMore(events: seq<Event>, e: Event, id: Id)
    ensures History(events + [e], id) == History(events, id) + if e.id == id then [e] else []
  {
    assert (events + [e])[..|events|] == events;
  }

  /** The instances reported as queued, in order. */
  function Scheduled(events: seq<Event>): seq<Id> {
    if events == [] then []
    else
      var e := events[|events| - 1];
      Scheduled(events[..|events| - 1]) + if e.StatusOf? && e.status == Queued then [e.id] else []
  }

  /** The statuses published for an instance, in order. */
  function Statuses(events: seq<Event>, id: Id): seq<Status> {
    if events == [] then []
    else
      var e := events[|events| - 1];
      Statuses(events[..|events| - 1], id) + if e.StatusOf? && e.id == id then [e.status] else []
  }

  /** The instances that have not been withdrawn. */
  function Remaining(ids: seq<Id>, events: seq<Event>): seq<Id> {
    if ids == [] then []
    else if PhaseOf(events, ids[0]) == Withdrawn then Remaining(ids[1..], events)
    else [ids[0]] + Remaining(ids[1..], events)
  }

  /** The instances that have been set up, in order. */
  function SetUps(signals: seq<Signal>): seq<Id> {
    if signals == [] then []
    else
      var s := signals[|signals| - 1];
      SetUps(signals[..|signals| - 1]) + if s.SetUp? then [s.id] else []
  }

  /** How far the entry actions of an instance have come. */
  datatype Visit = Resting | Selected(id: Id) | Capturing(id: Id) | Cancelling(id: Id) | Cleaned(id: Id) | Disordered

  function NextVisit(v: Visit, s: Signal): Visit {
    match s
    case SetUp(id) => if v == Resting then Selected(id) else Disordered
    case CaptureStarted(id) => if v == Selected(id) then Capturing(id) else Disordered
    case Cancelled(id) => if v == Capturing(id) then Cancelling(id) else Disordered
    case CleanedUp(id) => if v == Capturing(id) || v == Cancelling(id) then Cleaned(id) else Disordered
    case CaptureStopped(id) => if v == Cleaned(id) then Resting else Disordered
  }

  function VisitOf(signals: seq<Signal>): Visit {
    if signals == [] then Resting else NextVisit(VisitOf(signals[..|signals| - 1]), signals[|signals| - 1])
  }

  /** The capture requests among the entry actions: true for a start, false for a stop. */
  function Captures(signals: seq<Signal>): seq<bool> {
    if signals == [] then []
    else
      var s := signals[|signals| - 1];
      Captures(signals[..|signals| - 1])
      + if s.CaptureStarted? then [true] else if s.CaptureStopped? then [false] else []
  }

  lemma Published(events: seq<Event>, e: Event, id: Id)
    ensures PhaseOf(events + [e], id) == if e.id == id then NextPhase(PhaseOf(events, id), e) else PhaseOf(events, id)
  {
    assert (events + [e])[..|events|] == events;
  }

  lemma ScheduledOfPublished(events: seq<Event>, e: Event)
    ensures Scheduled(events + [e]) == Scheduled(events) + if e.StatusOf? && e.status == Queued then [e.id] else []
  {
    assert (events + [e])[..|events|] == events;
  }

  lemma Signalled(signals: seq<Signal>, s: Signal)
    ensures VisitOf(signals + [s]) == NextVisit(VisitOf(signals), s)
    ensures SetUps(signals + [s]) == SetUps(signals) + if s.SetUp? then [s.id] else []
  {
    assert (signals + [s])[..|signals|] == signals;
  }

  lemma SignalledTwo(signals: seq<Signal>, s: Signal, t: Signal)
    ensures VisitOf(signals + [s, t]) == NextVisit(NextVisit(VisitOf(signals), s), t)
    ensures SetUps(signals + [s, t])
         == SetUps(signals) + (if s.SetUp? then [s.id] else []) + (if t.SetUp? then [t.id] else [])
  {
    Signalled(signals, s);
    Signalled(signals + [s], t);
    assert signals + [s] + [t] == signals + [s, t];
  }

  // ---------------------------------------------------------------------------
  // Lists of instances
  // ---------------------------------------------------------------------------

  predicate Unique(ids: seq<Id>) {
    forall i, j | 0 <= i < j < |ids| :: ids[i] != ids[j]
  }

  lemma {:induction false} RemainingOfAppend(ids: seq<Id>, id: Id, events: seq<Event>)
    ensures Remaining(ids + [id], events)
         == Remaining(ids, events) + if PhaseOf(events, id) == Withdrawn then [] else [id]
  {
    if ids != [] {
      RemainingOfAppend(ids[1..], id, events);
      assert (ids + [id])[1..] == ids[1..] + [id];
    } else {
      assert [id][1..] == [];
    }
  }

  /** What is published about an instance matters only for whether it is withdrawn. */
  lemma {:induction false} RemainingDependsOnWithdrawal(ids: seq<Id>, a: seq<Event>, b: seq<Event>)
    requires forall id | id in ids :: PhaseOf(a, id) == Withdrawn <==> PhaseOf(b, id) == Withdrawn
    ensures Remaining(ids, a) == Remaining(ids, b)
  {
    if ids != [] {
      RemainingDependsOnWithdrawal(ids[1..], a, b);
    }
  }

  lemma {:induction false} RemainingAreMembers(ids: seq<Id>, events: seq<Event>, id: Id)
    ensures id in Remaining(ids, events) <==> id in ids && PhaseOf(events, id) != Withdrawn
  {
    if ids != [] {
      RemainingAreMembers(ids[1..], events, id);
    }
  }

  /** Withdrawing one instance removes exactly that instance. */
  lemma {:induction false} RemainingOfWithdrawal(ids: seq<Id>, a: seq<Event>, b: seq<Event>, x: Id)
    requires Unique(ids) && PhaseOf(a, x) != Withdrawn && PhaseOf(b, x) == Withdrawn
    requires forall id | id in ids && id != x :: PhaseOf(a, id) == Withdrawn <==> PhaseOf(b, id) == Withdrawn
    ensures Remaining(ids, b) == Without(Remaining(ids, a), x)
  {
    if ids != [] {
      var rest := Remaining(ids[1..], a);
      if ids[0] == x {
        RemainingDependsOnWithdrawal(ids[1..], a, b);
        assert ([x] + rest)[1..] == rest;
      } else {
        RemainingOfWithdrawal(ids[1..], a, b, x);
        assert ([ids[0]] + rest)[1..] == rest;
      }
    }
  }

  lemma {:induction false} RemainingIsUnique(ids: seq<Id>, events: seq<Event>)
    requires Unique(ids)
    ensures Unique(Remaining(ids, events))
  {
    if ids != [] {
      RemainingIsUnique(ids[1..], events);
      RemainingAreMembers(ids[1..], events, ids[0]);
    }
  }

  lemma {:induction false} WithoutOfAppend(a: seq<Id>, b: seq<Id>, x: Id)
    requires x !in a
    ensures Without(a + b, x) == a + Without(b, x)
  {
    if a == [] {
      assert a + b == b;
    } else {
      WithoutOfAppend(a[1..], b, x);
      assert (a + b)[1..] == a[1..] + b;
    }
  }

  lemma {:induction false} WithoutRemoves(q: seq<Id>, x: Id, y: Id)
    requires Unique(q)
    ensures Unique(Without(q, x))
    ensures y in Without(q, x) <==> y in q && y != x
  {
    if q != [] && q[0] != x {
      WithoutRemoves(q[1..], x, y);
      WithoutRemoves(q[1..], x, q[0]);
    }
  }

  lemma UniqueParts(a: seq<Id>, b: seq<Id>, x: Id)
    requires Unique(a + b) && x in b
    ensures x !in a
  {
    var i :| 0 <= i < |b| && b[i] == x;
    forall j | 0 <= j < |a| ensures a[j] != x {
      assert (a + b)[j] == a[j] && (a + b)[|a| + i] == x;
    }
  }

  lemma {:induction false} ScheduledAreKnown(events: seq<Event>, id: Id)
    requires PhaseOf(events, id) != Broken
    ensures id in Scheduled(events) <==> PhaseOf(events, id) != Unknown
  {
    if events != [] {
      ScheduledAreKnown(events[..|events| - 1], id);
    }
  }

  // ---------------------------------------------------------------------------
  // The invariant
  // ---------------------------------------------------------------------------

  /** The instance still waits to be run: in the queue, or selected and being set up. */
  predicate Waits(m: Machine, id: Id) {
    id in m.queue || (m.state == SetupTest && m.current == Some(id))
  }

  predicate Runs(m: Machine, id: Id) {
    (m.state == RunningTest || m.state == CancelTest) && m.current == Some(id)
  }

  /** What has been published about one instance agrees with where the machine holds it. */
  predicate Accounted(m: Machine, id: Id) {
    && PhaseOf(m.events, id) != Broken
    && (PhaseOf(m.events, id) == Waiting <==> Waits(m, id))
    && (PhaseOf(m.events, id) == Active <==> Runs(m, id))
    && (m.state == CleanupTest && m.current == Some(id) ==> PhaseOf(m.events, id) == Ended)
  }

  /** Instances taken from the queue, including one whose setup has not been signalled yet. */
  function Taken(m: Machine): seq<Id>
    requires WellFormed(m)
  {
    SetUps(m.signals) + if m.state == SetupTest && !Stable(m) then [m.current.value] else []
  }

  predicate Ordered(m: Machine)
    requires WellFormed(m)
  {
    && Unique(Scheduled(m.events))
    && Taken(m) + m.queue == Remaining(Scheduled(m.events), m.events)
  }

  /** The entry actions carried out so far agree with the state and with whether it has been entered. */
  predicate Visited(m: Machine)
    requires WellFormed(m)
  {
    match m.state
    case Disabled => VisitOf(m.signals) == Resting
    case Idle => VisitOf(m.signals) == Resting
    case SetupTest => VisitOf(m.signals) == if Stable(m) then Capturing(m.current.value) else Resting
    case RunningTest => VisitOf(m.signals) == Capturing(m.current.value)
    case CancelTest =>
      VisitOf(m.signals) == if Stable(m) then Cancelling(m.current.value) else Capturing(m.current.value)
    case CleanupTest =>
      if Stable(m) then VisitOf(m.signals) == Resting
      else VisitOf(m.signals) == Capturing(m.current.value) || VisitOf(m.signals) == Cancelling(m.current.value)
  }

  ghost predicate Inv(m: Machine) {
    && WellFormed(m)
    && Visited(m)
    && (forall id :: Accounted(m, id))
    && Unique(m.queue)
    && (m.state == SetupTest ==> m.current.value !in m.queue)
    && Ordered(m)
  }

  lemma VisitedAfterEntry(m: Machine, now: int)
    requires WellFormed(m) && Visited(m)
    ensures Visited(Entered(m, now)) && Taken(Entered(m, now)) == Taken(m)
  {
    if !Stable(m) && HasInstance(m.state) {
      var id := m.current.value;
      SignalledTwo(m.signals, SetUp(id), CaptureStarted(id));
      Signalled(m.signals, Cancelled(id));
      SignalledTwo(m.signals, CleanedUp(id), CaptureStopped(id));
    }
  }

  lemma InvEntered(m: Machine, now: int)
    requires Inv(m)
    ensures Inv(Entered(m, now)) && Stable(Entered(m, now))
  {
    var e := Entered(m, now);
    VisitedAfterEntry(m, now);
    forall id ensures Accounted(e, id) {
      assert Accounted(m, id);
    }
  }

  /** Publishing about the instance on test keeps the order of the queue. */
  lemma OrderedAfterReport(m: Machine, e: Event, m': Machine)
    requires Inv(m) && WellFormed(m') && Taken(m') == Taken(m) && m'.queue == m.queue
    requires m'.events == m.events + [e] && !(e.StatusOf? && e.status == Queued)
    requires PhaseOf(m.events, e.id) != Withdrawn && PhaseOf(m'.events, e.id) != Withdrawn
    ensures Ordered(m')
  {
    ScheduledOfPublished(m.events, e);
    assert Scheduled(m'.events) == Scheduled(m.events);
    forall id | id in Scheduled(m.events)
      ensures PhaseOf(m.events, id) == Withdrawn <==> PhaseOf(m'.events, id) == Withdrawn
    {
      Published(m.events, e, id);
    }
    RemainingDependsOnWithdrawal(Scheduled(m.events), m.events, m'.events);
  }

  /** A step that publishes a status or result of the instance on test, and perhaps ends the test. */
  lemma InvReport(m: Machine, e: Event, next: TestingState)
    requires Inv(m) && Stable(m)
    requires m.current == Some(e.id)
    requires e == StatusOf(e.id, Running) ==> m.state == SetupTest && next == RunningTest
    requires e == ResultOf(e.id) ==> Runs(m, e.id) && next == m.state
    requires e == StatusOf(e.id, Finished) || e == StatusOf(e.id, Canceled) ==> Runs(m, e.id) && next == CleanupTest
    requires e != StatusOf(e.id, Queued)
    ensures Inv(m.(events := m.events + [e], state := next))
  {
    var m' := m.(events := m.events + [e], state := next);
    forall id ensures Accounted(m', id) {
      assert Accounted(m, id);
      Published(m.events, e, id);
    }
    assert Accounted(m, e.id) && Accounted(m', e.id);
    OrderedAfterReport(m, e, m');
  }

  lemma InvMoved(m: Machine, r: Reading)
    requires Inv(m) && Stable(m)
    ensures Inv(Moved(m, r))
  {
    var m' := Moved(m, r);
    if m.state == CancelTest && m' != m {
      InvReport(m, StatusOf(m.current.value, Canceled), CleanupTest);
    } else {
      forall id ensures Accounted(m', id) {
        assert Accounted(m, id);
      }
      if m.state == Idle && r.enabled && m.queue != [] {
        assert Taken(m') + m'.queue == Taken(m) + m.queue;
      }
    }
  }

  lemma InvPass(m: Machine, r: Reading)
    requires Inv(m)
    ensures Inv(Pass(m, r))
  {
    InvEntered(m, r.now);
    InvMoved(Entered(m, r.now), r);
  }

  lemma {:induction false} InvRunLoop(m: Machine, rs: seq<Reading>)
    requires Inv(m) && Settles(m, rs)
    ensures Inv(RunLoop(m, rs))
    decreases |rs|
  {
    InvPass(m, rs[0]);
    if !Stable(Pass(m, rs[0])) {
      InvRunLoop(Pass(m, rs[0]), rs[1..]);
    }
  }

  lemma InvOnStatus(m: Machine, status: Status)
    requires Inv(m) && Stable(m)
    ensures Inv(OnStatus(m, status))
  {
    if m.state == SetupTest && status == Running {
      InvReport(m, StatusOf(m.current.value, status), RunningTest);
    } else if OnStatus(m, status) != m {
      InvReport(m, StatusOf(m.current.value, status), CleanupTest);
    }
  }

  lemma InvOnResult(m: Machine)
    requires Inv(m) && Stable(m)
    ensures Inv(OnResult(m))
  {
    if OnResult(m) != m {
      InvReport(m, ResultOf(m.current.value), m.state);
    }
  }

  lemma {:induction false} NothingPublishedYet(events: seq<Event>, id: Id)
    requires forall e | e in events :: e.id != id
    ensures PhaseOf(events, id) == Unknown
  {
    if events != [] {
      NothingPublishedYet(events[..|events| - 1], id);
    }
  }

  lemma OrderedAfterSchedule(m: Machine, id: Id)
    requires Inv(m) && Stable(m) && Possible(m, Schedule(id))
    ensures Ordered(Do(m, Schedule(id)))
  {
    var e := StatusOf(id, Queued);
    var m' := Do(m, Schedule(id));
    NothingPublishedYet(m.events, id);
    ScheduledOfPublished(m.events, e);
    ScheduledAreKnown(m.events, id);
    Published(m.events, e, id);
    forall x | x in Scheduled(m.events)
      ensures PhaseOf(m.events, x) == Withdrawn <==> PhaseOf(m'.events, x) == Withdrawn
    {
      Published(m.events, e, x);
    }
    RemainingDependsOnWithdrawal(Scheduled(m.events), m.events, m'.events);
    RemainingOfAppend(Scheduled(m.events), id, m'.events);
    assert Taken(m') + m'.queue == Taken(m) + m.queue + [id];
  }

  lemma InvSchedule(m: Machine, id: Id)
    requires Inv(m) && Stable(m) && Possible(m, Schedule(id))
    ensures Inv(Do(m, Schedule(id)))
  {
    var m' := Do(m, Schedule(id));
    NothingPublishedYet(m.events, id);
    assert Accounted(m, id);
    forall x ensures Accounted(m', x) {
      assert Accounted(m, x);
      Published(m.events, StatusOf(id, Queued), x);
    }
    OrderedAfterSchedule(m, id);
  }

  lemma InvUnschedule(m: Machine, id: Id)
    requires Inv(m) && Stable(m)
    ensures Inv(Do(m, Unschedule(id)))
  {
    if id in m.queue {
      var e := StatusOf(id, Canceled);
      var m' := Do(m, Unschedule(id));
      forall x ensures Accounted(m', x) {
        assert Accounted(m, x);
        Published(m.events, e, x);
        WithoutRemoves(m.queue, id, x);
      }
      WithoutRemoves(m.queue, id, id);
      if m.state == SetupTest {
        WithoutRemoves(m.queue, id, m.current.value);
      }
      OrderedAfterWithdrawal(m, id);
    }
  }

  lemma OrderedAfterWithdrawal(m: Machine, id: Id)
    requires Inv(m) && Stable(m) && id in m.queue
    ensures Ordered(Do(m, Unschedule(id)))
  {
    var e := StatusOf(id, Canceled);
    var ids := Scheduled(m.events);
    assert Accounted(m, id);
    ScheduledOfPublished(m.events, e);
    assert Scheduled(m.events + [e]) == ids;
    forall x ensures PhaseOf(m.events + [e], x)
                  == if x == id then Withdrawn else PhaseOf(m.events, x)
    {
      Published(m.events, e, x);
    }
    RemainingOfWithdrawal(ids, m.events, m.events + [e], id);
    RemainingIsUnique(ids, m.events);
    UniqueParts(Taken(m), m.queue, id);
    WithoutOfAppend(Taken(m), m.queue, id);
  }

  lemma {:induction false} InvDo(m: Machine, a: Action)
    requires Inv(m) && Stable(m) && Possible(m, a)
    ensures Inv(Do(m, a)) && Stable(Do(m, a))
  {
    match a
    case Schedule(id) => InvSchedule(m, id);
    case Unschedule(id) => InvUnschedule(m, id);
    case Heartbeat(now) =>
      forall id ensures Accounted(Do(m, a), id) {
        assert Accounted(m, id);
      }
    case Tick(rs) => InvRunLoop(m, rs);
    case StatusMessage(status, before, after) =>
      InvRunLoop(m, before);
      InvOnStatus(RunLoop(m, before), status);
      InvRunLoop(OnStatus(RunLoop(m, before), status), after);
    case ResultMessage(before, after) =>
      InvRunLoop(m, before);
      InvOnResult(RunLoop(m, before));
      InvRunLoop(OnResult(RunLoop(m, before)), after);
  }

  lemma {:induction false} InvRun(m: Machine, actions: seq<Action>)
    requires Inv(m) && Stable(m) && CanRun(m, actions)
    ensures Inv(Run(m, actions)) && Stable(Run(m, actions))
    decreases |actions|
  {
    if actions != [] {
      InvDo(m, actions[0]);
      InvRun(Do(m, actions[0]), actions[1..]);
    }
  }

  lemma {:induction false} InvOfRun(actions: seq<Action>)
    requires CanRun(INITIAL, actions)
    ensures Inv(Run(INITIAL, actions)) && Stable(Run(INITIAL, actions))
  {
    forall id ensures Accounted(INITIAL, id) {
    }
    InvRun(INITIAL, actions);
  }

  lemma {:induction false} LoopOnlyAppends(m: Machine, rs: seq<Reading>)
    requires WellFormed(m) && Settles(m, rs)
    ensures m.events <= RunLoop(m, rs).events
    decreases |rs|
  {
    if !Stable(Pass(m, rs[0])) {
      LoopOnlyAppends(Pass(m, rs[0]), rs[1..]);
    }
  }

  lemma {:induction false} ActionOnlyAppends(m: Machine, a: Action)
    requires WellFormed(m) && Possible(m, a)
    ensures m.events <= Do(m, a).events
  {
    match a
    case Schedule(_) =>
    case Unschedule(_) =>
    case Heartbeat(_) =>
    case Tick(rs) => LoopOnlyAppends(m, rs);
    case StatusMessage(status, before, after) =>
      LoopOnlyAppends(m, before);
      LoopOnlyAppends(OnStatus(RunLoop(m, before), status), after);
    case ResultMessage(before, after) =>
      LoopOnlyAppends(m, before);
      LoopOnlyAppends(OnResult(RunLoop(m, before)), after);
  }

  // ---------------------------------------------------------------------------
  // Conservation and order of the queue
  // ---------------------------------------------------------------------------

  lemma {:induction false} ReportsKeepSchedule(m: Machine, rs: seq<Reading>)
    requires WellFormed(m) && Settles(m, rs)
    ensures Scheduled(RunLoop(m, rs).events) == Scheduled(m.events)
    decreases |rs|
  {
    var p := Pass(m, rs[0]);
    if p.events != m.events {
      ScheduledOfPublished(m.events, StatusOf(m.current.value, Canceled));
    }
    if !Stable(p) {
      ReportsKeepSchedule(p, rs[1..]);
    }
  }

  lemma {:induction false} ScheduledByAction(m: Machine, a: Action)
    requires WellFormed(m) && Possible(m, a)
    ensures Scheduled(Do(m, a).events) == Scheduled(m.events) + if a.Schedule? then [a.id] else []
  {
    match a
    case Schedule(id) => ScheduledOfPublished(m.events, StatusOf(id, Queued));
    case Unschedule(id) => ScheduledOfPublished(m.events, StatusOf(id, Canceled));
    case Heartbeat(_) =>
    case Tick(rs) => ReportsKeepSchedule(m, rs);
    case StatusMessage(status, before, after) =>
      var s := RunLoop(m, before);
      ReportsKeepSchedule(m, before);
      if OnStatus(s, status) != s {
        ScheduledOfPublished(s.events, StatusOf(s.current.value, status));
      }
      ReportsKeepSchedule(OnStatus(s, status), after);
    case ResultMessage(before, after) =>
      var s := RunLoop(m, before);
      ReportsKeepSchedule(m, before);
      if OnResult(s) != s {
        ScheduledOfPublished(s.events, ResultOf(s.current.value));
      }
      ReportsKeepSchedule(OnResult(s), after);
  }

  lemma {:induction false} Accumulated(before: seq<Id>, after: seq<Id>, end: seq<Id>, actions: seq<Action>)
    requires actions != [] && after == before + if actions[0].Schedule? then [actions[0].id] else []
    requires end == after + Schedules(actions[1..])
    ensures end == before + Schedules(actions)
  {
    Associates(before, if actions[0].Schedule? then [actions[0].id] else [], Schedules(actions[1..]));
  }

  lemma {:induction false} ScheduledByRun(m: Machine, actions: seq<Action>)
    requires WellFormed(m) && CanRun(m, actions)
    ensures Scheduled(Run(m, actions).events) == Scheduled(m.events) + Schedules(actions)
    decreases |actions|
  {
    if actions != [] {
      var next := Do(m, actions[0]);
      ScheduledByAction(m, actions[0]);
      ScheduledByRun(next, actions[1..]);
      Accumulated(Scheduled(m.events), Scheduled(next.events), Scheduled(Run(m, actions).events), actions);
    }
  }

  lemma {:induction false} ScheduledOfRun(actions: seq<Action>)
    requires CanRun(INITIAL, actions)
    ensures Scheduled(Run(INITIAL, actions).events) == Schedules(actions)
  {
    ScheduledByRun(INITIAL, actions);
    assert Scheduled(INITIAL.events) == [];
  }

  lemma OrderAtRest(m: Machine)
    requires Inv(m) && Stable(m)
    ensures SetUps(m.signals) + m.queue == Remaining(Scheduled(m.events), m.events)
    ensures Unique(SetUps(m.signals) + m.queue)
  {
    assert Taken(m) == SetUps(m.signals);
    RemainingIsUnique(Scheduled(m.events), m.events);
  }

  /**
   * In every run, the instances set up so far followed by the queue are the scheduled
   * instances in order, without the withdrawn ones; none of them occurs twice.
   */
  lemma {:induction false} QueueConserved(actions: seq<Action>)
    requires CanRun(INITIAL, actions)
    ensures var m := Run(INITIAL, actions);
            && SetUps(m.signals) + m.queue == Remaining(Schedules(actions), m.events)
            && Unique(SetUps(m.signals) + m.queue)
  {
    InvOfRun(actions);
    ScheduledOfRun(actions);
    OrderAtRest(Run(INITIAL, actions));
  }

  predicate IsWithdrawn(m: Machine, id: Id) {
    PhaseOf(m.events, id) == Withdrawn
  }

  lemma {:induction false} LoopWithdrawsNothing(m: Machine, rs: seq<Reading>, id: Id)
    requires Inv(m) && Settles(m, rs)
    ensures IsWithdrawn(RunLoop(m, rs), id) <==> IsWithdrawn(m, id)
    decreases |rs|
  {
    var p := Pass(m, rs[0]);
    InvPass(m, rs[0]);
    if p.events != m.events {
      Published(m.events, StatusOf(m.current.value, Canceled), id);
      assert Accounted(m, id);
    }
    if !Stable(p) {
      LoopWithdrawsNothing(p, rs[1..], id);
    }
  }

  lemma MessagesWithdrawNothing(s: Machine, status: Status, id: Id)
    requires Inv(s) && Stable(s)
    ensures IsWithdrawn(OnStatus(s, status), id) <==> IsWithdrawn(s, id)
    ensures IsWithdrawn(OnResult(s), id) <==> IsWithdrawn(s, id)
  {
    assert Accounted(s, id);
    if HasInstance(s.state) {
      Published(s.events, StatusOf(s.current.value, status), id);
      Published(s.events, ResultOf(s.current.value), id);
    }
  }

  /** An instance becomes withdrawn exactly when it is unscheduled while it is in the queue. */
  lemma {:induction false} WithdrawnByUnscheduling(m: Machine, a: Action, id: Id)
    requires Inv(m) && Stable(m) && Possible(m, a)
    ensures IsWithdrawn(Do(m, a), id) <==> IsWithdrawn(m, id) || (a == Unschedule(id) && id in m.queue)
  {
    match a
    case Schedule(x) => Published(m.events, StatusOf(x, Queued), id); NothingPublishedYet(m.events, x);
    case Unschedule(x) => Published(m.events, StatusOf(x, Canceled), id); assert Accounted(m, id);
    case Heartbeat(_) =>
    case Tick(rs) => LoopWithdrawsNothing(m, rs, id);
    case StatusMessage(status, before, after) =>
      LoopWithdrawsNothing(m, before, id);
      InvRunLoop(m, before);
      MessagesWithdrawNothing(RunLoop(m, before), status, id);
      InvOnStatus(RunLoop(m, before), status);
      LoopWithdrawsNothing(OnStatus(RunLoop(m, before), status), after, id);
    case ResultMessage(before, after) =>
      LoopWithdrawsNothing(m, before, id);
      InvRunLoop(m, before);
      MessagesWithdrawNothing(RunLoop(m, before), Queued, id);
      InvOnResult(RunLoop(m, before));
      LoopWithdrawsNothing(OnResult(RunLoop(m, before)), after, id);
  }

  predicate Terminated(m: Machine, id: Id) {
    PhaseOf(m.events, id) == Withdrawn || PhaseOf(m.events, id) == Ended
  }

  /** The instance has been selected, and its terminal status has not been published yet. */
  predicate OnTest(m: Machine, id: Id) {
    (m.state == SetupTest || m.state == RunningTest || m.state == CancelTest) && m.current == Some(id)
  }

  /** In how many places an instance is. */
  function Places(m: Machine, id: Id): nat {
    (if id in m.queue then 1 else 0) + (if OnTest(m, id) then 1 else 0) + (if Terminated(m, id) then 1 else 0)
  }

  lemma PlacesAtRest(m: Machine, id: Id)
    requires Inv(m)
    ensures Places(m, id) == if id in Scheduled(m.events) then 1 else 0
  {
    assert Accounted(m, id);
    ScheduledAreKnown(m.events, id);
  }

  /** Every scheduled instance is queued, on test or terminated, and only one of these; no other instance is in any. */
  lemma {:induction false} ExactlyOnePlace(actions: seq<Action>, id: Id)
    requires CanRun(INITIAL, actions)
    ensures Places(Run(INITIAL, actions), id) == if id in Schedules(actions) then 1 else 0
  {
    InvOfRun(actions);
    ScheduledOfRun(actions);
    PlacesAtRest(Run(INITIAL, actions), id);
  }

  // ---------------------------------------------------------------------------
  // Grammar of statuses, results and entry actions
  // ---------------------------------------------------------------------------

  /** The statuses that lead to a phase. */
  predicate Leads(statuses: seq<Status>, p: Phase) {
    match p
    case Unknown => statuses == []
    case Waiting => statuses == [Queued]
    case Withdrawn => statuses == [Queued, Canceled]
    case Active => statuses == [Queued, Running]
    case Ended => statuses == [Queued, Running, Finished] || statuses == [Queued, Running, Canceled]
    case Broken => true
  }

  lemma {:induction false} StatusesLead(events: seq<Event>, id: Id)
    ensures Leads(Statuses(events, id), PhaseOf(events, id))
  {
    if events != [] {
      StatusesLead(events[..|events| - 1], id);
    }
  }

  lemma {:induction false} BrokenForGood(events: seq<Event>, k: nat, id: Id)
    requires k <= |events| && PhaseOf(events, id) != Broken
    ensures PhaseOf(events[..k], id) != Broken
  {
    if k == |events| {
      assert events[..k] == events;
    } else {
      var front := events[..|events| - 1];
      BrokenForGood(front, k, id);
      assert front[..k] == events[..k];
    }
  }

  /**
   * In every run, what has been published about an instance is a prefix of Queued, Running
   * and one of Finished or Canceled, or of Queued, Canceled; and a result is published for
   * it only after its Running and before its terminal status.
   */
  lemma {:induction false} StatusGrammar(actions: seq<Action>, id: Id, k: nat)
    requires CanRun(INITIAL, actions)
    ensures var events := Run(INITIAL, actions).events;
            && Leads(Statuses(events, id), PhaseOf(events, id)) && PhaseOf(events, id) != Broken
            && (k < |events| && events[k] == ResultOf(id) ==> Statuses(events[..k], id) == [Queued, Running])
  {
    var events := Run(INITIAL, actions).events;
    InvOfRun(actions);
    assert Accounted(Run(INITIAL, actions), id);
    StatusesLead(events, id);
    if k < |events| && events[k] == ResultOf(id) {
      BrokenForGood(events, k + 1, id);
      assert events[..k + 1][..k] == events[..k];
      StatusesLead(events[..k], id);
    }
  }

  lemma {:induction false} CapturesFollowVisits(signals: seq<Signal>)
    requires VisitOf(signals) != Disordered
    ensures forall i | 0 <= i < |Captures(signals)| :: Captures(signals)[i] == (i % 2 == 0)
    ensures |Captures(signals)| % 2 == match VisitOf(signals) { case Resting => 0 case Selected(_) => 0 case _ => 1 }
  {
    if signals != [] {
      CapturesFollowVisits(signals[..|signals| - 1]);
    }
  }

  /**
   * In every run, the entry actions follow the pattern setup, capture start, optional cancel,
   * cleanup, capture stop, for one instance at a time; so capture starts and stops alternate,
   * and a capture is running exactly while an instance is on test.
   */
  lemma {:induction false} EntryActionsInOrder(actions: seq<Action>)
    requires CanRun(INITIAL, actions)
    ensures var m := Run(INITIAL, actions);
            var captures := Captures(m.signals);
            && VisitOf(m.signals) != Disordered
            && (forall i | 0 <= i < |captures| :: captures[i] == (i % 2 == 0))
            && (|captures| % 2 == 1 <==> m.current.Some? && OnTest(m, m.current.value))
  {
    InvOfRun(actions);
    CapturesFollowVisits(Run(INITIAL, actions).signals);
  }
}
