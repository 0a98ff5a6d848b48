/**
 * Scheduling and unscheduling change the queue under the lock, and publish after they have
 * released it. Here the two are separate steps with anything in between. The control state is
 * that of a run in which each of them is one step; what is published about an instance is the
 * same up to where Queued stands.
 */
module Publications {
  import opened OrchestratorSafety
  import opened TestStateMachine
  import opened Wrappers

  /** The machine and the publications that callers still owe. */
  datatype Station = Station(m: Machine, owed: seq<Event>)

  datatype Step =
    | Act(a: Action)
    | Enqueue(id: Id)
    | Withdraw(id: Id)
    | Publish(k: nat)

  const START := Station(INITIAL, [])

  /** Loop calls and messages hold the lock throughout; identifiers are fresh. */
  predicate MayStep(s: Station, step: Step)
    requires WellFormed(s.m)
  {
    match step
    case Act(a) => !a.Schedule? && !a.Unschedule? && Possible(s.m, a)
    case Enqueue(id) => forall e | e in s.m.events + s.owed :: e.id != id
    case Withdraw(_) => true
    case Publish(k) => k < |s.owed|
  }

  function Next(s: Station, step: Step): (s': Station)
    requires WellFormed(s.m) && MayStep(s, step)
    ensures WellFormed(s'.m)
  {
    match step
    case Act(a) => s.(m := Do(s.m, a))
    case Enqueue(id) => Station(Enqueued(s.m, id), s.owed + [StatusOf(id, Queued)])
    case Withdraw(id) =>
      if id in s.m.queue then Station(Removed(s.m, id), s.owed + [StatusOf(id, Canceled)]) else s
    case Publish(k) => Station(Announced(s.m, s.owed[k]), s.owed[..k] + s.owed[k + 1..])
  }

  predicate CanTake(s: Station, steps: seq<Step>)
    requires WellFormed(s.m)
    decreases |steps|
  {
    steps == [] || (MayStep(s, steps[0]) && CanTake(Next(s, steps[0]), steps[1..]))
  }

  function Take(s: Station, steps: seq<Step>): (s': Station)
    requires WellFormed(s.m) && CanTake(s, steps)
    ensures WellFormed(s'.m)
    decreases |steps|
  {
    if steps == [] then s else Take(Next(s, steps[0]), steps[1..])
  }

  /** The same with each scheduling call as one step, taken where it changes the queue. */
  function AtOnce(steps: seq<Step>): seq<Action> {
    if steps == [] then []
    else (match steps[0]
          case Act(a) => [a]
          case Enqueue(id) => [Schedule(id)]
          case Withdraw(id) => [Unschedule(id)]
          case Publish(_) => []) + AtOnce(steps[1..])
  }

  // ---------------------------------------------------------------------------
  // Histories
  // ---------------------------------------------------------------------------

  predicate IsQueued(e: Event) {
    e.StatusOf? && e.status == Queued
  }

  /** What is published besides Queued. */
  function Others(h: seq<Event>): seq<Event> {
    if h == [] then []
    else Others(h[..|h| - 1]) + if IsQueued(h[|h| - 1]) then [] else [h[|h| - 1]]
  }

  /** How often Queued is published. */
  function QueuedCount(h: seq<Event>): nat {
    if h == [] then 0
    else QueuedCount(h[..|h| - 1]) + if IsQueued(h[|h| - 1]) then 1 else 0
  }

  lemma {:induction false} Appended(a: seq<Event>, b: seq<Event>, id: Id)
    ensures History(a + b, id) == History(a, id) + History(b, id)
    ensures Others(a + b) == Others(a) + Others(b)
    ensures QueuedCount(a + b) == QueuedCount(a) + QueuedCount(b)
  {
    if b == [] {
      assert a + b == a;
    } else {
      var front, e := b[..|b| - 1], b[|b| - 1];
      assert (a + b)[..|a + b| - 1] == a + front;
      Appended(a, front, id);
      Associates(History(a, id), History(front, id), if e.id == id then [e] else []);
      Associates(Others(a), Others(front), if IsQueued(e) then [] else [e]);
    }
  }

  lemma {:induction false} AboutOne(h: seq<Event>, id: Id, k: nat)
    requires k < |History(h, id)|
    ensures History(h, id)[k].id == id && History(h, id)[k] in h
  {
    var front := h[..|h| - 1];
    if k < |History(front, id)| {
      AboutOne(front, id, k);
    }
  }

  lemma {:induction false} NothingAboutIt(h: seq<Event>, id: Id)
    ensures History(h, id) == [] <==> forall e | e in h :: e.id != id
  {
    if h != [] {
      NothingAboutIt(h[..|h| - 1], id);
      assert h == h[..|h| - 1] + [h[|h| - 1]];
    }
  }

  /** The phase of an instance depends on its own history. */
  lemma {:induction false} PhaseOfHistory(h: seq<Event>, id: Id)
    ensures PhaseOf(History(h, id), id) == PhaseOf(h, id)
  {
    if h != [] {
      var front, e := h[..|h| - 1], h[|h| - 1];
      PhaseOfHistory(front, id);
      assert h == front + [e];
      HistoryOfOneMore(front, e, id);
      if e.id == id {
        Published(History(front, id), e, id);
      } else {
        assert History(front, id) + [] == History(front, id);
      }
    }
  }

  lemma OneEvent(e: Event)
    ensures Others([e]) == if IsQueued(e) then [] else [e]
    ensures QueuedCount([e]) == if IsQueued(e) then 1 else 0
  {
    assert [e][..0] == [];
  }

  lemma {:induction false} StartedForGood(h: seq<Event>, id: Id)
    requires h != [] && forall e | e in h :: e.id == id
    ensures PhaseOf(h, id) != Unknown
  {
  }

  lemma QueuedOnlyFirst(front: seq<Event>, e: Event, id: Id)
    requires e.id == id && (forall x | x in front :: x.id == id) && PhaseOf(front + [e], id) != Broken
    ensures IsQueued(e) <==> front == []
    ensures front == [] ==> e == StatusOf(id, Queued)
    ensures PhaseOf(front, id) != Broken
  {
    Published(front, e, id);
    if front != [] {
      StartedForGood(front, id);
    }
  }

  /** A grammatical history opens with Queued, and has no other. */
  lemma {:induction false} OpensWithQueued(h: seq<Event>, id: Id)
    requires (forall e | e in h :: e.id == id) && PhaseOf(h, id) != Broken
    ensures h == [] || h == [StatusOf(id, Queued)] + Others(h)
    ensures QueuedCount(h) == if h == [] then 0 else 1
  {
    if h != [] {
      var front, e := h[..|h| - 1], h[|h| - 1];
      assert front + [e] == h && e in h && forall x | x in front :: x in h;
      QueuedOnlyFirst(front, e, id);
      OpensWithQueued(front, id);
      Appended(front, [e], id);
      OneEvent(e);
      if front != [] {
        Associates([StatusOf(id, Queued)], Others(front), [e]);
      } else {
        assert Others(front) + [] == [];
      }
    }
  }

  // ---------------------------------------------------------------------------
  // Delayed histories
  // ---------------------------------------------------------------------------

  /**
   * What is told about an instance and what is owed make up its history: each once, in order except for
   * Queued, and nothing but a withdrawal is owed besides.
   */
  predicate Delayed(told: seq<Event>, owed: seq<Event>, history: seq<Event>, id: Id) {
    && Others(told) + Others(owed) == Others(history)
    && QueuedCount(told) + QueuedCount(owed) == QueuedCount(history)
    && (Others(owed) == [] || (Others(owed) == [StatusOf(id, Canceled)] && PhaseOf(history, id) == Withdrawn))
  }

  predicate DelayedFor(s: Station, m: Machine, id: Id) {
    Delayed(History(s.m.events, id), History(s.owed, id), History(m.events, id), id)
  }

  /** The station is the machine, but for when things are published. */
  ghost predicate Matches(s: Station, m: Machine) {
    && Inv(m) && Stable(m)
    && s.m.(events := m.events) == m
    && forall id :: DelayedFor(s, m, id)
  }

  lemma AllAboutIt(h: seq<Event>, id: Id)
    ensures forall e | e in History(h, id) :: e.id == id
  {
    forall e | e in History(h, id) ensures e.id == id {
      var k :| 0 <= k < |History(h, id)| && History(h, id)[k] == e;
      AboutOne(h, id, k);
    }
  }

  lemma HistoryIsGrammatical(m: Machine, id: Id)
    requires Inv(m)
    ensures PhaseOf(History(m.events, id), id) == PhaseOf(m.events, id) != Broken
    ensures var h := History(m.events, id);
            && (h == [] || h == [StatusOf(id, Queued)] + Others(h))
            && QueuedCount(h) == if h == [] then 0 else 1
  {
    assert Accounted(m, id);
    PhaseOfHistory(m.events, id);
    AllAboutIt(m.events, id);
    OpensWithQueued(History(m.events, id), id);
  }

  // ---------------------------------------------------------------------------
  // Actions do not look at what has been published
  // ---------------------------------------------------------------------------

  /** The machine with another log. */
  function With(m: Machine, events: seq<Event>): Machine {
    m.(events := events)
  }

  lemma PassIsBlind(m: Machine, r: Reading, events: seq<Event>) returns (more: seq<Event>)
    requires WellFormed(m)
    ensures Pass(m, r).events == m.events + more
    ensures Pass(With(m, events), r) == With(Pass(m, r), events + more)
  {
    more := Pass(m, r).events[|m.events|..];
  }

  lemma {:induction false} LoopIsBlind(m: Machine, rs: seq<Reading>, events: seq<Event>) returns (more: seq<Event>)
    requires WellFormed(m) && Settles(m, rs)
    ensures Settles(With(m, events), rs)
    ensures RunLoop(m, rs).events == m.events + more
    ensures RunLoop(With(m, events), rs) == With(RunLoop(m, rs), events + more)
    decreases |rs|
  {
    var first := PassIsBlind(m, rs[0], events);
    more := first;
    if !Stable(Pass(m, rs[0])) {
      var later := LoopIsBlind(Pass(m, rs[0]), rs[1..], events + first);
      more := first + later;
      Associates(m.events, first, later);
      Associates(events, first, later);
    }
  }

  function Reacted(m: Machine, a: Action): (m': Machine)
    requires WellFormed(m) && (a.StatusMessage? || a.ResultMessage?)
    ensures WellFormed(m')
  {
    if a.StatusMessage? then OnStatus(m, a.status) else OnResult(m)
  }

  lemma {:induction false} MessageIsBlind(m: Machine, a: Action, events: seq<Event>) returns (more: seq<Event>)
    requires WellFormed(m) && (a.StatusMessage? || a.ResultMessage?)
    ensures WellFormed(Reacted(m, a)) && Reacted(m, a).events == m.events + more
    ensures Reacted(With(m, events), a) == With(Reacted(m, a), events + more)
  {
    more := Reacted(m, a).events[|m.events|..];
  }

  lemma InThree<T>(a: seq<T>, x: seq<T>, y: seq<T>, z: seq<T>)
    ensures a + x + y + z == a + (x + y + z)
  {
  }

  lemma {:induction false} ReactionIsBlind(m: Machine, a: Action, after: seq<Reading>, events: seq<Event>)
      returns (y: seq<Event>, z: seq<Event>)
    requires WellFormed(m) && (a.StatusMessage? || a.ResultMessage?) && WellFormed(Reacted(m, a))
    requires Settles(Reacted(m, a), after)
    ensures WellFormed(Reacted(With(m, events), a)) && Settles(Reacted(With(m, events), a), after)
    ensures RunLoop(Reacted(m, a), after).events == m.events + y + z
    ensures RunLoop(Reacted(With(m, events), a), after) == With(RunLoop(Reacted(m, a), after), events + y + z)
  {
    y := MessageIsBlind(m, a, events);
    z := LoopIsBlind(Reacted(m, a), after, events + y);
  }

  lemma {:induction false} CallIsBlind(
      m: Machine, a: Action, before: seq<Reading>, after: seq<Reading>, events: seq<Event>)
      returns (more: seq<Event>)
    requires WellFormed(m) && (a.StatusMessage? || a.ResultMessage?)
    requires Settles(m, before) && Settles(Reacted(RunLoop(m, before), a), after)
    ensures Settles(With(m, events), before) && Settles(Reacted(RunLoop(With(m, events), before), a), after)
    ensures var end := RunLoop(Reacted(RunLoop(m, before), a), after);
            && end.events == m.events + more
            && RunLoop(Reacted(RunLoop(With(m, events), before), a), after) == With(end, events + more)
  {
    var x := LoopIsBlind(m, before, events);
    var y, z := ReactionIsBlind(RunLoop(m, before), a, after, events + x);
    more := x + y + z;
    InThree(m.events, x, y, z);
    InThree(events, x, y, z);
  }

  lemma {:induction false} ActionIsBlind(m: Machine, a: Action, events: seq<Event>) returns (more: seq<Event>)
    requires WellFormed(m) && !a.Schedule? && !a.Unschedule? && Possible(m, a)
    ensures Possible(With(m, events), a)
    ensures Do(m, a).events == m.events + more
    ensures Do(With(m, events), a) == With(Do(m, a), events + more)
  {
    match a
    case Heartbeat(_) => more := [];
    case Tick(rs) => more := LoopIsBlind(m, rs, events);
    case StatusMessage(status, before, after) =>
      more := CallIsBlind(m, a, before, after, events);
    case ResultMessage(before, after) =>
      more := CallIsBlind(m, a, before, after, events);
  }

  // ---------------------------------------------------------------------------
  // Every step matches
  // ---------------------------------------------------------------------------

  /** After a withdrawal, nothing is published about an instance. */
  lemma {:induction false} WithdrawnIsFinal(a: seq<Event>, b: seq<Event>, id: Id)
    requires PhaseOf(a, id) == Withdrawn && PhaseOf(a + b, id) != Broken
    ensures History(b, id) == []
    decreases |b|
  {
    if b != [] {
      var front, e := b[..|b| - 1], b[|b| - 1];
      assert a + b == (a + front) + [e];
      Published(a + front, e, id);
      WithdrawnIsFinal(a, front, id);
      PhaseWithout(a, front, id);
    }
  }

  lemma {:induction false} PhaseWithout(a: seq<Event>, b: seq<Event>, id: Id)
    requires History(b, id) == []
    ensures PhaseOf(a + b, id) == PhaseOf(a, id)
    decreases |b|
  {
    if b == [] {
      assert a + b == a;
    } else {
      var front, e := b[..|b| - 1], b[|b| - 1];
      assert a + b == (a + front) + [e];
      Published(a + front, e, id);
      PhaseWithout(a, front, id);
    }
  }

  lemma BothAppend(told: seq<Event>, owed: seq<Event>, history: seq<Event>, more: seq<Event>, id: Id)
    requires Delayed(told, owed, history, id)
    requires more == [] || Others(owed) == []
    ensures Delayed(told + more, owed, history + more, id)
  {
    Appended(told, more, id);
    Appended(history, more, id);
    if more == [] {
      assert told + more == told && history + more == history;
    }
  }

  lemma {:induction false} ActMatches(s: Station, m: Machine, a: Action) returns (more: seq<Event>)
    requires Matches(s, m) && MayStep(s, Act(a))
    ensures Possible(m, a) && Matches(Next(s, Act(a)), Do(m, a))
    ensures Next(s, Act(a)).m.events == s.m.events + more && Do(m, a).events == m.events + more
  {
    more := ActionIsBlind(s.m, a, m.events);
    assert With(s.m, m.events) == m;
    InvDo(m, a);
    forall id ensures DelayedFor(Next(s, Act(a)), Do(m, a), id) {
      assert DelayedFor(s, m, id);
      assert Accounted(Do(m, a), id);
      Appended(s.m.events, more, id);
      Appended(m.events, more, id);
      PhaseOfHistory(m.events, id);
      if PhaseOf(m.events, id) == Withdrawn {
        WithdrawnIsFinal(m.events, more, id);
      }
      BothAppend(History(s.m.events, id), History(s.owed, id), History(m.events, id), History(more, id), id);
    }
  }

  lemma {:induction false} Parts(h: seq<Event>)
    ensures |h| == |Others(h)| + QueuedCount(h)
  {
    if h != [] {
      Parts(h[..|h| - 1]);
    }
  }

  lemma OweOneMore(told: seq<Event>, owed: seq<Event>, history: seq<Event>, e: Event, id: Id)
    requires Delayed(told, owed, history, id) && Others(owed) == []
    requires IsQueued(e) || (e == StatusOf(id, Canceled) && PhaseOf(history + [e], id) == Withdrawn)
    ensures Delayed(told, owed + [e], history + [e], id)
  {
    Appended(owed, [e], id);
    Appended(history, [e], id);
    OneEvent(e);
    OthersStayEqual(Others(told), Others(owed), Others(history), Others([e]));
  }

  lemma OthersStayEqual(told: seq<Event>, owed: seq<Event>, history: seq<Event>, more: seq<Event>)
    requires told + owed == history && owed == []
    ensures told + (owed + more) == history + more && owed + more == more
  {
  }

  lemma NothingOwedTwice(s: Station, m: Machine, id: Id)
    requires Matches(s, m) && PhaseOf(m.events, id) != Withdrawn
    ensures Others(History(s.owed, id)) == []
  {
    assert DelayedFor(s, m, id);
    PhaseOfHistory(m.events, id);
  }

  lemma EnqueueMatches(s: Station, m: Machine, id: Id)
    requires Matches(s, m) && MayStep(s, Enqueue(id))
    ensures Possible(m, Schedule(id)) && Matches(Next(s, Enqueue(id)), Do(m, Schedule(id)))
  {
    var e := StatusOf(id, Queued);
    FreshForBoth(s, m, id);
    InvDo(m, Schedule(id));
    forall x ensures DelayedFor(Next(s, Enqueue(id)), Do(m, Schedule(id)), x) {
      assert DelayedFor(s, m, x);
      HistoryOfOneMore(s.owed, e, x);
      HistoryOfOneMore(m.events, e, x);
      if x == id {
        NothingOwedTwice(s, m, id);
        OweOneMore(History(s.m.events, id), History(s.owed, id), History(m.events, id), e, id);
      } else {
        assert History(s.owed, x) + [] == History(s.owed, x) && History(m.events, x) + [] == History(m.events, x);
      }
    }
  }

  lemma FreshForBoth(s: Station, m: Machine, id: Id)
    requires Matches(s, m) && MayStep(s, Enqueue(id))
    ensures Possible(m, Schedule(id)) && PhaseOf(m.events, id) == Unknown
  {
    assert DelayedFor(s, m, id);
    NothingAboutIt(s.m.events, id);
    NothingAboutIt(s.owed, id);
    Parts(History(m.events, id));
    NothingAboutIt(m.events, id);
    NothingPublishedYet(m.events, id);
  }

  lemma WithdrawMatches(s: Station, m: Machine, id: Id)
    requires Matches(s, m)
    ensures Matches(Next(s, Withdraw(id)), Do(m, Unschedule(id)))
  {
    var e := StatusOf(id, Canceled);
    assert s.m.queue == m.queue;
    if id in m.queue {
      InvDo(m, Unschedule(id));
      assert Accounted(m, id);
      forall x ensures DelayedFor(Next(s, Withdraw(id)), Do(m, Unschedule(id)), x) {
        assert DelayedFor(s, m, x);
        HistoryOfOneMore(s.owed, e, x);
        HistoryOfOneMore(m.events, e, x);
        if x == id {
          NothingOwedTwice(s, m, id);
          PhaseOfHistory(m.events, id);
          Published(History(m.events, id), e, id);
          OweOneMore(History(s.m.events, id), History(s.owed, id), History(m.events, id), e, id);
        } else {
          assert History(s.owed, x) + [] == History(s.owed, x) && History(m.events, x) + [] == History(m.events, x);
        }
      }
    }
  }

  lemma PayOne(told: seq<Event>, a: seq<Event>, e: Event, b: seq<Event>, history: seq<Event>, id: Id)
    requires Delayed(told, a + [e] + b, history, id)
    ensures Delayed(told + [e], a + b, history, id)
  {
    Appended(told, [e], id);
    Appended(a + [e], b, id);
    Appended(a, [e], id);
    Appended(a, b, id);
    OneEvent(e);
    if IsQueued(e) {
      assert Others(a) + [] == Others(a) && Others(told) + [] == Others(told);
    } else {
      assert |Others(a)| + 1 + |Others(b)| <= 1;
      assert Others(a) == [] && Others(b) == [];
      assert Others(a + b) == [] && Others(a + [e] + b) == [e];
    }
  }

  lemma PublishMatches(s: Station, m: Machine, k: nat)
    requires Matches(s, m) && MayStep(s, Publish(k))
    ensures Matches(Next(s, Publish(k)), m)
  {
    var a, e, b := s.owed[..k], s.owed[k], s.owed[k + 1..];
    assert s.owed == a + [e] + b;
    forall id ensures DelayedFor(Next(s, Publish(k)), m, id) {
      assert DelayedFor(s, m, id);
      HistoryOfOneMore(s.m.events, e, id);
      HistoryOfOneMore(a, e, id);
      Appended(a + [e], b, id);
      Appended(a, b, id);
      if e.id == id {
        PayOne(History(s.m.events, id), History(a, id), e, History(b, id), History(m.events, id), id);
      } else {
        assert History(a, id) + [] == History(a, id);
        assert History(s.m.events, id) + [] == History(s.m.events, id);
      }
    }
  }

  /** The action that a step stands for, taken by the machine in which scheduling is one step. */
  lemma StepMatches(s: Station, m: Machine, step: Step)
    requires Matches(s, m) && MayStep(s, step)
    ensures CanRun(m, AtOnce([step])) && Matches(Next(s, step), Run(m, AtOnce([step])))
  {
    assert [step][1..] == [];
    match step
    case Act(a) => var more := ActMatches(s, m, a); RunOne(m, a); assert AtOnce([step]) == [a];
    case Enqueue(id) => EnqueueMatches(s, m, id); RunOne(m, Schedule(id)); assert AtOnce([step]) == [Schedule(id)];
    case Withdraw(id) =>
      WithdrawMatches(s, m, id); RunOne(m, Unschedule(id)); assert AtOnce([step]) == [Unschedule(id)];
    case Publish(k) => PublishMatches(s, m, k);
  }

  lemma {:induction false} RunOne(m: Machine, a: Action)
    requires WellFormed(m) && Possible(m, a)
    ensures CanRun(m, [a]) && Run(m, [a]) == Do(m, a)
  {
    assert [a][1..] == [];
  }

  lemma {:induction false} RunInTwo(m: Machine, a: seq<Action>, b: seq<Action>)
    requires WellFormed(m) && CanRun(m, a) && CanRun(Run(m, a), b)
    ensures CanRun(m, a + b) && Run(m, a + b) == Run(Run(m, a), b)
    decreases |a|
  {
    if a == [] {
      assert a + b == b;
    } else {
      assert (a + b)[1..] == a[1..] + b;
      RunInTwo(Do(m, a[0]), a[1..], b);
    }
  }

  lemma AtOnceInTwo(step: Step, rest: seq<Step>)
    ensures AtOnce([step] + rest) == AtOnce([step]) + AtOnce(rest)
  {
    assert ([step] + rest)[1..] == rest && [step][1..] == [];
  }

  lemma {:induction false} StepsMatch(s: Station, m: Machine, steps: seq<Step>)
    requires Matches(s, m) && CanTake(s, steps)
    ensures CanRun(m, AtOnce(steps)) && Matches(Take(s, steps), Run(m, AtOnce(steps)))
    decreases |steps|
  {
    if steps != [] {
      var step, rest := steps[0], steps[1..];
      StepMatches(s, m, step);
      StepsMatch(Next(s, step), Run(m, AtOnce([step])), rest);
      RunInTwo(m, AtOnce([step]), AtOnce(rest));
      AtOnceInTwo(step, rest);
      assert [step] + rest == steps;
    }
  }

  /**
   * In every interleaving of critical sections and publications, the station matches a run in which
   * scheduling and unscheduling are one step each: the same queue, instance on test, state, times and entry
   * actions, and about every instance the same history but for what is owed and for where Queued stands.
   */
  lemma SplitRunMatches(steps: seq<Step>)
    requires CanTake(START, steps)
    ensures CanRun(INITIAL, AtOnce(steps)) && Matches(Take(START, steps), Run(INITIAL, AtOnce(steps)))
  {
    forall id ensures Accounted(INITIAL, id) {
    }
    StepsMatch(START, INITIAL, steps);
  }

  /** So the queue is conserved: what has been set up and what is queued are the enqueued, less the withdrawn. */
  lemma QueueConservedMeanwhile(steps: seq<Step>)
    requires CanTake(START, steps)
    ensures CanRun(INITIAL, AtOnce(steps))
    ensures var s := Take(START, steps);
            && SetUps(s.m.signals) + s.m.queue
               == Remaining(Schedules(AtOnce(steps)), Run(INITIAL, AtOnce(steps)).events)
            && Unique(SetUps(s.m.signals) + s.m.queue)
  {
    SplitRunMatches(steps);
    QueueConserved(AtOnce(steps));
  }

  // ---------------------------------------------------------------------------
  // The grammar of what is told
  // ---------------------------------------------------------------------------

  lemma PrefixOfOthers(told: seq<Event>, owed: seq<Event>, history: seq<Event>, q: Event, id: Id)
    requires Others(told) + Others(owed) == Others(history)
    requires history == [q] + Others(history) && PhaseOf(history, id) != Broken
    ensures PhaseOf([q] + Others(told), id) != Broken
  {
    var n := 1 + |Others(told)|;
    assert history[..n] == [q] + Others(told);
    BrokenForGood(history, n, id);
  }

  /** What is told about an instance, Queued aside. */
  lemma WhatSurvives(s: Station, m: Machine, id: Id)
    requires Matches(s, m)
    ensures var told := History(s.m.events, id);
            && QueuedCount(told) <= 1
            && (told != [] ==> PhaseOf([StatusOf(id, Queued)] + Others(told), id) != Broken)
  {
    var told, owed, history := History(s.m.events, id), History(s.owed, id), History(m.events, id);
    assert DelayedFor(s, m, id);
    HistoryIsGrammatical(m, id);
    Parts(told);
    if told != [] {
      PrefixOfOthers(told, owed, history, StatusOf(id, Queued), id);
    }
  }

  /**
   * What survives of the grammar of statuses and results: in every interleaving, Queued is told at most once,
   * and with Queued moved to the front what is told about an instance is grammatical.
   */
  lemma GrammarButForQueued(steps: seq<Step>, id: Id)
    requires CanTake(START, steps)
    ensures var told := History(Take(START, steps).m.events, id);
            && QueuedCount(told) <= 1
            && (told != [] ==> PhaseOf([StatusOf(id, Queued)] + Others(told), id) != Broken)
  {
    SplitRunMatches(steps);
    WhatSurvives(Take(START, steps), Run(INITIAL, AtOnce(steps)), id);
  }

  lemma {:induction false} NoneQueued(h: seq<Event>)
    requires QueuedCount(h) == 0
    ensures Others(h) == h
  {
    if h != [] {
      NoneQueued(h[..|h| - 1]);
      assert h[..|h| - 1] + [h[|h| - 1]] == h;
    }
  }

  lemma QueuedFirstIsGrammatical(told: seq<Event>, id: Id)
    requires told != [] && told[0] == StatusOf(id, Queued) && QueuedCount(told) <= 1
    requires PhaseOf([StatusOf(id, Queued)] + Others(told), id) != Broken
    ensures PhaseOf(told, id) != Broken
  {
    var rest := told[1..];
    assert told == [told[0]] + rest;
    Appended([told[0]], rest, id);
    OneEvent(told[0]);
    NoneQueued(rest);
    assert [] + rest == rest;
  }

  lemma ToldGrammatically(s: Station, m: Machine, id: Id)
    requires Matches(s, m)
    ensures var told := History(s.m.events, id);
            PhaseOf(s.m.events, id) != Broken <==> told == [] || told[0] == StatusOf(id, Queued)
  {
    var told := History(s.m.events, id);
    PhaseOfHistory(s.m.events, id);
    WhatSurvives(s, m, id);
    AllAboutIt(s.m.events, id);
    if told != [] && told[0] == StatusOf(id, Queued) {
      QueuedFirstIsGrammatical(told, id);
    } else if PhaseOf(told, id) != Broken {
      OpensWithQueued(told, id);
    }
  }

  /** The full grammar holds of what has been told about an instance exactly if that is nothing or opens with Queued. */
  lemma GrammarExactlyIfQueuedFirst(steps: seq<Step>, id: Id)
    requires CanTake(START, steps)
    ensures var told := History(Take(START, steps).m.events, id);
            PhaseOf(Take(START, steps).m.events, id) != Broken <==> told == [] || told[0] == StatusOf(id, Queued)
  {
    SplitRunMatches(steps);
    ToldGrammatically(Take(START, steps), Run(INITIAL, AtOnce(steps)), id);
  }

  predicate Owes(s: Station, id: Id) {
    QueuedCount(History(s.owed, id)) > 0
  }

  /** The step publishes something other than Queued about the instance. */
  predicate Tells(s: Station, step: Step, id: Id)
    requires WellFormed(s.m) && MayStep(s, step)
  {
    && History(Next(s, step).m.events, id) != History(s.m.events, id)
    && !(step.Publish? && s.owed[step.k] == StatusOf(id, Queued))
  }

  lemma QueuedIsOnce(s: Station, m: Machine, id: Id)
    requires Matches(s, m)
    ensures QueuedCount(History(s.m.events, id)) + QueuedCount(History(s.owed, id)) <= 1
    ensures Owes(s, id) || History(s.m.events, id) != [] || History(m.events, id) == []
  {
    assert DelayedFor(s, m, id);
    HistoryIsGrammatical(m, id);
  }

  lemma {:induction false} FirstIsCounted(h: seq<Event>)
    requires h != [] && IsQueued(h[0])
    ensures QueuedCount(h) > 0
  {
    if |h| > 1 {
      FirstIsCounted(h[..|h| - 1]);
    }
  }

  lemma StepAppends(s: Station, m: Machine, step: Step, id: Id) returns (more: seq<Event>)
    requires Matches(s, m) && MayStep(s, step)
    ensures Next(s, step).m.events == s.m.events + more
    ensures History(Next(s, step).m.events, id) == History(s.m.events, id) + History(more, id)
    ensures step.Publish? ==> more == [s.owed[step.k]]
  {
    if step.Act? {
      more := ActMatches(s, m, step.a);
    } else if step.Publish? {
      more := [s.owed[step.k]];
    } else {
      more := [];
      assert s.m.events + [] == s.m.events;
    }
    Appended(s.m.events, more, id);
  }

  lemma OwedInTwo(a: seq<Event>, b: seq<Event>, id: Id)
    ensures QueuedCount(History(a + b, id)) == QueuedCount(History(a, id)) + QueuedCount(History(b, id))
  {
    Appended(a, b, id);
    Appended(History(a, id), History(b, id), id);
  }

  lemma OweNoQueued(e: Event, id: Id)
    requires e != StatusOf(id, Queued)
    ensures QueuedCount(History([e], id)) == 0
  {
    HistoryOfOneMore([], e, id);
    assert [] + [e] == [e] && History([], id) == [];
    OneEvent(e);
    assert [] + [e] == [e];
  }

  lemma StillOwes(s: Station, step: Step, id: Id)
    requires WellFormed(s.m) && MayStep(s, step) && Owes(s, id)
    requires !(step.Publish? && s.owed[step.k] == StatusOf(id, Queued))
    ensures Owes(Next(s, step), id)
  {
    match step
    case Act(_) =>
    case Enqueue(x) => OwedInTwo(s.owed, [StatusOf(x, Queued)], id);
    case Withdraw(x) => OwedInTwo(s.owed, [StatusOf(x, Canceled)], id);
    case Publish(k) =>
      var a, e, b := s.owed[..k], s.owed[k], s.owed[k + 1..];
      assert s.owed == a + [e] + b;
      OwedInTwo(a + [e], b, id);
      OwedInTwo(a, [e], id);
      OwedInTwo(a, b, id);
      OweNoQueued(e, id);
  }

  /** While Queued is owed, anything else that is told comes too early. */
  lemma EarlyTelling(s: Station, m: Machine, step: Step, id: Id)
    requires Matches(s, m) && MayStep(s, step) && Owes(s, id) && PhaseOf(s.m.events, id) != Broken
    ensures PhaseOf(Next(s, step).m.events, id) == Broken <==> Tells(s, step, id)
  {
    StepMatches(s, m, step);
    var s', m' := Next(s, step), Run(m, AtOnce([step]));
    var told, told' := History(s.m.events, id), History(s'.m.events, id);
    ToldGrammatically(s, m, id);
    ToldGrammatically(s', m', id);
    QueuedIsOnce(s, m, id);
    QueuedIsOnce(s', m', id);
    if told != [] {
      FirstIsCounted(told);
    }
    if step.Publish? && s.owed[step.k] == StatusOf(id, Queued) {
      HistoryOfOneMore(s.m.events, s.owed[step.k], id);
      assert told' == [] + [StatusOf(id, Queued)];
    } else {
      StillOwes(s, step, id);
      if told' != [] && IsQueued(told'[0]) {
        FirstIsCounted(told');
        assert false;
      }
    }
  }

  /** Once it is not, nothing is. */
  lemma LateTelling(s: Station, m: Machine, step: Step, id: Id)
    requires Matches(s, m) && MayStep(s, step) && !Owes(s, id) && PhaseOf(s.m.events, id) != Broken
    ensures PhaseOf(Next(s, step).m.events, id) != Broken
  {
    StepMatches(s, m, step);
    var s', m' := Next(s, step), Run(m, AtOnce([step]));
    var told := History(s.m.events, id);
    ToldGrammatically(s, m, id);
    ToldGrammatically(s', m', id);
    QueuedIsOnce(s, m, id);
    var more := StepAppends(s, m, step, id);
    if told == [] {
      FirstTelling(s, m, step, id);
    }
  }

  lemma FirstTelling(s: Station, m: Machine, step: Step, id: Id)
    requires Matches(s, m) && MayStep(s, step)
    requires History(s.m.events, id) == [] && History(m.events, id) == []
    ensures PhaseOf(Next(s, step).m.events, id) != Broken
  {
    PhaseOfHistory(Next(s, step).m.events, id);
    match step
    case Act(a) =>
      var more := ActMatches(s, m, a);
      Appended(s.m.events, more, id);
      Appended(m.events, more, id);
      PhaseOfHistory(Do(m, a).events, id);
      assert Accounted(Do(m, a), id);
    case Publish(k) =>
      assert DelayedFor(s, m, id);
      Parts(History(s.owed, id));
      NothingAboutIt(s.owed, id);
      HistoryOfOneMore(s.m.events, s.owed[k], id);
    case _ =>
  }

  /**
   * The step that breaks the grammar of what is told about an instance: one that tells something else about
   * it while its Queued is still owed.
   */
  lemma BreaksExactly(s: Station, m: Machine, step: Step, id: Id)
    requires Matches(s, m) && MayStep(s, step) && PhaseOf(s.m.events, id) != Broken
    ensures PhaseOf(Next(s, step).m.events, id) == Broken <==> Owes(s, id) && Tells(s, step, id)
  {
    if Owes(s, id) {
      EarlyTelling(s, m, step, id);
    } else {
      LateTelling(s, m, step, id);
    }
  }

  // ---------------------------------------------------------------------------
  // Running before Queued
  // ---------------------------------------------------------------------------

  /** The loop selects the instance, and the V2G module reports it running, before the caller has published. */
  lemma QueuedCanComeLast(id: Id) returns (steps: seq<Step>)
    ensures CanTake(START, steps)
    ensures Take(START, steps).m.events == [StatusOf(id, Running), StatusOf(id, Queued)]
  {
    var on := Reading(0, true);
    var tick, running := Tick([on, on, on]), StatusMessage(Running, [on], [on]);
    var s1 := Next(START, Enqueue(id));
    SelectsQueued(s1.m, on);
    var s2 := Next(s1, Act(tick));
    assert Pass(s2.m, on) == s2.m && Settles(s2.m, [on]);
    var m3 := OnStatus(s2.m, Running);
    assert Stable(Pass(m3, on)) && Settles(m3, [on]);
    var s3 := Next(s2, Act(running));
    assert s3.m.events == [] + [StatusOf(id, Running)];
    var s4 := Next(s3, Publish(0));
    steps := [Enqueue(id)] + ([Act(tick)] + ([Act(running)] + ([Publish(0)] + [])));
    TakesOne(s3, Publish(0), []);
    TakesOne(s2, Act(running), [Publish(0)] + []);
    TakesOne(s1, Act(tick), [Act(running)] + ([Publish(0)] + []));
    TakesOne(START, Enqueue(id), [Act(tick)] + ([Act(running)] + ([Publish(0)] + [])));
  }

  lemma TakesOne(s: Station, step: Step, rest: seq<Step>)
    requires WellFormed(s.m) && MayStep(s, step) && CanTake(Next(s, step), rest)
    ensures CanTake(s, [step] + rest) && Take(s, [step] + rest) == Take(Next(s, step), rest)
  {
    assert ([step] + rest)[1..] == rest;
  }

  lemma SelectsQueued(m: Machine, on: Reading)
    requires m.state == Disabled && Stable(m) && m.queue != [] && on.enabled
    ensures Settles(m, [on, on, on])
    ensures var m' := RunLoop(m, [on, on, on]);
            m'.state == SetupTest && Stable(m') && m'.current == Some(m.queue[0]) && m'.events == m.events
  {
    var idle := Pass(m, on);
    var setup := Pass(idle, on);
    assert idle.state == Idle && setup.state == SetupTest && Stable(Pass(setup, on));
    assert [on, on, on][1..] == [on, on] && [on, on][1..] == [on];
    LoopUnfolds(setup, [on], []);
    LoopUnfolds(idle, [on, on], [on]);
    LoopUnfolds(m, [on, on, on], [on, on]);
  }
}
