/**
 * The packet sniffer: callers that start and stop a capture, and detached capture threads,
 * synchronised by compare-and-exchange steps on one atomic state. Any number of threads
 * take atomic steps in any order. The mutex that callers hold around their wait is not
 * modelled: the capture thread never takes it.
 */
module PacketSniffer {

  datatype SnifferState = Disabled | Standby | Running | Stopping | Stopped

  /** The step a thread takes next. */
  datatype Step =
    // start_capture
    | TryStart | Spawn
    // stop_capture
    | TryStop | Look | Check | Block | Blocked | Reset
    // capture
    | Open | Load | Dispatch | Fail | Close | Acknowledge | Notify
    | Done

  datatype Sniffer = Sniffer(enabled: bool, state: SnifferState, threads: seq<Step>)

  /** A call, one step of a thread with the outcome of its foreign call, or a spurious wake-up. */
  datatype Action = CallStart | CallStop | Go(thread: nat, ok: bool) | Wake(thread: nat)

  predicate Initial(s: Sniffer) {
    s.threads == [] && s.state == if s.enabled then Standby else Disabled
  }

  function Become(s: Sniffer, i: nat, next: Step): Sniffer
    requires i < |s.threads|
  {
    s.(threads := s.threads[i := next])
  }

  /** Compare-and-exchange of the state. */
  function Exchange(s: Sniffer, expected: SnifferState, desired: SnifferState): Sniffer {
    if s.state == expected then s.(state := desired) else s
  }

  /** Every blocked thread evaluates its condition again. */
  function NotifyAll(threads: seq<Step>): (woken: seq<Step>)
    ensures |woken| == |threads|
    ensures forall i | 0 <= i < |threads| :: woken[i] == if threads[i] == Blocked then Check else threads[i]
  {
    seq(|threads|, i requires 0 <= i < |threads| => if threads[i] == Blocked then Check else threads[i])
  }

  /** One atomic step of thread `i`. */
  function Taken(s: Sniffer, i: nat, ok: bool): Sniffer
    requires i < |s.threads|
  {
    match s.threads[i]
    case TryStart =>
      if s.enabled && s.state == Standby then Become(s.(state := Running), i, Spawn) else Become(s, i, Done)
    case Spawn => Become(s, i, Done).(threads := s.threads[i := Done] + [Open])
    case TryStop => if s.enabled then Become(Exchange(s, Running, Stopping), i, Look) else Become(s, i, Done)
    case Look => Become(s, i, if s.state == Stopping then Check else Reset)
    case Check => Become(s, i, if s.state == Stopping then Block else Reset)
    case Block => Become(s, i, Blocked)
    case Blocked => s
    case Reset => Become(Exchange(s, Stopped, Standby), i, Done)
    case Open => Become(s, i, if ok then Load else Done)
    case Load => Become(s, i, if s.state == Running then Dispatch else Close)
    case Dispatch => Become(s, i, if ok then Load else Fail)
    case Fail => Become(Exchange(s, Running, Stopping), i, Close)
    case Close => Become(s, i, Acknowledge)
    case Acknowledge => Become(Exchange(s, Stopping, Stopped), i, if s.state == Stopping then Notify else Done)
    case Notify => s.(threads := NotifyAll(s.threads[i := Done]))
    case Done => s
  }

  predicate Possible(s: Sniffer, a: Action) {
    match a
    case Go(i, _) => i < |s.threads|
    case Wake(i) => i < |s.threads| && s.threads[i] == Blocked
    case _ => true
  }

  function Next(s: Sniffer, a: Action): Sniffer
    requires Possible(s, a)
  {
    match a
    case CallStart => s.(threads := s.threads + [TryStart])
    case CallStop => s.(threads := s.threads + [TryStop])
    case Go(i, ok) => Taken(s, i, ok)
    case Wake(i) => Become(s, i, Check)
  }

  predicate CanRun(s: Sniffer, actions: seq<Action>)
    decreases |actions|
  {
    actions == [] || (Possible(s, actions[0]) && CanRun(Next(s, actions[0]), actions[1..]))
  }

  function Run(s: Sniffer, actions: seq<Action>): Sniffer
    requires CanRun(s, actions)
    decreases |actions|
  {
    if actions == [] then s else Run(Next(s, actions[0]), actions[1..])
  }

  // ---------------------------------------------------------------------------
  // Safety
  // ---------------------------------------------------------------------------

  /** The thread holds an open dump file. */
  predicate HasFile(t: Step) {
    t == Load || t == Dispatch || t == Fail || t == Close
  }

  /** The thread has yet to acknowledge, or to start, a capture. */
  predicate Owes(t: Step) {
    t == Spawn || t == Open || t == Acknowledge || HasFile(t)
  }

  /** At most one capture is owed. */
  predicate AtMostOne(threads: seq<Step>) {
    forall i, j | 0 <= i < |threads| && 0 <= j < |threads| && Owes(threads[i]) && Owes(threads[j]) :: i == j
  }

  predicate NoneOwes(threads: seq<Step>) {
    forall i | 0 <= i < |threads| :: !Owes(threads[i])
  }

  /** A capture is owed only in RUNNING and STOPPING, and wound up only in STOPPING. */
  predicate Fits(t: Step, state: SnifferState) {
    && (Owes(t) ==> state == Running || state == Stopping)
    && (t == Close || t == Acknowledge ==> state == Stopping)
  }

  predicate Inv(s: Sniffer) {
    && AtMostOne(s.threads)
    && (forall i | 0 <= i < |s.threads| :: Fits(s.threads[i], s.state))
    && (s.enabled <==> s.state != Disabled)
  }

  /** The only moves of the state. */
  predicate Cycle(from: SnifferState, to: SnifferState) {
    || from == to
    || (from == Standby && to == Running)
    || (from == Running && to == Stopping)
    || (from == Stopping && to == Stopped)
    || (from == Stopped && to == Standby)
  }

  /** A thread moves on, and perhaps moves the state. */
  lemma InvMove(s: Sniffer, i: nat, to: SnifferState, next: Step)
    requires Inv(s) && i < |s.threads| && Fits(next, to) && (s.enabled <==> to != Disabled)
    requires Owes(next) ==> Owes(s.threads[i]) || NoneOwes(s.threads)
    requires to == s.state || Owes(s.threads[i]) || NoneOwes(s.threads) || (s.state == Running && to == Stopping)
    ensures Inv(s.(state := to, threads := s.threads[i := next]))
  {
  }

  lemma InvAppend(s: Sniffer, t: Step)
    requires Inv(s) && Fits(t, s.state) && (Owes(t) ==> NoneOwes(s.threads))
    ensures Inv(s.(threads := s.threads + [t]))
  {
  }

  lemma InvNotify(s: Sniffer)
    requires Inv(s)
    ensures Inv(s.(threads := NotifyAll(s.threads)))
  {
  }

  lemma NobodyElseOwes(s: Sniffer, i: nat)
    requires Inv(s) && i < |s.threads| && Owes(s.threads[i])
    ensures NoneOwes(s.threads[i := Done])
  {
  }

  lemma InvTaken(s: Sniffer, i: nat, ok: bool)
    requires Inv(s) && i < |s.threads|
    ensures Inv(Taken(s, i, ok))
  {
    var to := Taken(s, i, ok).state;
    match s.threads[i]
    case Spawn =>
      InvMove(s, i, s.state, Done);
      NobodyElseOwes(s, i);
      InvAppend(Become(s, i, Done), Open);
    case Notify =>
      InvMove(s, i, s.state, Done);
      InvNotify(Become(s, i, Done));
    case _ => InvMove(s, i, to, Taken(s, i, ok).threads[i]);
  }

  /** Every step keeps the invariant and moves the state only along its cycle. */
  lemma InvNext(s: Sniffer, a: Action)
    requires Inv(s) && Possible(s, a)
    ensures Inv(Next(s, a)) && Cycle(s.state, Next(s, a).state)
  {
    match a
    case CallStart => InvAppend(s, TryStart);
    case CallStop => InvAppend(s, TryStop);
    case Go(i, ok) => InvTaken(s, i, ok);
    case Wake(i) => InvMove(s, i, s.state, Check);
  }

  lemma {:induction false} InvRun(s: Sniffer, actions: seq<Action>)
    requires Inv(s) && CanRun(s, actions)
    ensures Inv(Run(s, actions))
    decreases |actions|
  {
    if actions != [] {
      InvNext(s, actions[0]);
      InvRun(Next(s, actions[0]), actions[1..]);
    }
  }

  /**
   * In every run with any number of callers, at most one thread has the dump file open, and
   * none has unless the state is RUNNING or STOPPING.
   */
  lemma AtMostOneOpenFile(s: Sniffer, actions: seq<Action>, i: nat, j: nat)
    requires Initial(s) && CanRun(s, actions)
    ensures var threads := Run(s, actions).threads;
            && (i < |threads| && j < |threads| && HasFile(threads[i]) && HasFile(threads[j]) ==> i == j)
            && (i < |threads| && HasFile(threads[i]) ==> Run(s, actions).state in {Running, Stopping})
  {
    InvRun(s, actions);
  }

  // ---------------------------------------------------------------------------
  // Returning to STANDBY
  // ---------------------------------------------------------------------------

  /** A capture has been requested, but no thread is left that would wind it up. */
  predicate Orphaned(s: Sniffer) {
    (s.state == Running || s.state == Stopping) && NoneOwes(s.threads)
  }

  lemma NoneOwesAfterMove(threads: seq<Step>, i: nat, next: Step)
    requires AtMostOne(threads) && i < |threads|
    ensures NoneOwes(threads[i := next]) <==> !Owes(next) && (Owes(threads[i]) || NoneOwes(threads))
  {
    assert threads[i := next][i] == next;
    forall j | 0 <= j < |threads| && j != i ensures threads[i := next][j] == threads[j] {
    }
  }

  lemma NoneOwesAfterAppend(threads: seq<Step>, t: Step)
    ensures NoneOwes(threads + [t]) <==> NoneOwes(threads) && !Owes(t)
  {
    assert (threads + [t])[|threads|] == t;
    forall j | 0 <= j < |threads| ensures (threads + [t])[j] == threads[j] {
    }
  }

  lemma NoneOwesAfterNotify(threads: seq<Step>)
    ensures NoneOwes(NotifyAll(threads)) <==> NoneOwes(threads)
  {
    forall j | 0 <= j < |threads| ensures Owes(NotifyAll(threads)[j]) <==> Owes(threads[j]) {
    }
  }

  lemma OrphanedByCaller(s: Sniffer, i: nat, ok: bool)
    requires Inv(s) && i < |s.threads| && !Owes(s.threads[i]) && s.threads[i] != Notify
    ensures Orphaned(Taken(s, i, ok)) <==> Orphaned(s)
  {
    NoneOwesAfterMove(s.threads, i, Taken(s, i, ok).threads[i]);
    assert s.threads[i := s.threads[i]] == s.threads;
  }

  lemma OrphanedByCapture(s: Sniffer, i: nat, ok: bool)
    requires Inv(s) && i < |s.threads| && Owes(s.threads[i]) && s.threads[i] != Spawn
    ensures Orphaned(Taken(s, i, ok)) <==> s.threads[i] == Open && !ok
  {
    NoneOwesAfterMove(s.threads, i, Taken(s, i, ok).threads[i]);
  }

  lemma OrphanedByStep(s: Sniffer, i: nat, ok: bool)
    requires Inv(s) && i < |s.threads|
    ensures Orphaned(Taken(s, i, ok)) <==> Orphaned(s) || (s.threads[i] == Open && !ok)
  {
    if s.threads[i] == Spawn {
      NoneOwesAfterAppend(s.threads[i := Done], Open);
    } else if s.threads[i] == Notify {
      NoneOwesAfterMove(s.threads, i, Done);
      NoneOwesAfterNotify(s.threads[i := Done]);
    } else if Owes(s.threads[i]) {
      OrphanedByCapture(s, i, ok);
    } else {
      OrphanedByCaller(s, i, ok);
    }
  }

  /** A sniffer becomes orphaned exactly when the dump file cannot be opened, and stays so. */
  lemma OrphanedByFailedOpen(s: Sniffer, a: Action)
    requires Inv(s) && Possible(s, a)
    ensures Orphaned(Next(s, a)) <==> Orphaned(s) || (a.Go? && s.threads[a.thread] == Open && !a.ok)
  {
    match a
    case Go(i, ok) => OrphanedByStep(s, i, ok);
    case CallStart => NoneOwesAfterAppend(s.threads, TryStart);
    case CallStop => NoneOwesAfterAppend(s.threads, TryStop);
    case Wake(i) => NoneOwesAfterMove(s.threads, i, Check);
  }

  lemma {:induction false} OrphanedForever(s: Sniffer, actions: seq<Action>)
    requires Inv(s) && Orphaned(s) && CanRun(s, actions)
    ensures Orphaned(Run(s, actions))
    decreases |actions|
  {
    if actions != [] {
      InvNext(s, actions[0]);
      OrphanedByFailedOpen(s, actions[0]);
      OrphanedForever(Next(s, actions[0]), actions[1..]);
    }
  }

  /** The thread waits in stop_capture. */
  predicate Waits(t: Step) {
    t == Check || t == Block || t == Blocked
  }

  /** A caller that waits for an orphaned sniffer never gets any further. */
  lemma {:induction false} OrphanedCallerWaitsForever(s: Sniffer, actions: seq<Action>, i: nat)
    requires Inv(s) && Orphaned(s) && s.state == Stopping && CanRun(s, actions)
    requires i < |s.threads| && Waits(s.threads[i])
    ensures var r := Run(s, actions); r.state == Stopping && i < |r.threads| && Waits(r.threads[i])
    decreases |actions|
  {
    if actions != [] {
      var next := Next(s, actions[0]);
      InvNext(s, actions[0]);
      OrphanedByFailedOpen(s, actions[0]);
      assert next.state == Stopping;
      assert i < |next.threads| && Waits(next.threads[i]);
      OrphanedCallerWaitsForever(next, actions[1..], i);
    }
  }

  lemma {:induction false} RunOfAppend(s: Sniffer, a: seq<Action>, b: seq<Action>)
    requires CanRun(s, a) && CanRun(Run(s, a), b)
    ensures CanRun(s, a + b) && Run(s, a + b) == Run(Run(s, a), b)
    decreases |a|
  {
    if a == [] {
      assert a + b == b;
    } else {
      RunOfAppend(Next(s, a[0]), a[1..], b);
      assert (a + b)[1..] == a[1..] + b;
    }
  }

  /** A continuation by the threads that exist: no further calls and no spurious wake-ups. */
  predicate ByItself(actions: seq<Action>) {
    forall k | 0 <= k < |actions| :: actions[k].Go?
  }

  lemma RunOfOneMore(s: Sniffer, a: Action, rest: seq<Action>)
    requires Possible(s, a) && CanRun(Next(s, a), rest)
    ensures CanRun(s, [a] + rest) && Run(s, [a] + rest) == Run(Next(s, a), rest)
  {
    assert ([a] + rest)[1..] == rest;
  }

  lemma ByItselfAppend(a: seq<Action>, b: seq<Action>)
    requires ByItself(a) && ByItself(b)
    ensures ByItself(a + b)
  {
  }

  /** Steps until a capture thread acknowledges, if it is stopped or its next dispatch fails. */
  function Distance(t: Step, state: SnifferState): nat {
    match t
    case Spawn => 7
    case Open => 6
    case Load => if state == Stopping then 3 else 5
    case Dispatch => 4
    case Fail => 3
    case Close => 2
    case _ => 1
  }

  /**
   * The capture thread's own steps lead to STOPPED: once a stop has been requested if nothing fails,
   * and in RUNNING if a dispatch fails. The thread, or the one it spawns, is then about to notify.
   */
  lemma {:induction false} Drain(s: Sniffer, i: nat) returns (actions: seq<Action>, k: nat)
    requires Inv(s) && i < |s.threads| && Owes(s.threads[i])
    ensures ByItself(actions) && CanRun(s, actions)
    ensures var r := Run(s, actions);
            && r.state == Stopped && r.enabled && |s.threads| <= |r.threads|
            && k < |r.threads| && r.threads[k] == Notify
            && forall j | 0 <= j < |s.threads| && j != i :: r.threads[j] == s.threads[j]
    decreases Distance(s.threads[i], s.state)
  {
    var a := Go(i, s.state == Stopping || s.threads[i] != Dispatch);
    var next := Next(s, a);
    var rest: seq<Action>;
    if s.threads[i] == Acknowledge {
      rest, k := [], i;
      assert Run(next, []) == next;
    } else {
      InvNext(s, a);
      rest, k := Drain(next, if s.threads[i] == Spawn then |s.threads| else i);
    }
    RunOfOneMore(s, a, rest);
    ByItselfAppend([a], rest);
    actions := [a] + rest;
  }

  /** From STOPPED, a further call of stop_capture leads to STANDBY. */
  lemma ResetFromStopped(s: Sniffer, i: nat) returns (actions: seq<Action>)
    requires s.state == Stopped && i < |s.threads| && s.threads[i] == Look
    ensures CanRun(s, actions) && Run(s, actions).state == Standby
  {
    actions := [Go(i, true), Go(i, true)];
    var next := Next(s, actions[0]);
    assert actions[1..] == [Go(i, true)] && actions[1..][1..] == [];
    assert Run(Next(next, Go(i, true)), []).state == Standby;
  }

  lemma AskToStop(s: Sniffer) returns (actions: seq<Action>)
    requires Inv(s) && s.enabled
    ensures CanRun(s, actions)
    ensures Run(s, actions) == Exchange(s, Running, Stopping).(threads := s.threads + [Look])
  {
    var i := |s.threads|;
    actions := [CallStop, Go(i, true)];
    var called := Next(s, CallStop);
    assert actions[1..] == [Go(i, true)] && actions[1..][1..] == [];
    assert (s.threads + [TryStop])[i := Look] == s.threads + [Look];
    var asked := Next(called, Go(i, true));
    assert asked == Exchange(s, Running, Stopping).(threads := s.threads + [Look]);
    assert Run(asked, []) == asked;
  }

  /** Unless it is orphaned, the sniffer can be brought back to STANDBY by one call of stop_capture. */
  lemma WayBack(s: Sniffer) returns (actions: seq<Action>)
    requires Inv(s) && s.enabled && !Orphaned(s)
    ensures CanRun(s, actions) && Run(s, actions).state == Standby
  {
    if s.state == Standby {
      return [];
    }
    var n := |s.threads|;
    actions := AskToStop(s);
    var asked := Run(s, actions);
    InvRun(s, actions);
    var stopped := asked;
    if s.state != Stopped {
      var i :| 0 <= i < n && Owes(s.threads[i]);
      assert asked.threads[i] == s.threads[i];
      var drain, k := Drain(asked, i);
      RunOfAppend(s, actions, drain);
      actions := actions + drain;
      stopped := Run(asked, drain);
    }
    var reset := ResetFromStopped(stopped, n);
    RunOfAppend(s, actions, reset);
    actions := actions + reset;
  }

  /** The sniffer can come back to STANDBY, and so capture again, exactly if it is not orphaned. */
  lemma ReturnsUnlessOrphaned(s: Sniffer)
    requires Inv(s) && s.enabled
    ensures (exists actions :: CanRun(s, actions) && Run(s, actions).state == Standby) <==> !Orphaned(s)
  {
    if Orphaned(s) {
      forall actions | CanRun(s, actions) ensures Run(s, actions).state != Standby {
        OrphanedForever(s, actions);
      }
    } else {
      var actions := WayBack(s);
    }
  }

  // ---------------------------------------------------------------------------
  // When a caller that went to sleep is woken
  // ---------------------------------------------------------------------------

  /** The caller has found STOPPING, and is about to sleep or asleep. */
  predicate Sleepy(t: Step) {
    t == Block || t == Blocked
  }

  /** The thread is about to notify, or owes a capture at whose end it notifies. */
  predicate Helps(t: Step) {
    t == Notify || Owes(t)
  }

  predicate SomeHelps(threads: seq<Step>) {
    exists j | 0 <= j < |threads| :: Helps(threads[j])
  }

  /** A notification is on its way. */
  predicate Pending(s: Sniffer) {
    SomeHelps(s.threads)
  }

  /** The caller is on the way to resetting the state. */
  predicate WillReset(t: Step) {
    t == TryStop || t == Look || t == Check || t == Reset
  }

  /** The threads that exist can still start a capture: one wants to, and the state is STANDBY or will be reset. */
  predicate CanStart(s: Sniffer) {
    && s.enabled && TryStart in s.threads
    && (s.state == Standby || (s.state == Stopped && exists j | 0 <= j < |s.threads| :: WillReset(s.threads[j])))
  }

  /** Nobody will wake the sleepers. */
  predicate Forsaken(s: Sniffer) {
    !Pending(s) && !CanStart(s)
  }

  /** The threads that exist cannot change this, and nobody who sleeps is woken. */
  lemma ForsakenStep(s: Sniffer, i: nat, a: Action)
    requires Inv(s) && Forsaken(s) && Possible(s, a) && a.Go? && i < |s.threads| && Sleepy(s.threads[i])
    ensures var s' := Next(s, a); Forsaken(s') && i < |s'.threads| && Sleepy(s'.threads[i])
  {
    var k := a.thread;
    var s' := Next(s, a);
    assert !Helps(s.threads[k]);
    assert |s'.threads| == |s.threads|;
    forall j | 0 <= j < |s'.threads|
      ensures !Helps(s'.threads[j])
      ensures j != k ==> s'.threads[j] == s.threads[j]
      ensures WillReset(s'.threads[j]) ==> WillReset(s.threads[j])
      ensures s'.threads[j] == TryStart ==> s.threads[j] == TryStart
    {
    }
  }

  lemma {:induction false} ForsakenForGood(s: Sniffer, i: nat, actions: seq<Action>)
    requires Inv(s) && Forsaken(s) && CanRun(s, actions) && ByItself(actions)
    requires i < |s.threads| && Sleepy(s.threads[i])
    ensures var r := Run(s, actions); i < |r.threads| && Sleepy(r.threads[i])
    decreases |actions|
  {
    if actions != [] {
      InvNext(s, actions[0]);
      ForsakenStep(s, i, actions[0]);
      assert forall k | 0 <= k < |actions[1..]| :: actions[1..][k] == actions[k + 1];
      ForsakenForGood(Next(s, actions[0]), i, actions[1..]);
    }
  }

  /** Thread `k` is about to notify: whoever is asleep by then is woken. */
  lemma NotifierWakes(s: Sniffer, i: nat, k: nat) returns (actions: seq<Action>)
    requires i < |s.threads| && k < |s.threads| && Sleepy(s.threads[i]) && s.threads[k] == Notify
    ensures ByItself(actions) && CanRun(s, actions)
    ensures i < |Run(s, actions).threads| && !Sleepy(Run(s, actions).threads[i])
  {
    var asleep := if s.threads[i] == Block then Next(s, Go(i, true)) else s;
    assert asleep.threads[i] == Blocked && asleep.threads[k] == Notify;
    var woken := Next(asleep, Go(k, true));
    assert woken.threads[i] == Check;
    assert Run(woken, []) == woken;
    RunOfOneMore(asleep, Go(k, true), []);
    actions := [Go(k, true)] + [];
    if s.threads[i] == Block {
      RunOfOneMore(s, Go(i, true), actions);
      actions := [Go(i, true)] + actions;
    }
  }

  /** A pending notification can reach whoever sleeps or is about to. */
  lemma PendingCanWake(s: Sniffer, i: nat) returns (actions: seq<Action>)
    requires Inv(s) && Pending(s) && i < |s.threads| && Sleepy(s.threads[i])
    ensures ByItself(actions) && CanRun(s, actions)
    ensures i < |Run(s, actions).threads| && !Sleepy(Run(s, actions).threads[i])
  {
    var j :| 0 <= j < |s.threads| && Helps(s.threads[j]);
    if s.threads[j] == Notify {
      actions := NotifierWakes(s, i, j);
    } else {
      var drain, k := Drain(s, j);
      var rest := NotifierWakes(Run(s, drain), i, k);
      RunOfAppend(s, drain, rest);
      ByItselfAppend(drain, rest);
      actions := drain + rest;
    }
  }

  /** A caller on its way to the reset brings STOPPED back to STANDBY. */
  lemma ResetterArrives(s: Sniffer, k: nat) returns (actions: seq<Action>)
    requires s.enabled && s.state == Stopped && k < |s.threads| && WillReset(s.threads[k])
    ensures ByItself(actions) && CanRun(s, actions)
    ensures var r := Run(s, actions);
            && r.enabled && r.state == Standby && |r.threads| == |s.threads|
            && forall j | 0 <= j < |s.threads| && j != k :: r.threads[j] == s.threads[j]
    decreases match s.threads[k] { case TryStop => 3 case Look => 2 case Check => 2 case _ => 1 }
  {
    var next := Next(s, Go(k, true));
    var rest: seq<Action> := [];
    if s.threads[k] != Reset {
      rest := ResetterArrives(next, k);
    } else {
      assert Run(next, []) == next;
    }
    RunOfOneMore(s, Go(k, true), rest);
    actions := [Go(k, true)] + rest;
  }

  /** A start that can still happen leads to a new capture, and so to a pending notification. */
  lemma StartMakesPending(s: Sniffer, i: nat) returns (actions: seq<Action>)
    requires Inv(s) && CanStart(s) && i < |s.threads| && Sleepy(s.threads[i])
    ensures ByItself(actions) && CanRun(s, actions)
    ensures var r := Run(s, actions); Pending(r) && i < |r.threads| && Sleepy(r.threads[i])
  {
    var t :| 0 <= t < |s.threads| && s.threads[t] == TryStart;
    var standby := s;
    actions := [];
    if s.state == Stopped {
      var k :| 0 <= k < |s.threads| && WillReset(s.threads[k]);
      actions := ResetterArrives(s, k);
      standby := Run(s, actions);
    }
    var started := Next(standby, Go(t, true));
    assert started.threads[t] == Spawn && Helps(started.threads[t]);
    assert Run(started, []) == started;
    RunOfOneMore(standby, Go(t, true), []);
    RunOfAppend(s, actions, [Go(t, true)] + []);
    ByItselfAppend(actions, [Go(t, true)] + []);
    actions := actions + ([Go(t, true)] + []);
  }

  lemma CanBeWoken(s: Sniffer, i: nat) returns (actions: seq<Action>)
    requires Inv(s) && !Forsaken(s) && i < |s.threads| && Sleepy(s.threads[i])
    ensures ByItself(actions) && CanRun(s, actions)
    ensures i < |Run(s, actions).threads| && !Sleepy(Run(s, actions).threads[i])
  {
    if Pending(s) {
      actions := PendingCanWake(s, i);
    } else {
      var start := StartMakesPending(s, i);
      InvRun(s, start);
      var rest := PendingCanWake(Run(s, start), i);
      RunOfAppend(s, start, rest);
      ByItselfAppend(start, rest);
      actions := start + rest;
    }
  }

  /** The caller is asleep, or about to be, whatever the existing threads do. */
  ghost predicate Stranded(s: Sniffer, i: nat) {
    forall actions | CanRun(s, actions) && ByItself(actions) ::
      i < |Run(s, actions).threads| && Sleepy(Run(s, actions).threads[i])
  }

  /**
   * A caller of stop_capture that found STOPPING and sleeps, or is about to, is stranded exactly if
   * no thread is about to notify, no capture is owed, and the existing threads cannot start one.
   */
  lemma StrandedExactly(s: Sniffer, i: nat)
    requires Inv(s) && i < |s.threads| && Sleepy(s.threads[i])
    ensures Stranded(s, i) <==> Forsaken(s)
  {
    if Forsaken(s) {
      forall actions | CanRun(s, actions) && ByItself(actions)
        ensures i < |Run(s, actions).threads| && Sleepy(Run(s, actions).threads[i])
      {
        ForsakenForGood(s, i, actions);
      }
    } else {
      var actions := CanBeWoken(s, i);
      assert !(i < |Run(s, actions).threads| && Sleepy(Run(s, actions).threads[i]));
    }
  }

  /** Thread `k` alone keeps a notification pending. */
  predicate Only(threads: seq<Step>, k: nat) {
    forall j | 0 <= j < |threads| && j != k :: !Helps(threads[j])
  }

  lemma HelpAfterMove(threads: seq<Step>, k: nat, next: Step)
    requires k < |threads|
    ensures SomeHelps(threads[k := next]) <==> Helps(next) || !Only(threads, k)
  {
    var moved := threads[k := next];
    assert moved[k] == next;
    assert forall j | 0 <= j < |threads| && j != k :: moved[j] == threads[j];
  }

  lemma HelpAfterNotify(threads: seq<Step>)
    ensures SomeHelps(NotifyAll(threads)) <==> SomeHelps(threads)
  {
    assert forall j | 0 <= j < |threads| :: Helps(NotifyAll(threads)[j]) <==> Helps(threads[j]);
  }

  /** A thread that helps goes on helping, unless it gives the notification or cannot open the dump file. */
  lemma OwnStep(s: Sniffer, k: nat, ok: bool)
    requires Inv(s) && k < |s.threads| && Helps(s.threads[k]) && s.threads[k] != Notify && s.threads[k] != Spawn
    ensures Helps(Taken(s, k, ok).threads[k]) <==> !(s.threads[k] == Open && !ok)
    ensures Taken(s, k, ok).threads == s.threads[k := Taken(s, k, ok).threads[k]]
  {
  }

  lemma BystandersStep(s: Sniffer, k: nat, ok: bool)
    requires Inv(s) && k < |s.threads| && !Helps(s.threads[k])
    ensures Taken(s, k, ok).threads == s.threads[k := Taken(s, k, ok).threads[k]]
  {
    assert s.threads[k := s.threads[k]] == s.threads;
  }

  /** The last pending notification goes by being given, or with a dump file that cannot be opened. */
  lemma PendingEndsExactly(s: Sniffer, k: nat, ok: bool)
    requires Inv(s) && Pending(s) && k < |s.threads|
    ensures !Pending(Taken(s, k, ok)) <==>
              Only(s.threads, k) && (s.threads[k] == Notify || (s.threads[k] == Open && !ok))
  {
    var s' := Taken(s, k, ok);
    if s.threads[k] == Spawn {
      assert s'.threads[|s.threads|] == Open && Helps(s'.threads[|s.threads|]);
    } else if s.threads[k] == Notify {
      HelpAfterNotify(s.threads[k := Done]);
      HelpAfterMove(s.threads, k, Done);
    } else {
      if Helps(s.threads[k]) {
        OwnStep(s, k, ok);
      } else {
        BystandersStep(s, k, ok);
      }
      HelpAfterMove(s.threads, k, s'.threads[k]);
    }
  }

  /**
   * The step that loses a notification: the only thread that keeps it pending fails to open the
   * dump file, or notifies while the caller has tested the state but does not sleep yet.
   */
  lemma NotificationIsLostExactly(s: Sniffer, i: nat, k: nat, ok: bool)
    requires Inv(s) && Pending(s) && i < |s.threads| && k < |s.threads| && Sleepy(s.threads[i])
    ensures !Pending(Taken(s, k, ok)) && Sleepy(Taken(s, k, ok).threads[i]) <==>
              Only(s.threads, k) && ((s.threads[k] == Open && !ok) || (s.threads[k] == Notify && s.threads[i] == Block))
  {
    PendingEndsExactly(s, k, ok);
  }

  /** No thread can move by itself: only a spurious wake-up or a further call can change anything. */
  predicate AtRest(s: Sniffer) {
    forall i, ok | 0 <= i < |s.threads| :: Taken(s, i, ok) == s
  }

  /** The caller has found STOPPING and is about to sleep while the capture thread is about to acknowledge. */
  const WINDOW := Sniffer(true, Stopping, [Done, Acknowledge, Block])

  lemma WindowIsReachable(s: Sniffer) returns (actions: seq<Action>)
    requires Initial(s) && s.enabled
    ensures CanRun(s, actions) && Run(s, actions) == WINDOW
  {
    var s1, s2 := Sniffer(true, Standby, [TryStart]), Sniffer(true, Running, [Spawn]);
    var s3, s4 := Sniffer(true, Running, [Done, Open]), Sniffer(true, Running, [Done, Load]);
    var s5, s6 := Sniffer(true, Running, [Done, Load, TryStop]), Sniffer(true, Stopping, [Done, Load, Look]);
    var s7, s8 := Sniffer(true, Stopping, [Done, Load, Check]), Sniffer(true, Stopping, [Done, Load, Block]);
    var s9 := Sniffer(true, Stopping, [Done, Close, Block]);
    assert Next(s, CallStart) == s1 && Next(s1, Go(0, true)) == s2;
    assert Next(s2, Go(0, true)) == s3 && Next(s3, Go(1, true)) == s4;
    assert Next(s4, CallStop) == s5 && Next(s5, Go(2, true)) == s6;
    assert Next(s6, Go(2, true)) == s7 && Next(s7, Go(2, true)) == s8;
    assert Next(s8, Go(1, true)) == s9 && Next(s9, Go(1, true)) == WINDOW;
    actions := [];
    RunOfOneMore(s9, Go(1, true), actions);
    actions := [Go(1, true)] + actions;
    RunOfOneMore(s8, Go(1, true), actions);
    actions := [Go(1, true)] + actions;
    RunOfOneMore(s7, Go(2, true), actions);
    actions := [Go(2, true)] + actions;
    RunOfOneMore(s6, Go(2, true), actions);
    actions := [Go(2, true)] + actions;
    RunOfOneMore(s5, Go(2, true), actions);
    actions := [Go(2, true)] + actions;
    RunOfOneMore(s4, CallStop, actions);
    actions := [CallStop] + actions;
    RunOfOneMore(s3, Go(1, true), actions);
    actions := [Go(1, true)] + actions;
    RunOfOneMore(s2, Go(0, true), actions);
    actions := [Go(0, true)] + actions;
    RunOfOneMore(s1, Go(0, true), actions);
    actions := [Go(0, true)] + actions;
    RunOfOneMore(s, CallStart, actions);
    actions := [CallStart] + actions;
  }

  /**
   * The notification of a finished capture can be lost: the capture thread takes no lock, so it
   * may acknowledge and notify between a caller's test of the state and its going to sleep. The
   * caller then sleeps although the capture has stopped.
   */
  lemma NotificationCanBeLost(s: Sniffer) returns (actions: seq<Action>)
    requires Initial(s) && s.enabled
    ensures CanRun(s, actions)
    ensures var r := Run(s, actions); r.state == Stopped && r.threads == [Done, Done, Blocked] && AtRest(r)
  {
    actions := WindowIsReachable(s);
    var s1, s2 := Sniffer(true, Stopped, [Done, Notify, Block]), Sniffer(true, Stopped, [Done, Done, Block]);
    var r := Sniffer(true, Stopped, [Done, Done, Blocked]);
    assert Next(WINDOW, Go(1, true)) == s1;
    assert Next(s1, Go(1, true)) == s2 && Next(s2, Go(2, true)) == r;
    var last := [];
    RunOfOneMore(s2, Go(2, true), last);
    last := [Go(2, true)] + last;
    RunOfOneMore(s1, Go(1, true), last);
    last := [Go(1, true)] + last;
    RunOfOneMore(WINDOW, Go(1, true), last);
    last := [Go(1, true)] + last;
    RunOfAppend(s, actions, last);
    actions := actions + last;
  }
}
