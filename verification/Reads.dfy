/**
 * What one call of the read function does, told from its passes alone: how many bytes it has
 * taken before each of them, which pass ends it, and what it returns then.
 */
module Reads {
  import opened Framing
  import opened Timespecs
  import opened Wrappers

  const MILLISECOND := 1_000_000

  function Least(a: nat, b: nat, c: nat): nat {
    var d := if a <= b then a else b;
    if d <= c then d else c
  }

  /** How many bytes the socket has offered before a pass, whether or not there was room for them. */
  function Offered(looks: seq<Look>, i: nat): nat
    requires i <= |looks|
  {
    if i == 0 then 0
    else Offered(looks, i - 1) + match looks[i - 1].poll case Ready(most) => most case _ => 0
  }

  /** How many bytes have been taken before a pass: all that were offered, sent and asked for. */
  function TakenBefore(looks: seq<Look>, i: nat, count: nat, available: nat): nat
    requires i <= |looks|
  {
    Least(Offered(looks, i), available, count)
  }

  /** The call does not wait any longer: 60.001 s have passed, the clock fails, or the connection is terminated. */
  predicate GivesUp(start: Timespec, look: Look) {
    || look.now == None
    || Nanoseconds(look.now.value) >= Nanoseconds(start) + 60_001 * MILLISECOND
    || (look.terminated && !look.forced)
  }

  predicate Fails(look: Look) {
    look.poll == SelectFailed || look.poll == ReadFailed
  }

  /** The socket is ready, but there is nothing to read: the peer has closed the connection. */
  predicate FindsClosed(looks: seq<Look>, i: nat, available: nat)
    requires i < |looks|
  {
    looks[i].poll.Ready? && (looks[i].poll.most == 0 || Offered(looks, i) >= available)
  }

  /** The call comes to an end at pass `i`, before it takes a byte. */
  predicate EndsAt(start: Timespec, a: Attempt, count: nat, available: nat, i: nat)
    requires i <= |a.looks|
  {
    || i == |a.looks| || TakenBefore(a.looks, i, count, available) == count
    || GivesUp(start, a.looks[i]) || Fails(a.looks[i]) || FindsClosed(a.looks, i, available)
  }

  /** The first pass, from `i` on, at which the call ends. */
  function EndOf(start: Timespec, a: Attempt, count: nat, available: nat, i: nat): (e: nat)
    requires i <= |a.looks|
    ensures i <= e <= |a.looks| && EndsAt(start, a, count, available, e)
    ensures forall j | i <= j < e :: !EndsAt(start, a, count, available, j)
    decreases |a.looks| - i
  {
    if EndsAt(start, a, count, available, i) then i else EndOf(start, a, count, available, i + 1)
  }

  /** What the call returns when it ends at pass `e`. */
  function Returned(start: Timespec, a: Attempt, count: nat, available: nat, e: nat): int
    requires e <= |a.looks|
  {
    var taken := TakenBefore(a.looks, e, count, available);
    if taken < count && e < |a.looks| && !GivesUp(start, a.looks[e]) then if Fails(a.looks[e]) then -1 else taken
    else if a.after.terminated && !a.after.forced then -2
    else taken
  }

  lemma PieceIsTaken(looks: seq<Look>, i: nat, count: nat, available: nat)
    requires i < |looks| && TakenBefore(looks, i, count, available) < count
    requires looks[i].poll.Ready? ==> Offered(looks, i) < available
    ensures var taken := TakenBefore(looks, i, count, available);
            TakenBefore(looks, i + 1, count, available)
            == taken + Delivered(looks[i].poll, count - taken, available - taken)
  {
  }

  lemma EndsAtPass(start: Timespec, a: Attempt, count: nat, available: nat, i: nat)
    requires i < |a.looks| && TakenBefore(a.looks, i, count, available) < count
    ensures var look, taken := a.looks[i], TakenBefore(a.looks, i, count, available);
            && (Ends(start, look) <==> GivesUp(start, look))
            && (Stops(look.poll, Delivered(look.poll, count - taken, available - taken)) <==>
                  Fails(look) || FindsClosed(a.looks, i, available))
  {
  }

  lemma {:induction false} ReadingExactly(start: Timespec, a: Attempt, count: nat, available: nat, i: nat)
    requires i <= |a.looks|
    ensures var e := EndOf(start, a, count, available, i);
            Reading(start, a, count, available, i, TakenBefore(a.looks, i, count, available))
            == Outcome(Returned(start, a, count, available, e), TakenBefore(a.looks, e, count, available))
    decreases |a.looks| - i
  {
    if i < |a.looks| && TakenBefore(a.looks, i, count, available) < count {
      EndsAtPass(start, a, count, available, i);
    }
    if !EndsAt(start, a, count, available, i) {
      PieceIsTaken(a.looks, i, count, available);
      ReadingExactly(start, a, count, available, i + 1);
    }
  }

  /**
   * A call takes what the passes before the first ending one offer, as far as it has been sent and asked
   * for: never a byte from the pass on in which the timeout has passed. It returns that number, -2 if
   * the connection is terminated, or -1 if the socket or the first reading of the clock failed.
   */
  lemma ReadExactly(a: Attempt, count: nat, available: nat)
    ensures Read(a, count, available)
         == match a.start
            case None => Outcome(-1, 0)
            case Some(start) =>
              var e := EndOf(start, a, count, available, 0);
              Outcome(Returned(start, a, count, available, e), TakenBefore(a.looks, e, count, available))
  {
    if a.start.Some? {
      ReadingExactly(a.start.value, a, count, available, 0);
    }
  }

  lemma {:induction false} OffersGrow(looks: seq<Look>, i: nat, j: nat)
    requires i <= j <= |looks|
    ensures Offered(looks, i) <= Offered(looks, j)
  {
    if i < j {
      OffersGrow(looks, i, j - 1);
    }
  }

  /** From a pass on in which the timeout has passed, no byte is taken; what was taken before is returned, or -2. */
  lemma TimeoutEndsReading(start: Timespec, a: Attempt, count: nat, available: nat, i: nat)
    requires a.start == Some(start) && i < |a.looks| && GivesUp(start, a.looks[i])
    ensures var o, before := Read(a, count, available), TakenBefore(a.looks, i, count, available);
            && o.taken <= before
            && (EndOf(start, a, count, available, 0) == i ==>
                  o == Outcome(if a.after.terminated && !a.after.forced then -2 else before, before))
  {
    var e := EndOf(start, a, count, available, 0);
    assert EndsAt(start, a, count, available, i);
    ReadExactly(a, count, available);
    OffersGrow(a.looks, e, i);
  }

  /** A header is accepted exactly if its payload fits behind it into the buffer of 8192 bytes. */
  lemma AcceptableExactly(header: Option<U32>)
    ensures Acceptable(header) <==> header.Some? && 8 + header.value <= 8192
  {
  }
}
