/**
 * Reading one frame of the V2G transport protocol from a TCP stream: the loop that collects
 * the requested number of bytes from a socket that delivers them in arbitrary pieces, and the
 * reading of header and payload into the connection's buffer.
 */
module Framing {
  import opened Durations
  import opened Timespecs
  import opened Wrappers

  type Byte = bv8

  /** A payload length as the header carries it. */
  type U32 = n: nat | n < 0x1_0000_0000

  const V2GTP_HEADER_LENGTH := 8
  const DEFAULT_BUFFER_SIZE := 8192
  const UINT32_MAX := 0xFFFF_FFFF
  const SEQUENCE_TIMEOUT_MS := 60_000

  /** What the socket answers to one attempt to read. */
  datatype Poll = Interrupted | SelectFailed | NothingReady | ReadFailed | Ready(most: nat)

  /** One pass of the read loop: the clock, unless it fails, the connection's flags and the socket. */
  datatype Look = Look(now: Option<Timespec>, terminated: bool, forced: bool, poll: Poll)

  /** The flags as they are read again after the loop. */
  datatype Flags = Flags(terminated: bool, forced: bool)

  /** What the surroundings contribute to one call of the read function. */
  datatype Attempt = Attempt(start: Option<Timespec>, looks: seq<Look>, after: Flags)

  datatype Outcome = Outcome(rv: int, taken: nat)

  predicate TimedOut(start: Timespec, now: Option<Timespec>) {
    now == None || Nanoseconds(now.value) - Nanoseconds(start) >= (SEQUENCE_TIMEOUT_MS + 1) * NS_PER_MS
  }

  /** What the socket delivers: at most what is asked for and what the peer has sent. */
  function Delivered(poll: Poll, wanted: nat, available: nat): (n: nat)
    ensures n <= wanted && n <= available
  {
    match poll
    case Ready(most) =>
      if most <= wanted && most <= available then most else if wanted <= available then wanted else available
    case _ => 0
  }

  /** The socket fails, or the peer has closed it. */
  predicate Stops(poll: Poll, n: nat) {
    poll == SelectFailed || poll == ReadFailed || (poll.Ready? && n == 0)
  }

  /** The sequence timeout has passed, or the connection is terminated and no exchange is forced. */
  predicate Ends(start: Timespec, look: Look) {
    TimedOut(start, look.now) || (look.terminated && !look.forced)
  }

  /**
   * What a call of the read function returns and how many bytes it takes, when `got` of the
   * `available` bytes have been taken before its pass `i`.
   */
  function Reading(start: Timespec, a: Attempt, count: nat, available: nat, i: nat, got: nat): (o: Outcome)
    requires i <= |a.looks| && got <= count && got <= available
    ensures o.taken <= count && o.taken <= available
    ensures o.rv == o.taken || o.rv == -1 || o.rv == -2
    decreases |a.looks| - i
  {
    if got == count || i == |a.looks| || Ends(start, a.looks[i]) then
      Outcome(if a.after.terminated && !a.after.forced then -2 else got, got)
    else
      var poll := a.looks[i].poll;
      var n := Delivered(poll, count - got, available - got);
      if Stops(poll, n) then Outcome(if poll.Ready? then got else -1, got)
      else Reading(start, a, count, available, i + 1, got + n)
  }

  function Read(a: Attempt, count: nat, available: nat): Outcome {
    if a.start == None then Outcome(-1, 0) else Reading(a.start.value, a, count, available, 0, 0)
  }

  /** Passes, from pass `i` on, in which the socket has something to deliver. */
  function Deliveries(a: Attempt, i: nat): nat
    requires i <= |a.looks|
    decreases |a.looks| - i
  {
    if i == |a.looks| then 0 else (if a.looks[i].poll.Ready? then 1 else 0) + Deliveries(a, i + 1)
  }

  /** Nothing ends the attempt: no timeout, no termination, no error, and no piece is empty. */
  predicate Undisturbed(start: Timespec, a: Attempt) {
    && (forall i | 0 <= i < |a.looks| :: !Ends(start, a.looks[i]))
    && (forall i | 0 <= i < |a.looks| :: a.looks[i].poll in {Interrupted, NothingReady}
                                         || (a.looks[i].poll.Ready? && a.looks[i].poll.most > 0))
    && !(a.after.terminated && !a.after.forced)
  }

  /**
   * If the peer has sent enough and nothing disturbs the attempt, it succeeds however the bytes
   * are split: it returns the requested count and takes exactly that many bytes.
   */
  lemma {:induction false} SplittingDoesNotMatter(start: Timespec, a: Attempt, count: nat, available: nat,
                                                  i: nat, got: nat)
    requires Undisturbed(start, a) && i <= |a.looks| && got <= count <= available
    requires Deliveries(a, i) >= count - got
    ensures Reading(start, a, count, available, i, got) == Outcome(count, count)
    decreases |a.looks| - i
  {
    if i < |a.looks| && got < count {
      SplittingDoesNotMatter(start, a, count, available, i + 1,
                             got + Delivered(a.looks[i].poll, count - got, available - got));
    }
  }

  method IsSequenceTimeout(start: Timespec, now: Option<Timespec>) returns (timeout: bool)
    ensures timeout == TimedOut(start, now)
  {
    if now == None {
      return true;
    }
    var elapsed := Sub(now.value, start);
    var ms := TimespecToMs(elapsed);
    timeout := ms > SEQUENCE_TIMEOUT_MS;
  }

  // ---------------------------------------------------------------------------
  // The connection
  // ---------------------------------------------------------------------------

  /** A header is valid, and its payload fits the buffer. */
  predicate Acceptable(header: Option<U32>) {
    header.Some? && header.value < UINT32_MAX - V2GTP_HEADER_LENGTH
    && header.value + V2GTP_HEADER_LENGTH <= DEFAULT_BUFFER_SIZE
  }

  /** A buffer has been overwritten at a position by a piece, and is otherwise as it was. */
  ghost predicate Overwritten(was: seq<Byte>, at: nat, piece: seq<Byte>, now: seq<Byte>) {
    && |now| == |was| && at + |piece| <= |now|
    && forall k | 0 <= k < |now| :: now[k] == if at <= k < at + |piece| then piece[k - at] else was[k]
  }

  lemma OverwrittenTwice(a: seq<Byte>, at: nat, p: seq<Byte>, b: seq<Byte>, q: seq<Byte>, c: seq<Byte>)
    requires Overwritten(a, at, p, b) && Overwritten(b, at + |p|, q, c)
    ensures Overwritten(a, at, p + q, c)
  {
  }

  class Connection {
    /** All bytes the peer ever sends. */
    const stream: seq<Byte>
    const readHeader: seq<Byte> -> Option<U32>
    const buffer: array<Byte>
    var consumed: nat
    var payloadLen: nat
    var bytePos: nat
    var dataSize: nat

    constructor (stream: seq<Byte>, readHeader: seq<Byte> -> Option<U32>)
      ensures Valid() && consumed == 0 && this.stream == stream && this.readHeader == readHeader && fresh(buffer)
    {
      this.stream, this.readHeader := stream, readHeader;
      buffer := new Byte[DEFAULT_BUFFER_SIZE](_ => 0);
      consumed, payloadLen, bytePos, dataSize := 0, 0, 0, 0;
    }

    predicate Valid()
      reads this
    {
      buffer.Length == DEFAULT_BUFFER_SIZE && consumed <= |stream|
    }

    /** The socket copies the next bytes of the stream into the buffer. */
    method Copy(at: nat, n: nat)
      requires Valid() && at + n <= buffer.Length && consumed + n <= |stream|
      modifies `consumed, buffer
      ensures Valid() && consumed == old(consumed) + n
      ensures Overwritten(old(buffer[..]), at, stream[old(consumed)..consumed], buffer[..])
    {
      forall k | 0 <= k < n {
        buffer[at + k] := stream[consumed + k];
      }
      consumed := consumed + n;
      forall k | 0 <= k < buffer.Length
        ensures buffer[k] == if at <= k < at + n then stream[old(consumed)..consumed][k - at] else old(buffer[k])
      {
        if at <= k < at + n {
          assert buffer[at + (k - at)] == stream[old(consumed) + (k - at)];
        }
      }
    }

    /** Copies further bytes behind those taken since the stream position `from`. */
    method CopyMore(at: nat, got: nat, n: nat, ghost from: nat, ghost was: seq<Byte>)
      requires Valid() && consumed == from + got && at + got + n <= buffer.Length && consumed + n <= |stream|
      requires Overwritten(was, at, stream[from..consumed], buffer[..])
      modifies `consumed, buffer
      ensures Valid() && consumed == old(consumed) + n
      ensures Overwritten(was, at, stream[from..consumed], buffer[..])
    {
      ghost var middle, first := buffer[..], stream[from..consumed];
      Copy(at + got, n);
      OverwrittenTwice(was, at, first, middle, stream[from + got..consumed], buffer[..]);
      assert first + stream[from + got..consumed] == stream[from..consumed];
    }

    /** Waits for the socket and reads from it once; `got` of the bytes since `from` have been taken before. */
    method PollOnce(poll: Poll, at: nat, got: nat, wanted: nat, ghost from: nat, ghost was: seq<Byte>)
      returns (stop: bool, rv: int, n: nat)
      requires Valid() && consumed == from + got && at + got + wanted <= buffer.Length
      requires Overwritten(was, at, stream[from..consumed], buffer[..])
      modifies `consumed, buffer
      ensures Valid() && consumed == old(consumed) + n
      ensures Overwritten(was, at, stream[from..consumed], buffer[..])
      ensures n == Delivered(poll, wanted, |stream| - old(consumed))
      ensures stop == Stops(poll, n)
      ensures rv == if poll.Ready? then got else -1
    {
      stop, rv, n := false, -1, 0;
      match poll {
        case Interrupted =>
        case NothingReady =>
        case SelectFailed => stop := true;
        case ReadFailed => stop := true;
        case Ready(most) =>
          n := Delivered(poll, wanted, |stream| - consumed);
          stop, rv := n == 0, got;
          CopyMore(at, got, n, from, was);
      }
    }

    /**
     * Reads until `count` bytes have arrived at `at`, the sequence timeout passes or the connection
     * is terminated. However the bytes arrive, those taken are the next bytes of the stream, in
     * order; no other part of the buffer changes.
     */
    method ConnectionRead(a: Attempt, at: nat, count: nat) returns (rv: int)
      requires Valid() && at + count <= buffer.Length
      modifies `consumed, buffer
      ensures Valid()
      ensures rv == Read(a, count, |stream| - old(consumed)).rv
      ensures consumed == old(consumed) + Read(a, count, |stream| - old(consumed)).taken
      ensures Overwritten(old(buffer[..]), at, stream[old(consumed)..consumed], buffer[..])
    {
      if a.start == None {
        return -1;
      }
      var start := a.start.value;
      ghost var available := |stream| - consumed;
      ghost var all := Reading(start, a, count, available, 0, 0);
      var bytesRead: nat := 0;
      var i := 0;
      while bytesRead < count && i < |a.looks|
        invariant Valid() && bytesRead <= count && i <= |a.looks| && consumed == old(consumed) + bytesRead
        invariant Overwritten(old(buffer[..]), at, stream[old(consumed)..consumed], buffer[..])
        invariant bytesRead <= available && Reading(start, a, count, available, i, bytesRead) == all
        decreases |a.looks| - i
      {
        var look := a.looks[i];
        var timeout := IsSequenceTimeout(start, look.now);
        if timeout || (look.terminated && !look.forced) {
          break;
        }
        var stop, result, n := PollOnce(look.poll, at, bytesRead, count - bytesRead, old(consumed), old(buffer[..]));
        if stop {
          return result;
        }
        bytesRead, i := bytesRead + n, i + 1;
      }
      rv := if a.after.terminated && !a.after.forced then -2 else bytesRead;
    }

    /**
     * Reads one frame. If it is accepted, the buffer starts with exactly the next header and payload
     * of the peer's stream, however the socket split them, and nothing beyond has been consumed.
     */
    method IncomingV2gtp(header: Attempt, payload: Attempt) returns (rv: int)
      requires Valid()
      modifies this, buffer
      ensures Valid() && rv in {0, 1, -1}
      ensures rv == 0 ==>
                var start := old(consumed);
                && start + V2GTP_HEADER_LENGTH <= |stream|
                && var length := readHeader(stream[start..start + V2GTP_HEADER_LENGTH]);
                   && Acceptable(length) && payloadLen == length.value
                   && consumed == start + V2GTP_HEADER_LENGTH + payloadLen
                   && buffer[..V2GTP_HEADER_LENGTH + payloadLen] == stream[start..consumed]
                   && bytePos == V2GTP_HEADER_LENGTH && dataSize == V2GTP_HEADER_LENGTH + payloadLen
      ensures rv == 1 <==> Read(header, V2GTP_HEADER_LENGTH, |stream| - old(consumed)).rv == 0
      ensures rv == 0 <==>
                && Read(header, V2GTP_HEADER_LENGTH, |stream| - old(consumed)).rv == V2GTP_HEADER_LENGTH
                && var length := readHeader(stream[old(consumed)..old(consumed) + V2GTP_HEADER_LENGTH]);
                   && Acceptable(length)
                   && Read(payload, length.value, |stream| - old(consumed) - V2GTP_HEADER_LENGTH).rv == length.value
    {
      ghost var start := consumed;
      rv := ConnectionRead(header, 0, V2GTP_HEADER_LENGTH);
      if rv < 0 {
        return -1;
      }
      if rv == 0 {
        return 1;
      }
      if rv != V2GTP_HEADER_LENGTH {
        return -1;
      }
      ghost var head := stream[start..start + V2GTP_HEADER_LENGTH];
      assert buffer[..V2GTP_HEADER_LENGTH] == head;
      var length := readHeader(buffer[..V2GTP_HEADER_LENGTH]);
      if length == None {
        return -1;
      }
      payloadLen := length.value;
      if payloadLen >= UINT32_MAX - V2GTP_HEADER_LENGTH {
        return -1;
      }
      if payloadLen + V2GTP_HEADER_LENGTH > DEFAULT_BUFFER_SIZE {
        return -1;
      }
      ghost var was := buffer[..];
      rv := ConnectionRead(payload, V2GTP_HEADER_LENGTH, payloadLen);
      if rv < 0 {
        return -1;
      }
      if rv != payloadLen {
        return -1;
      }
      bytePos := V2GTP_HEADER_LENGTH;
      dataSize := payloadLen + V2GTP_HEADER_LENGTH;
      assert buffer[..V2GTP_HEADER_LENGTH] == head;
      assert buffer[..V2GTP_HEADER_LENGTH + payloadLen] == head + stream[start + V2GTP_HEADER_LENGTH..consumed];
      rv := 0;
    }
  }
}
