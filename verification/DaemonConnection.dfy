/** One connection to the daemon: a growable byte buffer fed by arbitrary chunks
    until one request line is admitted or the connection is rejected. */
module DaemonConnection {

  type Byte = b: int | 0 <= b < 256

  const MAX_DAEMON_REQUEST_BYTES: nat := 1024 * 1024
  const FIRST_CAPACITY: nat := 4096
  const NEWLINE: Byte := 0x0a

  datatype Decision = Waiting | Dispatch(raw: seq<Byte>) | TooLong

  /** How many bytes come before the first newline, or all of them. */
  function LineLength(stream: seq<Byte>): (n: nat)
    ensures n <= |stream| && NEWLINE !in stream[..n]
    ensures n < |stream| ==> stream[n] == NEWLINE
  {
    if stream == [] || stream[0] == NEWLINE then 0
    else
      var n := 1 + LineLength(stream[1..]);
      assert stream[..n] == [stream[0]] + stream[1..][..n - 1];
      n
  }

  /** What a whole stream deserves, however it is cut. */
  function Decide(stream: seq<Byte>): Decision {
    var n := LineLength(stream);
    if n > MAX_DAEMON_REQUEST_BYTES then TooLong
    else if n < |stream| then Dispatch(stream[..n])
    else Waiting
  }

  /** The decision in terms of the stream alone: dispatch exactly the bytes
      before the first newline when there are at most the limit of them, reject
      when the first newline is not among the first limit-plus-one bytes. */
  lemma DecideMeans(stream: seq<Byte>, raw: seq<Byte>)
    ensures Decide(stream) == Dispatch(raw) <==>
            |raw| <= 1048576 && 0x0a !in raw && raw + [0x0a] <= stream
    ensures Decide(stream) == TooLong <==> |stream| > 1048576 && 0x0a !in stream[..1048577]
  {
    var n := LineLength(stream);
    if raw + [NEWLINE] <= stream && NEWLINE !in raw {
      assert stream[..|raw|] == raw && stream[|raw|] == NEWLINE;
      LineLengthUnique(stream, |raw|);
    }
    var m := MAX_DAEMON_REQUEST_BYTES + 1;
    if n >= m {
      assert forall i :: 0 <= i < m ==> stream[i] == stream[..n][i];
    } else if n < |stream| && |stream| >= m {
      assert stream[..m][n] == NEWLINE;
    }
  }

  lemma {:induction false} LineLengthUnique(stream: seq<Byte>, n: nat)
    requires n <= |stream| && NEWLINE !in stream[..n] && (n < |stream| ==> stream[n] == NEWLINE)
    ensures LineLength(stream) == n
  {
    if n > 0 {
      assert stream[0] in stream[..n];
      assert stream[1..][..n - 1] == stream[1..n];
      assert forall b :: b in stream[1..n] ==> b in stream[..n];
      LineLengthUnique(stream[1..], n - 1);
    }
  }

  /** The line of an extended stream, by whether the old part already had one. */
  lemma LineLengthAppend(a: seq<Byte>, b: seq<Byte>)
    ensures LineLength(a + b) == if LineLength(a) < |a| then LineLength(a) else |a| + LineLength(b)
  {
    var n := LineLength(a);
    if n < |a| {
      assert (a + b)[..n] == a[..n];
      LineLengthUnique(a + b, n);
    } else {
      var m := LineLength(b);
      assert a[..n] == a;
      assert (a + b)[..n + m] == a + b[..m];
      LineLengthUnique(a + b, n + m);
    }
  }

  /** A decision, once taken, is the decision of every longer stream. */
  lemma DecisionIsFinal(a: seq<Byte>, b: seq<Byte>)
    requires Decide(a) != Waiting
    ensures Decide(a + b) == Decide(a)
  {
    LineLengthAppend(a, b);
    var n := LineLength(a);
    if n < |a| { assert (a + b)[..n] == a[..n]; }
  }

  /** What one more chunk does to a stream still waiting for its newline. */
  lemma DecideStep(a: seq<Byte>, chunk: seq<Byte>)
    requires Decide(a) == Waiting
    ensures |a| <= MAX_DAEMON_REQUEST_BYTES
    ensures var n := LineLength(chunk);
            Decide(a + chunk) == if |a| + n > MAX_DAEMON_REQUEST_BYTES then TooLong
                                 else if n < |chunk| then Dispatch(a + chunk[..n])
                                 else Waiting
  {
    hide LineLength;
    LineLengthAppend(a, chunk);
    var n := LineLength(chunk);
    assert (a + chunk)[..|a| + n] == a + chunk[..n];
  }

  function Flatten(chunks: seq<seq<Byte>>): seq<Byte> {
    if chunks == [] then [] else Flatten(chunks[..|chunks| - 1]) + chunks[|chunks| - 1]
  }

  method IndexOfNewline(chunk: seq<Byte>) returns (length: nat)
    ensures length == LineLength(chunk) && length <= |chunk|
  {
    length := 0;
    while length < |chunk| && chunk[length] != NEWLINE
      invariant length <= |chunk| && NEWLINE !in chunk[..length]
    {
      length := length + 1;
    }
    LineLengthUnique(chunk, length);
  }

  class Connection {
    var buffer: array<Byte>
    var byteLength: nat
    var admitted: bool
    var decision: Decision

    /** Every byte the peer sent before its socket failed. */
    ghost var received: seq<Byte>
    /** The request lines handed to the dispatcher. */
    ghost var dispatched: seq<seq<Byte>>
    ghost var peerFailed: bool
    /** Bytes moved by all buffer growths so far. */
    ghost var copied: nat

    ghost predicate Valid()
      reads this, buffer
    {
      && decision == Decide(received)
      && dispatched == (if decision.Dispatch? then [decision.raw] else [])
      && (admitted <==> peerFailed || decision != Waiting)
      && buffer.Length <= MAX_DAEMON_REQUEST_BYTES
      && copied < 2 * MAX_DAEMON_REQUEST_BYTES
      && (!admitted ==>
            && byteLength == |received| <= buffer.Length
            && buffer[..byteLength] == received
            && (buffer.Length < MAX_DAEMON_REQUEST_BYTES ==> copied <= buffer.Length))
    }

    constructor ()
      ensures Valid() && fresh(buffer) && !admitted && !peerFailed
      ensures received == [] && copied == 0
    {
      buffer := new Byte[0];
      byteLength, admitted, decision := 0, false, Waiting;
      received, dispatched, peerFailed, copied := [], [], false, 0;
    }

    /** Drop the buffer: the connection will look at no further byte. */
    method Discard()
      modifies this`buffer, this`admitted
      ensures admitted && fresh(buffer) && buffer.Length == 0
    {
      admitted := true;
      buffer := new Byte[0];
    }

    /** Make room for `needed` bytes in one bounded allocation. */
    method Grow(needed: nat)
      requires Valid() && !admitted && buffer.Length < needed <= MAX_DAEMON_REQUEST_BYTES
      modifies this`buffer, this`copied
      ensures Valid() && fresh(buffer) && needed <= buffer.Length
      ensures copied == old(copied) + byteLength
    {
      var doubled := if needed < 2 * buffer.Length then 2 * buffer.Length else needed;
      var wanted := if doubled < FIRST_CAPACITY then FIRST_CAPACITY else doubled;
      var capacity := if wanted < MAX_DAEMON_REQUEST_BYTES then wanted else MAX_DAEMON_REQUEST_BYTES;
      var grown := new Byte[capacity];
      forall i | 0 <= i < byteLength {
        grown[i] := buffer[i];
      }
      assert grown[..byteLength] == buffer[..byteLength];
      copied := copied + byteLength;
      buffer := grown;
    }

    /** Append `part` to the held bytes, growing first when it does not fit. */
    method Store(part: seq<Byte>)
      requires Valid() && !admitted && byteLength + |part| <= MAX_DAEMON_REQUEST_BYTES
      modifies this`buffer, this`copied, this`byteLength, buffer
      ensures buffer == old(buffer) || fresh(buffer)
      ensures byteLength == old(byteLength) + |part| <= buffer.Length <= MAX_DAEMON_REQUEST_BYTES
      ensures buffer[..byteLength] == received + part
      ensures copied < 2 * MAX_DAEMON_REQUEST_BYTES
      ensures buffer.Length < MAX_DAEMON_REQUEST_BYTES ==> copied <= buffer.Length
    {
      var needed := byteLength + |part|;
      if needed > buffer.Length {
        Grow(needed);
      }
      ghost var held := buffer[..byteLength];
      forall i | 0 <= i < |part| {
        buffer[byteLength + i] := part[i];
      }
      assert buffer[..needed] == held + part;
      byteLength := needed;
    }

    /** One data event: whatever the chunk, the decision is that of the bytes
        received so far, and a decided connection changes nothing more. */
    method OnData(chunk: seq<Byte>)
      requires Valid()
      modifies this, buffer
      ensures Valid() && (buffer == old(buffer) || fresh(buffer))
      ensures peerFailed == old(peerFailed)
      ensures received == if peerFailed then old(received) else old(received) + chunk
      ensures old(admitted) ==> decision == old(decision) && dispatched == old(dispatched) && admitted
    {
      hide Decide, LineLength;
      if admitted {
        if !peerFailed {
          DecisionIsFinal(received, chunk);
          received := received + chunk;
        }
        return;
      }
      DecideStep(received, chunk);
      var length := IndexOfNewline(chunk);
      var newline := length < |chunk|;
      var part := chunk[..length];
      if byteLength + |part| > MAX_DAEMON_REQUEST_BYTES {
        decision := TooLong;
        received := received + chunk;
        Discard();
        return;
      }
      Store(part);
      if !newline {
        assert part == chunk;
        received := received + chunk;
        return;
      }
      var raw := buffer[..byteLength];
      decision := Dispatch(raw);
      dispatched := dispatched + [raw];
      received := received + chunk;
      Discard();
    }

    /** The peer's socket failed: nothing is admitted from here on. */
    method OnPeerError()
      requires Valid()
      modifies this
      ensures Valid() && admitted && peerFailed
      ensures decision == old(decision) && dispatched == old(dispatched) && received == old(received)
    {
      peerFailed := true;
      Discard();
    }
  }

  /** However a stream is cut into chunks, a connection that stays up decides
      what the whole stream deserves, admits at most the one line, and copies
      less than twice the limit while growing. */
  method Receive(chunks: seq<seq<Byte>>) returns (connection: Connection)
    ensures fresh(connection) && connection.Valid()
    ensures connection.decision == Decide(Flatten(chunks))
    ensures |connection.dispatched| <= 1
    ensures connection.copied < 2 * MAX_DAEMON_REQUEST_BYTES
  {
    connection := new Connection();
    for i := 0 to |chunks|
      invariant fresh(connection) && fresh(connection.buffer) && connection.Valid() && !connection.peerFailed
      invariant connection.received == Flatten(chunks[..i])
    {
      assert chunks[..i + 1][..i] == chunks[..i];
      connection.OnData(chunks[i]);
    }
    assert chunks[..|chunks|] == chunks;
  }
}
