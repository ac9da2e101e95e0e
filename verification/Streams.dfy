/** Terminated byte streams read in arbitrary chunks, and the immediate capture
    that decodes and publishes them as they grow. */
module Streams {
  import opened Common
  import opened TrackBits
  import opened Pll
  import opened Ticks
  import opened Revolution
  import opened Join

  const MAX_STREAM_BYTES: nat := 1_048_576
  const HD_INTERVAL_CEILING_NS := 3_000
  const HD_DETECT_MIN_EVENTS: nat := 1_000
  const PUBLISH_STRIDE: nat := 4_096

  /** What one call of the transport's `read` does; a sequence of them ends where
      the deadline passes. */
  datatype ReadOutcome = Chunk(bytes: seq<Byte>) | Quiet | Broken

  /** The position of the first zero byte, or the length if there is none. */
  function ZeroAt(bytes: seq<Byte>): (end: nat)
    ensures end <= |bytes|
  {
    if bytes == [] || bytes[0] == 0 then 0 else 1 + ZeroAt(bytes[1..])
  }

  /** How receiving a stream ends. */
  datatype Reception = Terminated(payload: seq<Byte>) | Overrun(received: seq<Byte>) | Lost(error: Error)

  function Receive(received: seq<Byte>, arrivals: seq<ReadOutcome>, limit: nat): (r: Reception)
    decreases |arrivals|
  {
    if |received| >= limit then Overrun(received)
    else if arrivals == [] then Lost(Timeout)
    else
      match arrivals[0]
      case Quiet => Receive(received, arrivals[1..], limit)
      case Broken => Lost(Io)
      case Chunk(bytes) =>
        var end := ZeroAt(bytes);
        if bytes == [] then Lost(Disconnected)
        else if end < |bytes| then Terminated(received + bytes[..end])
        else Receive(received + bytes, arrivals[1..], limit)
  }

  /** `read_terminated_until`: the stream, whether it ended or hit the limit. */
  function ReadOf(arrivals: seq<ReadOutcome>, limit: nat): Result<seq<Byte>> {
    match Receive([], arrivals, limit)
    case Terminated(payload) => Ok(payload)
    case Overrun(received) => Ok(received)
    case Lost(e) => Err(e)
  }

  method ReadTerminatedUntil(arrivals: seq<ReadOutcome>, limit: nat) returns (r: Result<seq<Byte>>)
    ensures r == ReadOf(arrivals, limit)
  {
    var stream: seq<Byte> := [];
    var taken := 0;
    assert arrivals[0..] == arrivals;
    while true
      invariant taken <= |arrivals|
      invariant Receive([], arrivals, limit) == Receive(stream, arrivals[taken..], limit)
      decreases |arrivals| - taken
    {
      if |stream| >= limit {
        return Ok(stream);
      }
      if taken == |arrivals| {
        return Err(Timeout);
      }
      var outcome := arrivals[taken];
      assert arrivals[taken..][1..] == arrivals[taken + 1..];
      taken := taken + 1;
      match outcome
      case Quiet =>
      case Broken => return Err(Io);
      case Chunk(bytes) =>
        if bytes == [] {
          return Err(Disconnected);
        }
        var end := ZeroAt(bytes);
        if end < |bytes| {
          return Ok(stream + bytes[..end]);
        }
        stream := stream + bytes;
    }
  }

  // ----- chunking does not matter -----

  /** Everything a run of reads delivers, in order. */
  function Delivered(arrivals: seq<ReadOutcome>): (bytes: seq<Byte>) {
    if arrivals == [] then []
    else (match arrivals[0] case Chunk(bytes) => bytes case _ => []) + Delivered(arrivals[1..])
  }

  /** No read fails: each delivers something, or nothing arrived in time. */
  predicate Healthy(arrivals: seq<ReadOutcome>) {
    forall k :: 0 <= k < |arrivals| ==> arrivals[k].Quiet? || (arrivals[k].Chunk? && arrivals[k].bytes != [])
  }

  lemma {:induction false} ZeroAtFirst(a: seq<Byte>, b: seq<Byte>)
    ensures ZeroAt(a) < |a| ==> ZeroAt(a + b) == ZeroAt(a)
    ensures ZeroAt(a) == |a| ==> ZeroAt(a + b) == |a| + ZeroAt(b)
  {
    if a == [] {
      assert a + b == b;
    } else {
      ZeroAtFirst(a[1..], b);
      assert (a + b)[1..] == a[1..] + b;
    }
  }

  /** The first zero is where the zero-free part ends. */
  lemma {:induction false} ZeroAtIsFirst(bytes: seq<Byte>)
    ensures 0 !in bytes[..ZeroAt(bytes)]
    ensures ZeroAt(bytes) < |bytes| ==> bytes[ZeroAt(bytes)] == 0
  {
    if bytes != [] && bytes[0] != 0 {
      ZeroAtIsFirst(bytes[1..]);
      assert bytes[..ZeroAt(bytes)] == [bytes[0]] + bytes[1..][..ZeroAt(bytes[1..])];
    }
  }

  /** What a reception has of a stream that is still to come. */
  lemma PayloadSplits(received: seq<Byte>, chunk: seq<Byte>, rest: seq<Byte>)
    ensures ZeroAt(chunk) < |chunk| ==>
        received + chunk[..ZeroAt(chunk)] == received + (chunk + rest)[..ZeroAt(chunk + rest)]
    ensures ZeroAt(chunk) == |chunk| ==>
        received + chunk + rest[..ZeroAt(rest)] == received + (chunk + rest)[..ZeroAt(chunk + rest)]
  {
    ZeroAtFirst(chunk, rest);
    if ZeroAt(chunk) < |chunk| {
      assert (chunk + rest)[..ZeroAt(chunk)] == chunk[..ZeroAt(chunk)];
    } else {
      assert (chunk + rest)[..|chunk| + ZeroAt(rest)] == chunk + rest[..ZeroAt(rest)];
      assert received + chunk + rest[..ZeroAt(rest)] == received + (chunk + rest[..ZeroAt(rest)]);
    }
  }

  /** However a healthy stream is chunked, what is received is what stands before
      its first zero. */
  lemma {:induction false} ChunkingDoesNotMatter(received: seq<Byte>, arrivals: seq<ReadOutcome>, limit: nat)
    requires Healthy(arrivals)
    requires ZeroAt(Delivered(arrivals)) < |Delivered(arrivals)|
    requires |received| + ZeroAt(Delivered(arrivals)) < limit
    ensures Receive(received, arrivals, limit)
         == Terminated(received + Delivered(arrivals)[..ZeroAt(Delivered(arrivals))])
    decreases |arrivals|
  {
    if arrivals != [] {
      assert Healthy(arrivals[1..]);
      var rest := Delivered(arrivals[1..]);
      match arrivals[0]
      case Quiet =>
        assert Delivered(arrivals) == rest;
        ChunkingDoesNotMatter(received, arrivals[1..], limit);
      case Chunk(bytes) =>
        ZeroAtFirst(bytes, rest);
        PayloadSplits(received, bytes, rest);
        if ZeroAt(bytes) == |bytes| {
          ChunkingDoesNotMatter(received + bytes, arrivals[1..], limit);
        }
      case Broken => assert false;
    }
  }
}
