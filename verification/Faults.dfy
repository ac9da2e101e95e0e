/** Streams that make no capture: the bytes the decoder refuses, and the arrivals that
    stop short of an end. */
module Faults {
  import opened Common
  import opened Pll
  import opened Ticks
  import opened Streams
  import opened GreaseweazleReads
  import opened StreamingRefinement

  // ----- what is refused -----

  /** No token begins like this: an unknown opcode, or one cut short. */
  predicate Malformed(tail: seq<Byte>) {
    || (|tail| == 1 && tail[0] >= 250)
    || (|tail| >= 2 && tail[0] == 255 && !(1 <= tail[1] <= 3))
    || (2 <= |tail| < 6 && tail[0] == 255 && 1 <= tail[1] <= 2)
    || (|tail| == 2 && tail[0] == 255 && tail[1] == 3)
  }

  /** The ticks of the interval at the front, if there is one. */
  function IntervalAt(tail: seq<Byte>): Option<nat> {
    if tail == [] || tail[0] == 255 then None
    else if tail[0] < 250 then Some(tail[0] as int)
    else if |tail| == 1 then None
    else Some(250 + (tail[0] as int - 250) * 255 + (if tail[1] == 0 then 0 else tail[1] as int - 1))
  }

  /** What an interval lasts, in the code's own terms: a byte below 250 is its ticks, and
      one of 250 to 254 adds 255 ticks for each step and the next byte less one. */
  lemma IntervalsMean(bytes: seq<Byte>, frequency: U32)
    requires frequency > 0 && IntervalAt(bytes).Some?
    requires |bytes| == if bytes[0] < 250 then 1 else 2
    ensures var ticks := IntervalAt(bytes).value;
      var nanoseconds := (ticks * 1_000_000_000 + frequency / 2) / frequency;
      DecodeStream(bytes, frequency)
      == if nanoseconds > U32_MAX then Err(Protocol) else Ok([FluxEvent(nanoseconds, false)])
  {
    var ticks := IntervalAt(bytes).value;
    assert Lex(bytes) == Lexed(Interval(ticks), |bytes|);
    assert bytes[|bytes|..] == [] && SaturatingTicks(0, ticks) == ticks;
    assert DecodeRun(bytes[|bytes|..], FRESH, frequency) == Ok(Run([], FRESH));
    var nanoseconds := Nanoseconds(ticks, frequency);
    if nanoseconds <= U32_MAX {
      PrependPrepend([FluxEvent(nanoseconds, false)], [], Ok(Run([], FRESH)));
      assert DecodeRun(bytes, FRESH, frequency) == Prepend([FluxEvent(nanoseconds, false)], Ok(Run([], FRESH)));
      assert [FluxEvent(nanoseconds, false)] + [] == [FluxEvent(nanoseconds, false)];
    }
  }

  /** What follows is an interval that, with the ticks held, lasts too long to express. */
  predicate Overlong(tail: seq<Byte>, held: U32, frequency: U32)
    requires frequency > 0
  {
    IntervalAt(tail).Some?
    && (Min(held + IntervalAt(tail).value, U32_MAX) * 1_000_000_000 + frequency / 2) / frequency > U32_MAX
  }

  /** The decoder gets to byte `n`, and cannot go on from there. */
  predicate StuckAt(bytes: seq<Byte>, n: nat, carry: Carry, frequency: U32)
    requires frequency > 0 && n <= |bytes|
  {
    var front := DecodeRun(bytes[..n], carry, frequency);
    front.Ok? && (Malformed(bytes[n..]) || Overlong(bytes[n..], front.value.carry.ticks, frequency))
  }

  /** The front token does not lex or lasts too long exactly if it looks like that. */
  lemma StuckNow(queue: seq<Byte>, carry: Carry, frequency: U32)
    requires frequency > 0
    ensures Lex(queue).Truncated? <==> Malformed(queue)
    ensures Overlong(queue, carry.ticks, frequency) <==>
        Lex(queue).Lexed? && Lex(queue).token.Interval?
        && Nanoseconds(SaturatingTicks(carry.ticks, Lex(queue).token.ticks), frequency) > U32_MAX
  {
  }

  lemma TokenAlone(queue: seq<Byte>)
    requires Lex(queue).Lexed?
    ensures Lex(queue[..Lex(queue).used]) == Lex(queue)
  {
    var used := Lex(queue).used;
    var token := queue[..used];
    if used == 6 {
      assert token[2..6] == queue[2..6];
    }
  }

  /** What the decoder holds after one token. */
  function AfterToken(carry: Carry, token: Token): Carry {
    match token
    case Index => carry.(index := true)
    case Space(n) => carry.(ticks := SaturatingTicks(carry.ticks, n))
    case Astable => carry
    case Interval(_) => FRESH
  }

  /** Stuck after a token is stuck a token further on. */
  lemma StuckLater(queue: seq<Byte>, n: nat, carry: Carry, frequency: U32)
    requires frequency > 0 && Lex(queue).Lexed? && !Overlong(queue, carry.ticks, frequency)
    requires n <= |queue| - Lex(queue).used
    requires StuckAt(queue[Lex(queue).used..], n, AfterToken(carry, Lex(queue).token), frequency)
    ensures StuckAt(queue, Lex(queue).used + n, carry, frequency)
  {
    var used := Lex(queue).used;
    var token, rest := queue[..used], queue[used..];
    TokenAlone(queue);
    StuckNow(queue, carry, frequency);
    assert token[used..] == [];
    assert DecodeRun(token, carry, frequency).Ok?;
    assert DecodeRun(token, carry, frequency).value.carry == AfterToken(carry, Lex(queue).token);
    Ticks.DecodeSplits(token, rest[..n], carry, frequency);
    assert queue[..used + n] == token + rest[..n];
    assert queue[used + n..] == rest[n..];
  }

  lemma {:induction false} RefusedSomewhere(queue: seq<Byte>, carry: Carry, frequency: U32) returns (n: nat)
    requires frequency > 0 && DecodeRun(queue, carry, frequency).Err?
    ensures n <= |queue| && StuckAt(queue, n, carry, frequency)
    decreases |queue|
  {
    StuckNow(queue, carry, frequency);
    if Lex(queue).Lexed? && !Overlong(queue, carry.ticks, frequency) {
      var used := Lex(queue).used;
      n := RefusedSomewhere(queue[used..], AfterToken(carry, Lex(queue).token), frequency);
      StuckLater(queue, n, carry, frequency);
      n := used + n;
    } else {
      n := 0;
      assert queue[..0] == [] && queue[0..] == queue;
    }
  }

  lemma StuckIsRefused(queue: seq<Byte>, n: nat, carry: Carry, frequency: U32)
    requires frequency > 0 && n <= |queue| && StuckAt(queue, n, carry, frequency)
    ensures DecodeRun(queue, carry, frequency).Err?
  {
    var front := DecodeRun(queue[..n], carry, frequency).value;
    Ticks.DecodeSplits(queue[..n], queue[n..], carry, frequency);
    StuckNow(queue[n..], front.carry, frequency);
    assert queue == queue[..n] + queue[n..];
  }

  /** A stream is refused exactly if somewhere, behind a stretch that decodes, stands an
      unknown opcode, a token cut short, or an interval too long to express. */
  lemma RefusedExactly(bytes: seq<Byte>, frequency: U32)
    requires frequency > 0
    ensures DecodeStream(bytes, frequency) == Err(Protocol)
            <==> exists n: nat :: n <= |bytes| && StuckAt(bytes, n, FRESH, frequency)
  {
    if DecodeStream(bytes, frequency).Err? {
      var n := RefusedSomewhere(bytes, FRESH, frequency);
      assert StuckAt(bytes, n, FRESH, frequency);
    }
    forall n: nat | n <= |bytes| && StuckAt(bytes, n, FRESH, frequency)
      ensures DecodeStream(bytes, frequency).Err?
    {
      StuckIsRefused(bytes, n, FRESH, frequency);
    }
  }

  // ----- how a reception ends -----

  lemma NoZeros(a: seq<Byte>, b: seq<Byte>)
    requires 0 !in a + b
    ensures ZeroAt(a) == |a| && 0 !in b
  {
    ZeroAtIsFirst(a);
    assert forall x :: x in a ==> x in a + b;
    assert forall x :: x in b ==> x in a + b;
  }

  /** Healthy reads without a terminator only add to what has been received. */
  lemma {:induction false} ReceiveOn(received: seq<Byte>, first: seq<ReadOutcome>, rest: seq<ReadOutcome>, limit: nat)
    requires Healthy(first) && 0 !in Delivered(first) && |received| + |Delivered(first)| < limit
    ensures Receive(received, first + rest, limit) == Receive(received + Delivered(first), rest, limit)
    decreases |first|
  {
    if first == [] {
      assert first + rest == rest && received + Delivered(first) == received;
    } else {
      assert (first + rest)[1..] == first[1..] + rest;
      var later := Delivered(first[1..]);
      match first[0]
      case Quiet =>
        assert Delivered(first) == later;
        ReceiveOn(received, first[1..], rest, limit);
      case Chunk(bytes) =>
        assert Delivered(first) == bytes + later;
        NoZeros(bytes, later);
        ReceiveOn(received + bytes, first[1..], rest, limit);
        assert received + bytes + later == received + (bytes + later);
      case Broken => assert false;
    }
  }

  /** However it began, a reception ends with what the next arrival is: nothing until the
      deadline, a broken pipe, an empty read, or a chunk that takes it to the limit. */
  lemma ReceptionEnds(first: seq<ReadOutcome>, rest: seq<ReadOutcome>, limit: nat)
    requires Healthy(first) && 0 !in Delivered(first) && |Delivered(first)| < limit
    ensures var r := Receive([], first + rest, limit);
      && (rest == [] ==> r == Lost(Timeout))
      && (rest != [] && rest[0].Broken? ==> r == Lost(Io))
      && (rest != [] && rest[0] == Chunk([]) ==> r == Lost(Disconnected))
      && (rest != [] && rest[0].Chunk? && 0 !in rest[0].bytes && |Delivered(first)| + |rest[0].bytes| >= limit ==>
            r == Overrun(Delivered(first) + rest[0].bytes))
  {
    ReceiveOn([], first, rest, limit);
    assert [] + Delivered(first) == Delivered(first);
    if rest != [] && rest[0].Chunk? {
      ZeroAtIsFirst(rest[0].bytes);
    }
  }

  /** A stream that is cut off never passes for a capture: whatever arrived before, a
      deadline, a broken pipe, a closed one, and a stream too long for a track are each
      answered with their own error. */
  lemma CutOffIsTold(first: seq<ReadOutcome>, rest: seq<ReadOutcome>, frequency: U32, mode: DensityMode, known: bool)
    requires frequency > 0
    requires Healthy(first) && 0 !in Delivered(first) && |Delivered(first)| < 1_048_576
    ensures var r := Drain([], 0, first + rest, frequency, mode, known).result;
      && (rest == [] ==> r == Err(Timeout))
      && (rest != [] && rest[0].Broken? ==> r == Err(Io))
      && (rest != [] && rest[0] == Chunk([]) ==> r == Err(Disconnected))
      && (rest != [] && rest[0].Chunk? && 0 !in rest[0].bytes
          && |Delivered(first)| + |rest[0].bytes| >= 1_048_576 ==>
            r == Err(TrackTooLarge((|Delivered(first)| + |rest[0].bytes|) * 8, 8_388_608)))
  {
    ReceptionEnds(first, rest, MAX_STREAM_BYTES);
    DrainRefines([], 0, first + rest, frequency, mode, known, known);
  }
}
