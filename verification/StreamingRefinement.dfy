/** What the immediate read guarantees: it is the one-shot decode of the bytes
    before the terminator, and everything it publishes on the way is a prefix of it. */
module StreamingRefinement {
  import opened Common
  import opened TrackBits
  import opened Pll
  import Ticks
  import opened Revolution
  import opened Join
  import opened Streams
  import opened GreaseweazleReads

  // ----- streaming refines one-shot decoding -----

  /** The known density differs from the initial one only if enough intervals
      have been seen for it never to matter again. */
  ghost predicate Settled(raw: seq<Byte>, frequency: U32, known: bool, initial: bool)
    requires frequency > 0
  {
    known == initial
    || exists n: nat :: n <= |raw| && DecidesDensity(raw[..n], frequency)
  }

  ghost predicate DecidesDensity(raw: seq<Byte>, frequency: U32)
    requires frequency > 0
  {
    var r := Ticks.DecodeStream(raw, frequency);
    r.Ok? && |r.value| >= HD_DETECT_MIN_EVENTS
  }

  lemma SettledGrows(raw: seq<Byte>, more: seq<Byte>, frequency: U32, known: bool, initial: bool)
    requires frequency > 0
    requires Settled(raw, frequency, known, initial)
    ensures Settled(raw + more, frequency, known, initial)
  {
    if known != initial {
      var n: nat :| n <= |raw| && DecidesDensity(raw[..n], frequency);
      assert (raw + more)[..n] == raw[..n];
    }
  }

  /** Once settled, the initial density gives the same reading. */
  lemma SettledReading(raw: seq<Byte>, more: seq<Byte>, frequency: U32, mode: DensityMode, known: bool, initial: bool)
    requires frequency > 0
    requires Settled(raw, frequency, known, initial)
    ensures OneShot(raw + more, frequency, mode, known) == OneShot(raw + more, frequency, mode, initial)
  {
    var whole := raw + more;
    if known != initial && Ticks.DecodeStream(whole, frequency).Ok? {
      var n: nat :| n <= |raw| && DecidesDensity(raw[..n], frequency);
      assert raw[..n] <= whole;
      Ticks.EventsGrow(raw[..n], whole, frequency);
    }
  }

  lemma PublishSettles(grown: seq<Byte>, frequency: U32, mode: DensityMode, known: bool, initial: bool)
    requires frequency > 0 && mode.Auto?
    requires Settled(grown, frequency, known, initial)
    requires OneShot(grown, frequency, mode, known).Ok?
    ensures Settled(grown, frequency, OneShot(grown, frequency, mode, known).value.highDensity, initial)
  {
    assert grown[..|grown|] == grown;
    if !DecidesDensity(grown, frequency) {
      assert OneShot(grown, frequency, mode, known).value.highDensity == known;
    }
  }

  /** How draining must end, given how the bytes arrive. */
  function Due(r: Reception, frequency: U32, mode: DensityMode, known: bool): Result<seq<bool>>
    requires frequency > 0
  {
    match r
    case Lost(e) => Err(e)
    case Overrun(received) => Err(TrackTooLarge(|received| * 8, MAX_STREAM_BYTES * 8))
    case Terminated(payload) =>
      match OneShot(payload, frequency, mode, known)
      case Err(e) => Err(e)
      case Ok(reading) => Ok(reading.bits)
  }

  lemma {:induction false} DrainRefines(raw: seq<Byte>, mark: nat, arrivals: seq<ReadOutcome>,
                                        frequency: U32, mode: DensityMode, known: bool, initial: bool)
    requires frequency > 0
    requires mode.Auto? ==> Settled(raw, frequency, known, initial)
    ensures var d := Drain(raw, mark, arrivals, frequency, mode, known);
      var reception := Receive(raw, arrivals, MAX_STREAM_BYTES);
      && d.result == Due(reception, frequency, mode, initial)
      && (d.result.Ok? ==>
            d.highDensity == OneShot(reception.payload, frequency, mode, initial).value.highDensity)
    decreases |arrivals|
  {
    if |raw| < MAX_STREAM_BYTES && arrivals != [] {
      match arrivals[0]
      case Broken =>
      case Quiet => DrainRefines(raw, mark, arrivals[1..], frequency, mode, known, initial);
      case Chunk(bytes) =>
        if bytes != [] {
          if mode.Auto? {
            SettledGrows(raw, bytes, frequency, known, initial);
          }
          if ZeroAt(bytes) < |bytes| {
            if mode.Auto? {
              SettledReading(raw, bytes[..ZeroAt(bytes)], frequency, mode, known, initial);
            }
          } else {
            var grown := raw + bytes;
            var partial := OneShot(grown, frequency, mode, known);
            if |grown| >= mark + PUBLISH_STRIDE && partial.Ok? {
              if mode.Auto? {
                PublishSettles(grown, frequency, mode, known, initial);
              }
              DrainRefines(grown, |grown|, arrivals[1..], frequency, mode, partial.value.highDensity, initial);
            } else {
              DrainRefines(grown, mark, arrivals[1..], frequency, mode, known, initial);
            }
          }
        }
    }
  }

  /** Streaming refines one-shot decoding: however a healthy stream is chunked,
      whatever the density mode, the capture is the decode of the bytes before
      its first zero, and leaves the same density known. */
  lemma StreamingIsOneShot(arrivals: seq<ReadOutcome>, frequency: U32, mode: DensityMode, known: bool)
    requires frequency > 0
    requires Healthy(arrivals)
    requires ZeroAt(Delivered(arrivals)) < |Delivered(arrivals)|
    requires ZeroAt(Delivered(arrivals)) < 1_048_576
    ensures var payload := Delivered(arrivals)[..ZeroAt(Delivered(arrivals))];
      var d := Drain([], 0, arrivals, frequency, mode, known);
      match OneShot(payload, frequency, mode, known)
      case Err(e) => d.result == Err(e)
      case Ok(reading) => d.result == Ok(reading.bits) && d.highDensity == reading.highDensity
  {
    ChunkingDoesNotMatter([], arrivals, MAX_STREAM_BYTES);
    var payload := Delivered(arrivals)[..ZeroAt(Delivered(arrivals))];
    assert [] + payload == payload;
    DrainRefines([], 0, arrivals, frequency, mode, known, known);
  }

  /** The buffered read of the same bytes: read to the terminator, refuse an
      over-long stream, decode once. */
  function Buffered(arrivals: seq<ReadOutcome>, frequency: U32, mode: DensityMode, known: bool): Result<seq<bool>>
    requires frequency > 0
  {
    match ReadOf(arrivals, MAX_STREAM_BYTES)
    case Err(e) => Err(e)
    case Ok(stream) =>
      if |stream| >= MAX_STREAM_BYTES then Err(TrackTooLarge(|stream| * 8, MAX_STREAM_BYTES * 8))
      else
        match OneShot(stream, frequency, mode, known)
        case Err(e) => Err(e)
        case Ok(reading) => Ok(reading.bits)
  }

  /** The two reads part ways in exactly one case: a terminator in the very chunk
      that takes the stream to its limit, which only the buffered read refuses. */
  lemma BufferedAgreesExactly(arrivals: seq<ReadOutcome>, frequency: U32, mode: DensityMode, known: bool)
    requires frequency > 0
    ensures var reception := Receive([], arrivals, MAX_STREAM_BYTES);
      (Drain([], 0, arrivals, frequency, mode, known).result == Buffered(arrivals, frequency, mode, known))
      <==> !(reception.Terminated? && |reception.payload| >= MAX_STREAM_BYTES)
  {
    DrainRefines([], 0, arrivals, frequency, mode, known, known);
    OverrunIsLong([], arrivals, MAX_STREAM_BYTES);
  }

  lemma {:induction false} OverrunIsLong(received: seq<Byte>, arrivals: seq<ReadOutcome>, limit: nat)
    ensures var r := Receive(received, arrivals, limit);
      r.Overrun? ==> |r.received| >= limit
    decreases |arrivals|
  {
    if |received| < limit && arrivals != [] {
      match arrivals[0]
      case Broken =>
      case Quiet => OverrunIsLong(received, arrivals[1..], limit);
      case Chunk(bytes) => OverrunIsLong(received + bytes, arrivals[1..], limit);
    }
  }

  /** The most one read of the transport can deliver. */
  const CHUNK_BYTES: nat := 8_192

  lemma {:induction false} OneByOne(received: seq<Byte>, count: nat, rest: seq<ReadOutcome>, limit: nat)
    requires |received| + count < limit
    ensures Receive(received, seq(count, _ => Chunk([1])) + rest, limit)
         == Receive(received + seq(count, _ => 1), rest, limit)
    decreases count
  {
    var arrivals := seq(count, _ => Chunk([1])) + rest;
    if count == 0 {
      assert arrivals == rest && received + seq(count, _ => 1) == received;
    } else {
      assert arrivals[1..] == seq(count - 1, _ => Chunk([1])) + rest;
      OneByOne(received + [1], count - 1, rest, limit);
      assert received + [1] + seq(count - 1, _ => 1) == received + seq(count, _ => 1);
    }
  }

  /** Such a stream: no read delivers more than a transport chunk, and the streaming
      read does not answer as the buffered one does. */
  lemma ReadsPartWays(frequency: U32, mode: DensityMode, known: bool) returns (arrivals: seq<ReadOutcome>)
    requires frequency > 0
    ensures Healthy(arrivals)
    ensures forall k :: 0 <= k < |arrivals| ==> arrivals[k].Chunk? && |arrivals[k].bytes| <= CHUNK_BYTES
    ensures Drain([], 0, arrivals, frequency, mode, known).result != Buffered(arrivals, frequency, mode, known)
  {
    var last: ReadOutcome := Chunk([1, 1, 0]);
    arrivals := seq(MAX_STREAM_BYTES - 1, _ => Chunk([1])) + [last];
    OneByOne([], MAX_STREAM_BYTES - 1, [last], MAX_STREAM_BYTES);
    ZeroAtFirst([1, 1], [0]);
    BufferedAgreesExactly(arrivals, frequency, mode, known);
  }

  // ----- partials are honest -----

  lemma PresentedGrows(a: seq<FluxEvent>, b: seq<FluxEvent>, highDensity: bool)
    requires a <= b
    ensures DelaysOf(Presented(a, highDensity)) <= DelaysOf(Presented(b, highDensity))
  {
  }

  /** At a forced density, a longer stretch of the same stream reads as more of the same cells. */
  lemma ReadingGrows(a: seq<Byte>, b: seq<Byte>, frequency: U32, mode: DensityMode, known: bool, later: bool)
    requires frequency > 0 && !mode.Auto?
    requires a <= b
    requires OneShot(a, frequency, mode, known).Ok? && OneShot(b, frequency, mode, later).Ok?
    ensures OneShot(a, frequency, mode, known).value.bits <= OneShot(b, frequency, mode, later).value.bits
  {
    Ticks.EventsGrow(a, b, frequency);
    var ea, eb := Ticks.DecodeStream(a, frequency).value, Ticks.DecodeStream(b, frequency).value;
    PresentedGrows(ea, eb, mode.High?);
    DecodeGrows(CENTRED, DelaysOf(Presented(ea, mode.High?)), DelaysOf(Presented(eb, mode.High?)));
  }

  /** Everything published or returned from here on extends what `early` reads as. */
  lemma {:induction false} DrainExtends(early: seq<Byte>, raw: seq<Byte>, mark: nat, arrivals: seq<ReadOutcome>,
                                        frequency: U32, mode: DensityMode, before: bool, known: bool)
    requires frequency > 0 && !mode.Auto?
    requires early <= raw
    requires OneShot(early, frequency, mode, before).Ok?
    ensures var floor := OneShot(early, frequency, mode, before).value.bits;
      var d := Drain(raw, mark, arrivals, frequency, mode, known);
      && (forall i :: 0 <= i < |d.published| ==> floor <= Shown(d.published[i]))
      && (d.result.Ok? ==> floor <= d.result.value)
    decreases |arrivals|
  {
    if |raw| < MAX_STREAM_BYTES && arrivals != [] {
      match arrivals[0]
      case Broken =>
      case Quiet => DrainExtends(early, raw, mark, arrivals[1..], frequency, mode, before, known);
      case Chunk(bytes) =>
        var grown := raw + bytes[..ZeroAt(bytes)];
        assert early <= grown;
        var reading := OneShot(grown, frequency, mode, known);
        if reading.Ok? {
          ReadingGrows(early, grown, frequency, mode, before, known);
          ShownPublish(reading.value.bits);
        }
        if ZeroAt(bytes) == |bytes| {
          assert grown == raw + bytes;
          if |grown| >= mark + PUBLISH_STRIDE && reading.Ok? {
            DrainExtends(early, grown, |grown|, arrivals[1..], frequency, mode, before, reading.value.highDensity);
          } else {
            DrainExtends(early, grown, mark, arrivals[1..], frequency, mode, before, known);
          }
        }
    }
  }

  /** Publications form a growing chain, each a prefix of the cells returned. */
  ghost predicate GrowingChain(d: Drained) {
    && (forall i, j :: 0 <= i < j < |d.published| ==> Shown(d.published[i]) <= Shown(d.published[j]))
    && (d.result.Ok? ==>
          && d.published != []
          && d.published[|d.published| - 1] == Publish(d.result.value)
          && forall i :: 0 <= i < |d.published| ==> Shown(d.published[i]) <= d.result.value)
  }

  lemma ChainGrows(floor: seq<bool>, d: Drained)
    requires GrowingChain(d)
    requires forall i :: 0 <= i < |d.published| ==> floor <= Shown(d.published[i])
    requires d.result.Ok? ==> floor <= d.result.value
    ensures GrowingChain(AlsoPublished(Publish(floor), d))
  {
    ShownPublish(floor);
    var all := AlsoPublished(Publish(floor), d).published;
    forall i, j | 0 <= i < j < |all|
      ensures Shown(all[i]) <= Shown(all[j])
    {
      assert all[j] == d.published[j - 1];
      if i > 0 {
        assert all[i] == d.published[i - 1];
      }
    }
  }

  lemma ChainEnds(bits: seq<bool>, known: bool)
    ensures GrowingChain(Drained(Ok(bits), [Publish(bits)], known))
  {
    ShownPublish(bits);
  }

  lemma {:induction false} PartialsAreHonest(raw: seq<Byte>, mark: nat, arrivals: seq<ReadOutcome>,
                                             frequency: U32, mode: DensityMode, known: bool)
    requires frequency > 0 && !mode.Auto?
    ensures GrowingChain(Drain(raw, mark, arrivals, frequency, mode, known))
    decreases |arrivals|
  {
    if |raw| < MAX_STREAM_BYTES && arrivals != [] {
      match arrivals[0]
      case Broken =>
      case Quiet => PartialsAreHonest(raw, mark, arrivals[1..], frequency, mode, known);
      case Chunk(bytes) =>
        var grown := raw + bytes[..ZeroAt(bytes)];
        var reading := OneShot(grown, frequency, mode, known);
        if ZeroAt(bytes) < |bytes| {
          if reading.Ok? {
            ChainEnds(reading.value.bits, reading.value.highDensity);
          }
        } else {
          assert grown == raw + bytes;
          if |grown| >= mark + PUBLISH_STRIDE && reading.Ok? {
            var next := reading.value.highDensity;
            PartialsAreHonest(grown, |grown|, arrivals[1..], frequency, mode, next);
            DrainExtends(grown, grown, |grown|, arrivals[1..], frequency, mode, known, next);
            ChainGrows(reading.value.bits, Drain(grown, |grown|, arrivals[1..], frequency, mode, next));
          } else {
            PartialsAreHonest(grown, mark, arrivals[1..], frequency, mode, known);
          }
        }
    }
  }

  /** Two stretches of cells agree wherever both have one. */
  ghost predicate Concur(a: seq<bool>, b: seq<bool>) {
    forall i: nat :: i < |a| && i < |b| ==> a[i] == b[i]
  }

  /** Everything published since the last withdrawal agrees with the cells drained. */
  ghost predicate HonestSince(d: Drained, from: nat) {
    && from <= |d.published|
    && (from > 0 ==> d.published[from - 1] == WITHDRAWN)
    && (d.result.Ok? ==> forall i :: from <= i < |d.published| ==> Shown(d.published[i]) <= d.result.value)
  }

  lemma {:induction false} TriesAreHonest(attempts: seq<Attempt>, tried: nat, frequency: U32, mode: DensityMode, known: bool)
    returns (from: nat)
    requires frequency > 0 && !mode.Auto?
    requires |attempts| == MAX_ATTEMPTS && tried < MAX_ATTEMPTS
    ensures HonestSince(Tries(attempts, tried, frequency, mode, known), from)
    decreases MAX_ATTEMPTS - tried
  {
    from := 0;
    var last := tried + 1 == MAX_ATTEMPTS;
    AttemptIsHonest(attempts[tried], last, frequency, mode, known);
    match Attempted(attempts[tried], last, frequency, mode, known)
    case Ended(d) =>
    case Again(d) =>
      if !last {
        var later := TriesAreHonest(attempts, tried + 1, frequency, mode, d.highDensity);
        HonestAfter(d.published, Tries(attempts, tried + 1, frequency, mode, d.highDensity), later);
        from := |d.published| + 1 + later;
      }
  }

  lemma AttemptDrains(attempt: Attempt, last: bool, frequency: U32, mode: DensityMode, known: bool)
    requires frequency > 0
    ensures var d := Attempted(attempt, last, frequency, mode, known).d;
      d.result.Ok? ==> d == Drain([], 0, attempt.arrivals, frequency, mode, known)
  {
  }

  lemma ChainIsHonest(d: Drained)
    requires GrowingChain(d)
    ensures HonestSince(d, 0)
  {
  }

  lemma AttemptIsHonest(attempt: Attempt, last: bool, frequency: U32, mode: DensityMode, known: bool)
    requires frequency > 0 && !mode.Auto?
    ensures HonestSince(Attempted(attempt, last, frequency, mode, known).d, 0)
  {
    AttemptDrains(attempt, last, frequency, mode, known);
    if Attempted(attempt, last, frequency, mode, known).d.result.Ok? {
      PartialsAreHonest([], 0, attempt.arrivals, frequency, mode, known);
      ChainIsHonest(Drain([], 0, attempt.arrivals, frequency, mode, known));
    }
  }

  lemma HonestAfter(stale: seq<Publication>, d: Drained, from: nat)
    requires HonestSince(d, from)
    ensures HonestSince(After(stale + [WITHDRAWN], d), |stale| + 1 + from)
  {
    var all := After(stale + [WITHDRAWN], d).published;
    assert forall i :: |stale| + 1 <= i < |all| ==> all[i] == d.published[i - |stale| - 1];
  }

  /** A finished immediate capture at a forced density agrees, at every position
      they share, with everything published since its last withdrawal. */
  lemma CaptureAgreesWithPartials(attempts: seq<Attempt>, frequency: U32, mode: DensityMode, known: bool)
    returns (from: nat)
    requires frequency > 0 && !mode.Auto?
    requires |attempts| == MAX_ATTEMPTS
    ensures var d := Tries(attempts, 0, frequency, mode, known);
      && from <= |d.published|
      && (from > 0 ==> d.published[from - 1] == WITHDRAWN)
      && (Joined(d).Ok? ==>
            var capture := Joined(d).value;
            && 64 <= capture.bitLen <= |capture.words| * 16 && capture.bitLen <= 237_568 && !capture.indexAligned
            && forall i :: from <= i < |d.published| ==>
                Concur(Shown(d.published[i]), Unpack(capture.words, capture.bitLen)))
  {
    from := TriesAreHonest(attempts, 0, frequency, mode, known);
    var d := Tries(attempts, 0, frequency, mode, known);
    if Joined(d).Ok? {
      JoinSound(d.result.value, d.highDensity);
      UnpackPack(JoinOf(d.result.value, d.highDensity).value);
    }
  }

  // ----- the automatic density -----

  /** The intervals too short for a double-density track. */
  function ShortOnes(events: seq<FluxEvent>): set<nat> {
    set k: nat | k < |events| && events[k].nanoseconds < 3_000
  }

  lemma {:induction false} ShortsAreCounted(events: seq<FluxEvent>)
    ensures ShortCount(events) == |ShortOnes(events)|
  {
    if events == [] {
      assert ShortOnes(events) == {};
    } else {
      var last := |events| - 1;
      ShortsAreCounted(events[..last]);
      if events[last].nanoseconds < 3_000 {
        assert ShortOnes(events) == ShortOnes(events[..last]) + {last};
      } else {
        assert ShortOnes(events) == ShortOnes(events[..last]);
      }
    }
  }

  /** At automatic density a stream of a thousand intervals is judged high exactly if more
      than a quarter of them are shorter than 3 microseconds, each interval taken as it
      came; of fewer, the density known before is kept. */
  lemma JudgedByCounting(raw: seq<Byte>, frequency: U32, known: bool)
    requires frequency > 0
    ensures match Ticks.DecodeStream(raw, frequency)
      case Err(error) => OneShot(raw, frequency, Auto, known) == Err(error)
      case Ok(events) =>
        var r := OneShot(raw, frequency, Auto, known);
        r.Ok? && (r.value.highDensity <==> if |events| >= 1_000 then 4 * |ShortOnes(events)| > |events| else known)
  {
    if Ticks.DecodeStream(raw, frequency).Ok? {
      ShortsAreCounted(Ticks.DecodeStream(raw, frequency).value);
    }
  }

  /** At high density every delay is presented as twice itself, as far as 32 bits go, and
      at double density as it is; marks stay where they are. */
  lemma HighDensityIsTwice(events: seq<FluxEvent>, k: nat)
    requires k < |events|
    ensures Presented(events, false) == events
    ensures var shown := Presented(events, true)[k];
      && shown.index == events[k].index
      && shown.nanoseconds as int == if events[k].nanoseconds < 0x8000_0000 then 2 * events[k].nanoseconds as int else 0xffff_ffff
  {
  }

  // ----- how an attempt ends -----

  /** What an acknowledgement makes of a stream that was read: 0 is success, 2 says no
      index came round, 4 that the buffer overflowed, 6 that the disk is protected;
      an overflow asks for another attempt while there are any. */
  lemma AcknowledgementsDecide(attempt: Attempt, last: bool, frequency: U32, mode: DensityMode, known: bool, ack: Byte)
    requires frequency > 0
    requires attempt.refused.None? && attempt.status == Ok(ack)
    requires Drain([], 0, attempt.arrivals, frequency, mode, known).result.Ok?
    ensures var d := Drain([], 0, attempt.arrivals, frequency, mode, known);
      var o := Attempted(attempt, last, frequency, mode, known);
      && o.d.published == d.published && o.d.highDensity == d.highDensity
      && (o.Again? <==> ack == 4 && !last && attempt.purge.None?)
      && (o.Ended? ==>
            && (o.d.result.Ok? <==> ack == 0)
            && (ack == 0 ==> o.d.result == d.result)
            && (ack == 2 ==> o.d.result == Err(Timeout))
            && (ack == 6 ==> o.d.result == Err(WriteProtected))
            && (ack == 4 && !last ==> o.d.result == Err(attempt.purge.value))
            && (ack !in [0, 2, 6] && (ack != 4 || last) ==> o.d.result == Err(Protocol)))
  {
  }

  /** A read command refused, a stream that fails and a status that does not come are each
      answered with their own error, and none of them with another attempt. */
  lemma FailuresAreTold(attempt: Attempt, last: bool, frequency: U32, mode: DensityMode, known: bool)
    requires frequency > 0
    ensures var d := Drain([], 0, attempt.arrivals, frequency, mode, known);
      var o := Attempted(attempt, last, frequency, mode, known);
      && (attempt.refused.Some? ==> o == Ended(Drained(Err(attempt.refused.value), [], known)))
      && (attempt.refused.None? && d.result.Err? ==> o == Ended(d))
      && (attempt.refused.None? && d.result.Ok? && attempt.status.Err? ==>
            o == Ended(Drained(Err(attempt.status.error), d.published, d.highDensity)))
  {
  }

  /** A read gives up on the third overflow, and on no earlier one: two attempts that
      overflow leave the third to decide, with what they published withdrawn. */
  lemma ThirdAttemptDecides(attempts: seq<Attempt>, frequency: U32, mode: DensityMode, known: bool)
    requires frequency > 0 && |attempts| == 3
    requires Attempted(attempts[0], false, frequency, mode, known).Again?
    requires var first := Attempted(attempts[0], false, frequency, mode, known).d;
      Attempted(attempts[1], false, frequency, mode, first.highDensity).Again?
    ensures var first := Attempted(attempts[0], false, frequency, mode, known).d;
      var second := Attempted(attempts[1], false, frequency, mode, first.highDensity).d;
      var third := Attempted(attempts[2], true, frequency, mode, second.highDensity);
      && third.Ended?
      && Tries(attempts, 0, frequency, mode, known)
         == Drained(third.d.result, first.published + [Publication([], 0)] + (second.published + [Publication([], 0)] + third.d.published),
                    third.d.highDensity)
  {
    var first := Attempted(attempts[0], false, frequency, mode, known).d;
    var second := Attempted(attempts[1], false, frequency, mode, first.highDensity).d;
    assert Tries(attempts, 2, frequency, mode, second.highDensity)
        == Attempted(attempts[2], true, frequency, mode, second.highDensity).d;
    assert Tries(attempts, 1, frequency, mode, first.highDensity)
        == After(second.published + [WITHDRAWN], Tries(attempts, 2, frequency, mode, second.highDensity));
  }

  // ----- partials keep up -----

  /** What is published once the bytes before it are these, at some density. */
  predicate PublishesPrefix(p: Publication, raw: seq<Byte>, frequency: U32)
    requires frequency > 0
  {
    var r := Ticks.DecodeStream(raw, frequency);
    r.Ok? && (p == Publish(CellsOf(Presented(r.value, false))) || p == Publish(CellsOf(Presented(r.value, true))))
  }

  /** The last publication lags at most 4095 bytes behind, wherever the stream stands
      between two tokens at the end of a chunk. */
  ghost predicate KeepsUp(published: seq<Publication>, raw: seq<Byte>, mark: nat, frequency: U32)
    requires frequency > 0
  {
    exists p: nat :: LagsLittle(published, raw, mark, p, frequency)
  }

  ghost predicate LagsLittle(published: seq<Publication>, raw: seq<Byte>, mark: nat, p: nat, frequency: U32)
    requires frequency > 0
  {
    && mark <= p <= |raw| && |raw| - p < 4_096
    && (p == mark || exists i :: 0 <= i < |published| && PublishesPrefix(published[i], raw[..p], frequency))
  }

  lemma KeepsUpLater(first: Publication, later: seq<Publication>, raw: seq<Byte>, mark: nat, grown: nat, frequency: U32)
    requires frequency > 0 && mark <= grown <= |raw|
    requires PublishesPrefix(first, raw[..grown], frequency)
    requires KeepsUp(later, raw, grown, frequency)
    ensures KeepsUp([first] + later, raw, mark, frequency)
  {
    var p: nat :| LagsLittle(later, raw, grown, p, frequency);
    if p == grown {
      PublishedAt([first] + later, 0, raw, mark, p, frequency);
    } else {
      LaterLags(first, later, raw, mark, grown, p, frequency);
    }
  }

  lemma LaterLags(first: Publication, later: seq<Publication>, raw: seq<Byte>, mark: nat, grown: nat, p: nat, frequency: U32)
    requires frequency > 0 && mark <= grown <= |raw| && p != grown && LagsLittle(later, raw, grown, p, frequency)
    ensures KeepsUp([first] + later, raw, mark, frequency)
  {
    var prefix := raw[..p];
    var i :| 0 <= i < |later| && PublishesPrefix(later[i], prefix, frequency);
    assert ([first] + later)[i + 1] == later[i];
    PublishedAt([first] + later, i + 1, raw, mark, p, frequency);
  }

  lemma PublishedAt(published: seq<Publication>, i: nat, raw: seq<Byte>, mark: nat, p: nat, frequency: U32)
    requires frequency > 0 && mark <= p <= |raw| && |raw| - p < 4_096
    requires i < |published| && PublishesPrefix(published[i], raw[..p], frequency)
    ensures KeepsUp(published, raw, mark, frequency)
  {
    assert LagsLittle(published, raw, mark, p, frequency);
  }

  /** One chunk without a terminator: published, or not. */
  lemma DrainChunk(raw: seq<Byte>, mark: nat, arrivals: seq<ReadOutcome>, grown: seq<Byte>,
                   frequency: U32, mode: DensityMode, known: bool)
    requires frequency > 0 && |raw| < MAX_STREAM_BYTES
    requires arrivals != [] && arrivals[0].Chunk? && arrivals[0].bytes != []
    requires ZeroAt(arrivals[0].bytes) == |arrivals[0].bytes| && grown == raw + arrivals[0].bytes
    ensures var partial := OneShot(grown, frequency, mode, known);
      Drain(raw, mark, arrivals, frequency, mode, known)
      == if |grown| >= mark + 4_096 && partial.Ok? then
           AlsoPublished(Publish(partial.value.bits),
             Drain(grown, |grown|, arrivals[1..], frequency, mode, partial.value.highDensity))
         else Drain(grown, mark, arrivals[1..], frequency, mode, known)
  {
  }

  /** The last chunk but for what follows keeps the publications up. */
  lemma LastKeepsUp(raw: seq<Byte>, mark: nat, arrivals: seq<ReadOutcome>, grown: seq<Byte>,
                    frequency: U32, mode: DensityMode, known: bool)
    requires frequency > 0 && |raw| < MAX_STREAM_BYTES && mark <= |grown|
    requires arrivals != [] && arrivals[0].Chunk? && arrivals[0].bytes != []
    requires ZeroAt(arrivals[0].bytes) == |arrivals[0].bytes| && grown == raw + arrivals[0].bytes
    requires Ticks.DecodeStream(grown, frequency).Ok?
    ensures KeepsUp(Drain(raw, mark, arrivals, frequency, mode, known).published, grown, mark, frequency)
  {
    DrainChunk(raw, mark, arrivals, grown, frequency, mode, known);
    if |grown| >= mark + 4_096 {
      var partial := OneShot(grown, frequency, mode, known).value;
      var later := Drain(grown, |grown|, arrivals[1..], frequency, mode, partial.highDensity).published;
      assert grown[..|grown|] == grown;
      KeepsUpNow(later, grown, frequency);
      KeepsUpLater(Publish(partial.bits), later, grown, mark, |grown|, frequency);
    } else {
      KeepsUpStill(Drain(raw, mark, arrivals, frequency, mode, known).published, grown, mark, frequency);
    }
  }

  lemma {:induction false} PartialsKeepUp(raw: seq<Byte>, mark: nat, first: seq<ReadOutcome>, rest: seq<ReadOutcome>,
                                          frequency: U32, mode: DensityMode, known: bool)
    requires frequency > 0 && mark <= |raw|
    requires Healthy(first) && first != [] && first[|first| - 1].Chunk?
    requires 0 !in Delivered(first) && |raw| + |Delivered(first)| < MAX_STREAM_BYTES
    requires Ticks.DecodeStream(raw + Delivered(first), frequency).Ok?
    ensures KeepsUp(Drain(raw, mark, first + rest, frequency, mode, known).published, raw + Delivered(first), mark, frequency)
    decreases |first|
  {
    var arrivals := first + rest;
    assert arrivals[1..] == first[1..] + rest;
    match first[0]
    case Broken => assert false;
    case Quiet =>
      assert Delivered(first) == Delivered(first[1..]);
      PartialsKeepUp(raw, mark, first[1..], rest, frequency, mode, known);
    case Chunk(bytes) =>
      var grown, whole := raw + bytes, raw + Delivered(first);
      assert Delivered(first) == bytes + Delivered(first[1..]);
      assert whole == grown + Delivered(first[1..]);
      NoZeroInFront(bytes, Delivered(first[1..]));
      if |first| == 1 {
        assert Delivered(first[1..]) == [] && whole == grown;
        LastKeepsUp(raw, mark, arrivals, grown, frequency, mode, known);
      } else {
        var partial := OneShot(grown, frequency, mode, known);
        DrainChunk(raw, mark, arrivals, grown, frequency, mode, known);
        if |grown| >= mark + 4_096 && partial.Ok? {
          PartialsKeepUp(grown, |grown|, first[1..], rest, frequency, mode, partial.value.highDensity);
          assert whole[..|grown|] == grown;
          var d := Drain(grown, |grown|, arrivals[1..], frequency, mode, partial.value.highDensity);
          KeepsUpLater(Publish(partial.value.bits), d.published, whole, mark, |grown|, frequency);
        } else {
          PartialsKeepUp(grown, mark, first[1..], rest, frequency, mode, known);
        }
      }
  }

  lemma NoZeroInFront(a: seq<Byte>, b: seq<Byte>)
    ensures ZeroAt(a) == |a| || 0 in a + b
  {
    ZeroAtIsFirst(a);
    if ZeroAt(a) < |a| {
      assert (a + b)[ZeroAt(a)] == 0;
    }
  }

  lemma KeepsUpNow(published: seq<Publication>, raw: seq<Byte>, frequency: U32)
    requires frequency > 0
    ensures KeepsUp(published, raw, |raw|, frequency)
  {
    assert LagsLittle(published, raw, |raw|, |raw|, frequency);
  }

  lemma KeepsUpStill(published: seq<Publication>, raw: seq<Byte>, mark: nat, frequency: U32)
    requires frequency > 0 && mark <= |raw| < mark + 4_096
    ensures KeepsUp(published, raw, mark, frequency)
  {
    assert LagsLittle(published, raw, mark, mark, frequency);
  }

  /** Nor is there more than one publication for every 4096 bytes, and the last. */
  lemma {:induction false} PartialsAreFew(raw: seq<Byte>, mark: nat, arrivals: seq<ReadOutcome>,
                                          frequency: U32, mode: DensityMode, known: bool)
    requires frequency > 0 && mark <= |raw|
    ensures 4_096 * (|Drain(raw, mark, arrivals, frequency, mode, known).published| - 1)
            <= |raw| - mark + |Delivered(arrivals)|
    decreases |arrivals|
  {
    if |raw| < MAX_STREAM_BYTES && arrivals != [] {
      match arrivals[0]
      case Broken =>
      case Quiet => PartialsAreFew(raw, mark, arrivals[1..], frequency, mode, known);
      case Chunk(bytes) =>
        if ZeroAt(bytes) == |bytes| {
          var grown := raw + bytes;
          var partial := OneShot(grown, frequency, mode, known);
          if |grown| >= mark + PUBLISH_STRIDE && partial.Ok? {
            PartialsAreFew(grown, |grown|, arrivals[1..], frequency, mode, partial.value.highDensity);
          } else {
            PartialsAreFew(grown, mark, arrivals[1..], frequency, mode, known);
          }
        }
    }
  }
}
