/** The Greaseweazle's captures: density resolution, the immediate read that
    decodes and publishes as it drains, and the buffered read beside it. */
module GreaseweazleReads {
  import opened Common
  import opened TrackBits
  import opened Pll
  import opened Ticks
  import opened Revolution
  import opened Join
  import opened Streams

  datatype DensityMode = Auto | Double | High

  // ----- density -----

  function ShortCount(events: seq<FluxEvent>): nat {
    if events == [] then 0
    else
      ShortCount(events[..|events| - 1])
      + (if events[|events| - 1].nanoseconds < HD_INTERVAL_CEILING_NS then 1 else 0)
  }

  /** More than a quarter of the raw intervals are too short for double density. */
  predicate LooksHighDensity(events: seq<FluxEvent>) {
    ShortCount(events) * 4 > |events|
  }

  /** The density a decode leaves behind. */
  predicate Resolved(events: seq<FluxEvent>, mode: DensityMode, known: bool) {
    match mode
    case Double => false
    case High => true
    case Auto => if |events| >= HD_DETECT_MIN_EVENTS then LooksHighDensity(events) else known
  }

  function DoubledDelay(ns: U32): U32 {
    Min(ns * 2, U32_MAX)
  }

  /** Each high-density delay as its double-density twin. */
  function Presented(events: seq<FluxEvent>, highDensity: bool): (shown: seq<FluxEvent>)
    ensures |shown| == |events|
  {
    if highDensity then
      seq(|events|, k requires 0 <= k < |events| =>
        FluxEvent(DoubledDelay(events[k].nanoseconds), events[k].index))
    else events
  }

  /** A decode of raw bytes: the density it settles on and the cells it reads. */
  datatype Reading = Reading(highDensity: bool, bits: seq<bool>)

  function EventsAt(raw: seq<Byte>, frequency: U32, mode: DensityMode, known: bool): Result<seq<FluxEvent>>
    requires frequency > 0
  {
    match DecodeStream(raw, frequency)
    case Err(e) => Err(e)
    case Ok(events) => Ok(Presented(events, Resolved(events, mode, known)))
  }

  function CellsOf(events: seq<FluxEvent>): seq<bool> {
    Decode(CENTRED, DelaysOf(events)).cells
  }

  /** Decoding a whole stretch of bytes at once. */
  function OneShot(raw: seq<Byte>, frequency: U32, mode: DensityMode, known: bool): (r: Result<Reading>)
    requires frequency > 0
    ensures r.Err? ==> r.error == Protocol
  {
    match DecodeStream(raw, frequency)
    case Err(e) => Err(e)
    case Ok(events) =>
      var density := Resolved(events, mode, known);
      Ok(Reading(density, CellsOf(Presented(events, density))))
  }

  // ----- the immediate read -----

  /** One call of the caller's progress callback. */
  datatype Publication = Publication(words: seq<bv16>, bitLen: nat)

  function Publish(bits: seq<bool>): Publication {
    Publication(Pack(bits), |bits|)
  }

  /** The cells a publication carries. */
  function Shown(p: Publication): (bits: seq<bool>) {
    if p.bitLen <= |p.words| * 16 then Unpack(p.words, p.bitLen) else []
  }

  lemma ShownPublish(bits: seq<bool>)
    ensures Shown(Publish(bits)) == bits
  {
    UnpackPack(bits);
  }

  /** How draining a stream ends, what it published, and the density it leaves known. */
  datatype Drained = Drained(result: Result<seq<bool>>, published: seq<Publication>, highDensity: bool)

  function AlsoPublished(first: Publication, d: Drained): Drained {
    d.(published := [first] + d.published)
  }

  function Drain(raw: seq<Byte>, mark: nat, arrivals: seq<ReadOutcome>,
                 frequency: U32, mode: DensityMode, known: bool): (d: Drained)
    requires frequency > 0
    decreases |arrivals|
  {
    if |raw| >= MAX_STREAM_BYTES then
      Drained(Err(TrackTooLarge(|raw| * 8, MAX_STREAM_BYTES * 8)), [], known)
    else if arrivals == [] then Drained(Err(Timeout), [], known)
    else
      match arrivals[0]
      case Quiet => Drain(raw, mark, arrivals[1..], frequency, mode, known)
      case Broken => Drained(Err(Io), [], known)
      case Chunk(bytes) =>
        if bytes == [] then Drained(Err(Disconnected), [], known)
        else if ZeroAt(bytes) < |bytes| then
          match OneShot(raw + bytes[..ZeroAt(bytes)], frequency, mode, known)
          case Err(e) => Drained(Err(e), [], known)
          case Ok(reading) => Drained(Ok(reading.bits), [Publish(reading.bits)], reading.highDensity)
        else
          var grown := raw + bytes;
          var partial := OneShot(grown, frequency, mode, known);
          if |grown| >= mark + PUBLISH_STRIDE && partial.Ok? then
            AlsoPublished(Publish(partial.value.bits),
              Drain(grown, |grown|, arrivals[1..], frequency, mode, partial.value.highDensity))
          else Drain(grown, mark, arrivals[1..], frequency, mode, known)
  }

  /** Prefixing what was published before. */
  function After(published: seq<Publication>, d: Drained): Drained {
    d.(published := published + d.published)
  }

  lemma AfterPublish(published: seq<Publication>, p: Publication, d: Drained)
    ensures After(published, AlsoPublished(p, d)) == After(published + [p], d)
    ensures After([], d) == d
  {
    assert published + ([p] + d.published) == (published + [p]) + d.published;
    assert [] + d.published == d.published;
  }

  // ----- attempts -----

  const ACK_OK: Byte := 0
  const ACK_NO_INDEX: Byte := 2
  const ACK_FLUX_OVERFLOW: Byte := 4
  const ACK_WRITE_PROTECTED: Byte := 6
  const MAX_ATTEMPTS: nat := 3

  /** What the device does during one attempt: the read command may be refused,
      the stream arrives, a status follows, and purging the pipe may fail. */
  datatype Attempt = Attempt(refused: Option<Error>, arrivals: seq<ReadOutcome>,
                             status: Result<Byte>, purge: Option<Error>)

  /** `map_ack`, for an acknowledgement other than success. */
  function AckError(ack: Byte): Error {
    if ack == ACK_NO_INDEX then Timeout
    else if ack == ACK_WRITE_PROTECTED then WriteProtected
    else Protocol
  }

  /** The partials of a failed attempt are stale; this says so. */
  const WITHDRAWN := Publication([], 0)

  /** An attempt ends the read, or asks for another one. */
  datatype Outcome = Ended(d: Drained) | Again(d: Drained)

  function Attempted(attempt: Attempt, last: bool, frequency: U32, mode: DensityMode, known: bool): (o: Outcome)
    requires frequency > 0
  {
    if attempt.refused.Some? then Ended(Drained(Err(attempt.refused.value), [], known))
    else
      var d := Drain([], 0, attempt.arrivals, frequency, mode, known);
      if d.result.Err? then Ended(d)
      else
        match attempt.status
        case Err(e) => Ended(d.(result := Err(e)))
        case Ok(ack) =>
          if ack == ACK_OK then Ended(d)
          else if ack == ACK_FLUX_OVERFLOW && !last then
            if attempt.purge.Some? then Ended(d.(result := Err(attempt.purge.value))) else Again(d)
          else Ended(d.(result := Err(AckError(ack))))
  }

  /** The attempts from `attempts[tried]` on. */
  function Tries(attempts: seq<Attempt>, tried: nat, frequency: U32, mode: DensityMode, known: bool): (d: Drained)
    requires frequency > 0
    requires |attempts| == MAX_ATTEMPTS && tried < MAX_ATTEMPTS
    decreases MAX_ATTEMPTS - tried
  {
    match Attempted(attempts[tried], tried + 1 == MAX_ATTEMPTS, frequency, mode, known)
    case Ended(d) => d
    case Again(d) =>
      if tried + 1 == MAX_ATTEMPTS then d
      else After(d.published + [WITHDRAWN], Tries(attempts, tried + 1, frequency, mode, d.highDensity))
  }

  datatype RawCapture = RawCapture(words: seq<bv16>, bitLen: nat, indexAligned: bool)

  /** `validate_capture`. */
  function Validated(capture: RawCapture): (r: Result<RawCapture>)
    ensures r.Ok? <==> 64 <= capture.bitLen <= |capture.words| * 16 && capture.bitLen <= MAX_TRACK_BITS
    ensures r.Ok? ==> r.value == capture
  {
    if capture.bitLen < 64 || capture.bitLen > |capture.words| * 16 then Err(Protocol)
    else if capture.bitLen > MAX_TRACK_BITS then Err(TrackTooLarge(capture.bitLen, MAX_TRACK_BITS))
    else Ok(capture)
  }

  /** The capture made of a drained stream, if its join is found and fits. */
  function Joined(d: Drained): (r: Result<RawCapture>) {
    match d.result
    case Err(e) => Err(e)
    case Ok(bits) =>
      match JoinOf(bits, d.highDensity)
      case Err(e) => Err(e)
      case Ok(revolution) => Validated(RawCapture(Pack(revolution), |revolution|, false))
  }

  lemma AfterAfter(a: seq<Publication>, b: seq<Publication>, d: Drained)
    ensures After(a, After(b, d)) == After(a + b, d)
  {
    assert a + (b + d.published) == (a + b) + d.published;
  }

  /** One attempt ends the read, or the read goes on with the next. */
  lemma TryStep(attempts: seq<Attempt>, tried: nat, frequency: U32, mode: DensityMode, known: bool,
                shown: seq<Publication>)
    requires frequency > 0
    requires |attempts| == MAX_ATTEMPTS && tried < MAX_ATTEMPTS
    ensures var rest := Tries(attempts, tried, frequency, mode, known);
      match Attempted(attempts[tried], tried + 1 == MAX_ATTEMPTS, frequency, mode, known)
      case Ended(d) => After(shown, rest) == d.(published := shown + d.published)
      case Again(d) =>
        tried + 1 < MAX_ATTEMPTS ==>
          After(shown, rest)
          == After(shown + d.published + [WITHDRAWN], Tries(attempts, tried + 1, frequency, mode, d.highDensity))
  {
    match Attempted(attempts[tried], tried + 1 == MAX_ATTEMPTS, frequency, mode, known)
    case Ended(_) =>
    case Again(d) =>
      if tried + 1 < MAX_ATTEMPTS {
        AfterAfter(shown, d.published + [WITHDRAWN], Tries(attempts, tried + 1, frequency, mode, d.highDensity));
        assert shown + (d.published + [WITHDRAWN]) == shown + d.published + [WITHDRAWN];
      }
  }

  class Greaseweazle {
    const sampleFrequency: U32
    var highDensity: bool

    constructor (frequency: U32, mode: DensityMode)
      requires frequency > 0
      ensures sampleFrequency == frequency
      ensures highDensity <==> mode.High?
    {
      sampleFrequency := frequency;
      highDensity := mode.High?;
    }

    /** `decode_at_density`: the verdict sticks, so an `Auto` write follows the last read. */
    method DecodeAtDensity(raw: seq<Byte>, mode: DensityMode) returns (r: Result<seq<FluxEvent>>)
      requires sampleFrequency > 0
      modifies this`highDensity
      ensures r == EventsAt(raw, sampleFrequency, mode, old(highDensity))
      ensures highDensity == match DecodeStream(raw, sampleFrequency)
        case Err(_) => old(highDensity)
        case Ok(events) => Resolved(events, mode, old(highDensity))
    {
      var decoded := DecodeQueue(raw, sampleFrequency);
      if decoded.Err? {
        return decoded;
      }
      var events := decoded.value;
      match mode {
        case Double => highDensity := false;
        case High => highDensity := true;
        case Auto =>
          if |events| >= HD_DETECT_MIN_EVENTS {
            highDensity := LooksHighDensity(events);
          }
      }
      if highDensity {
        for k := 0 to |events|
          invariant |events| == |decoded.value|
          invariant forall i :: k <= i < |events| ==> events[i] == decoded.value[i]
          invariant forall i :: 0 <= i < k ==> events[i] == Presented(decoded.value, true)[i]
        {
          events := events[k := events[k].(nanoseconds := DoubledDelay(events[k].nanoseconds))];
        }
        assert events == Presented(decoded.value, true);
      }
      return Ok(events);
    }

    method SubmitAll(events: seq<FluxEvent>) returns (bits: seq<bool>)
      ensures bits == CellsOf(events)
    {
      var pll := new PllDecoder();
      bits := [];
      ghost var delays := DelaysOf(events);
      assert delays[..0] == [];
      for k := 0 to |events|
        invariant Steady(pll.State())
        invariant Decode(CENTRED, delays[..k]) == Decoding(pll.State(), bits)
      {
        BoundedStep(CENTRED, delays, k);
        bits := pll.Submit(events[k].nanoseconds, bits);
      }
      assert delays[..|events|] == delays;
    }

    /** `drain_fast_stream`: re-decodes the whole buffer at each publish. */
    method DrainFastStream(arrivals: seq<ReadOutcome>, mode: DensityMode)
      returns (r: Result<seq<bool>>, published: seq<Publication>)
      requires sampleFrequency > 0
      modifies this`highDensity
      ensures Drained(r, published, highDensity)
           == Drain([], 0, arrivals, sampleFrequency, mode, old(highDensity))
    {
      published := [];
      var raw: seq<Byte> := [];
      var mark: nat := 0;
      var taken := 0;
      ghost var all := Drain([], 0, arrivals, sampleFrequency, mode, highDensity);
      assert arrivals[0..] == arrivals;
      AfterPublish([], Publish([]), all);
      while true
        invariant taken <= |arrivals|
        invariant all == After(published, Drain(raw, mark, arrivals[taken..], sampleFrequency, mode, highDensity))
        decreases |arrivals| - taken
      {
        if |raw| >= MAX_STREAM_BYTES {
          return Err(TrackTooLarge(|raw| * 8, MAX_STREAM_BYTES * 8)), published;
        }
        if taken == |arrivals| {
          return Err(Timeout), published;
        }
        var outcome := arrivals[taken];
        assert arrivals[taken..][1..] == arrivals[taken + 1..];
        taken := taken + 1;
        match outcome
        case Quiet =>
        case Broken => return Err(Io), published;
        case Chunk(bytes) =>
          if bytes == [] {
            return Err(Disconnected), published;
          }
          var end := ZeroAt(bytes);
          raw := raw + bytes[..end];
          if end < |bytes| {
            var events := DecodeAtDensity(raw, mode);
            if events.Err? {
              return Err(events.error), published;
            }
            var bits := SubmitAll(events.value);
            var words := PackBits(bits);
            return Ok(bits), published + [Publication(words, |bits|)];
          }
          assert bytes[..end] == bytes;
          if |raw| >= mark + PUBLISH_STRIDE {
            ghost var known := highDensity;
            var events := DecodeAtDensity(raw, mode);
            if events.Ok? {
              var bits := SubmitAll(events.value);
              var words := PackBits(bits);
              AfterPublish(published, Publish(bits),
                Drain(raw, |raw|, arrivals[taken..], sampleFrequency, mode, highDensity));
              published := published + [Publication(words, |bits|)];
              mark := |raw|;
            }
          }
      }
    }

    /** One attempt: the read command, the drained stream, and the status after it. */
    method RunAttempt(attempt: Attempt, last: bool, mode: DensityMode)
      returns (again: bool, r: Result<seq<bool>>, published: seq<Publication>)
      requires sampleFrequency > 0
      modifies this`highDensity
      ensures again ==> !last
      ensures var d := Drained(r, published, highDensity);
        Attempted(attempt, last, sampleFrequency, mode, old(highDensity)) == if again then Again(d) else Ended(d)
    {
      if attempt.refused.Some? {
        return false, Err(attempt.refused.value), [];
      }
      r, published := DrainFastStream(attempt.arrivals, mode);
      again := false;
      if r.Err? {
        return;
      }
      if attempt.status.Err? {
        r := Err(attempt.status.error);
        return;
      }
      var ack := attempt.status.value;
      if ack == ACK_OK {
      } else if ack == ACK_NO_INDEX {
        r := Err(Timeout);
      } else if ack == ACK_FLUX_OVERFLOW && !last {
        if attempt.purge.Some? {
          r := Err(attempt.purge.value);
        } else {
          again := true;
        }
      } else if ack == ACK_FLUX_OVERFLOW {
        r := Err(Protocol);
      } else {
        r := Err(AckError(ack));
      }
    }

    /** Up to three attempts, withdrawing what an overflowed one published. */
    method RunAttempts(attempts: seq<Attempt>, mode: DensityMode)
      returns (drained: Result<seq<bool>>, published: seq<Publication>)
      requires sampleFrequency > 0
      requires |attempts| == MAX_ATTEMPTS
      modifies this`highDensity
      ensures Drained(drained, published, highDensity)
           == Tries(attempts, 0, sampleFrequency, mode, old(highDensity))
    {
      published := [];
      ghost var all := Tries(attempts, 0, sampleFrequency, mode, highDensity);
      AfterPublish([], WITHDRAWN, all);
      var tried := 0;
      while true
        invariant tried < MAX_ATTEMPTS
        invariant all == After(published, Tries(attempts, tried, sampleFrequency, mode, highDensity))
        decreases MAX_ATTEMPTS - tried
      {
        TryStep(attempts, tried, sampleFrequency, mode, highDensity, published);
        var again, result, shown := RunAttempt(attempts[tried], tried + 1 == MAX_ATTEMPTS, mode);
        published := published + shown;
        if !again {
          return result, published;
        }
        published := published + [WITHDRAWN];
        tried := tried + 1;
      }
    }

    /** `read_stream_fast`. Selecting the drive and releasing it again can fail. */
    method ReadStreamFast(select: Option<Error>, attempts: seq<Attempt>, deselect: Option<Error>, mode: DensityMode)
      returns (r: Result<RawCapture>, published: seq<Publication>)
      requires sampleFrequency > 0
      requires |attempts| == MAX_ATTEMPTS
      modifies this`highDensity
      ensures select.Some? ==> r == Err(select.value) && published == [] && highDensity == old(highDensity)
      ensures select.None? ==>
        var d := Tries(attempts, 0, sampleFrequency, mode, old(highDensity));
        && published == d.published
        && highDensity == d.highDensity
        && r == if d.result.Ok? && deselect.Some? then Err(deselect.value) else Joined(d)
    {
      published := [];
      if select.Some? {
        return Err(select.value), published;
      }
      var drained;
      drained, published := RunAttempts(attempts, mode);
      if drained.Err? {
        return Err(drained.error), published;
      }
      if deselect.Some? {
        return Err(deselect.value), published;
      }
      var joined := BitsToUnalignedRevolution(drained.value, highDensity);
      if joined.Err? {
        return Err(joined.error), published;
      }
      var words := PackBits(joined.value);
      return Validated(RawCapture(words, |joined.value|, false)), published;
    }
  }
}
