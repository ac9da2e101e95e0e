/** Writing a track as a Greaseweazle stream, and reading that stream back. */
module WriteRead {
  import opened Common
  import opened TrackBits
  import opened Pll
  import opened Ticks
  import opened Revolution
  import opened Streams
  import opened GreaseweazleReads
  import opened StreamingRefinement

  function CellNanoseconds(highDensity: bool): U32 {
    if highDensity then 1_000 else 2_000
  }

  predicate TicksFit(delays: seq<U32>, frequency: U32) {
    forall k :: 0 <= k < |delays| ==> TicksOf(delays[k], frequency) <= U32_MAX
  }

  function AllTicks(delays: seq<U32>, frequency: U32): (ticks: seq<U32>)
    requires TicksFit(delays, frequency)
    ensures |ticks| == |delays|
  {
    seq(|delays|, k requires 0 <= k < |delays| => TicksOf(delays[k], frequency))
  }

  /** The stream `write_stream` sends for a track. */
  function WrittenStream(words: seq<bv16>, bitLen: nat, highDensity: bool, frequency: U32): (r: Result<seq<Byte>>) {
    match FluxOf(words, bitLen, CellNanoseconds(highDensity))
    case Err(e) => Err(e)
    case Ok(delays) =>
      if TicksFit(delays, frequency) then Ok(EncodeAll(AllTicks(delays, frequency)) + [0]) else Err(Protocol)
  }

  lemma Regrouped(a: seq<Byte>, b: seq<Byte>, c: seq<Byte>)
    ensures a + (b + c) == (a + b) + c
  {
  }

  lemma {:induction false} EncodeAppend(ticks: seq<U32>, t: U32)
    ensures EncodeAll(ticks + [t]) == EncodeAll(ticks) + EncodeTicks(t)
  {
    var all := ticks + [t];
    if ticks == [] {
      assert all[1..] == [] && EncodeAll([]) == [];
      Regrouped([], EncodeTicks(t), []);
    } else {
      EncodeAppend(ticks[1..], t);
      assert all[1..] == ticks[1..] + [t];
      Regrouped(EncodeTicks(ticks[0]), EncodeAll(ticks[1..]), EncodeTicks(t));
    }
  }

  lemma TicksAppend(delays: seq<U32>, k: nat, frequency: U32)
    requires k < |delays|
    requires TicksFit(delays[..k], frequency) && TicksOf(delays[k], frequency) <= U32_MAX
    ensures TicksFit(delays[..k + 1], frequency)
    ensures EncodeAll(AllTicks(delays[..k + 1], frequency))
         == EncodeAll(AllTicks(delays[..k], frequency)) + EncodeTicks(TicksOf(delays[k], frequency))
  {
    var more := delays[..k + 1];
    assert forall j :: 0 <= j < k ==> more[j] == delays[..k][j];
    assert AllTicks(more, frequency) == AllTicks(delays[..k], frequency) + [TicksOf(delays[k], frequency)];
    EncodeAppend(AllTicks(delays[..k], frequency), TicksOf(delays[k], frequency));
  }

  /** The encoding half of `write_stream`. */
  method EncodeTrack(words: seq<bv16>, bitLen: nat, highDensity: bool, frequency: U32) returns (r: Result<seq<Byte>>)
    ensures r == WrittenStream(words, bitLen, highDensity, frequency)
  {
    var timings := MfmToFlux(words, bitLen, CellNanoseconds(highDensity));
    if timings.Err? {
      return Err(timings.error);
    }
    var delays := timings.value;
    var stream: seq<Byte> := [];
    assert delays[..0] == [];
    for k := 0 to |delays|
      invariant TicksFit(delays[..k], frequency)
      invariant stream == EncodeAll(AllTicks(delays[..k], frequency))
    {
      var ticks := TicksOf(delays[k], frequency);
      if ticks > U32_MAX {
        return Err(Protocol);
      }
      TicksAppend(delays, k, frequency);
      stream := PushTicks(ticks, stream);
    }
    assert delays[..|delays|] == delays;
    return Ok(stream + [0]);
  }

  // ----- how long the stream is -----

  function Sum(gaps: seq<nat>): nat {
    if gaps == [] then 0 else gaps[0] + Sum(gaps[1..])
  }

  lemma {:induction false} SumAppend(gaps: seq<nat>, n: nat)
    ensures Sum(gaps + [n]) == Sum(gaps) + n
  {
    if gaps != [] {
      SumAppend(gaps[1..], n);
      assert (gaps + [n])[1..] == gaps[1..] + [n];
    } else {
      assert [] + [n] == [n] && [n][1..] == [];
    }
  }

  lemma {:induction false} MeasureSums(bits: seq<bool>)
    ensures Sum(Measure(bits).gaps) + Measure(bits).open == |bits|
  {
    if bits != [] {
      var before := Measure(bits[..|bits| - 1]);
      MeasureSums(bits[..|bits| - 1]);
      SumAppend(before.gaps, before.open + 1);
    }
  }

  /** The intervals of a track cover it exactly. */
  lemma GapsSum(bits: seq<bool>)
    ensures Sum(Gaps(bits)) == |bits|
  {
    MeasureSums(bits);
    SumAppend(Measure(bits).gaps, Measure(bits).open);
  }

  lemma CodeLength(t: U32)
    ensures |EncodeTicks(t)| <= 7
    ensures t < 1_525 ==> |EncodeTicks(t)| <= 2
  {
  }

  /** Single cells that take the long form of the code. */
  function LongSingles(gaps: seq<nat>, ticks: seq<U32>): nat
    requires |gaps| == |ticks|
  {
    if gaps == [] then 0
    else (if gaps[0] == 1 && ticks[0] >= 1_525 then 1 else 0) + LongSingles(gaps[1..], ticks[1..])
  }

  /** Intervals are coded at no more than seven bytes for every two cells, but for
      single cells in the long form. */
  lemma {:induction false} StreamLength(gaps: seq<nat>, ticks: seq<U32>)
    requires |gaps| == |ticks|
    requires forall k :: 0 <= k < |gaps| ==> gaps[k] >= 1
    ensures 2 * |EncodeAll(ticks)| <= 7 * Sum(gaps) + 7 * LongSingles(gaps, ticks)
    decreases |gaps|
  {
    if gaps != [] {
      CodeLength(ticks[0]);
      StreamLength(gaps[1..], ticks[1..]);
    }
  }

  lemma {:induction false} NoLongSingles(gaps: seq<nat>, ticks: seq<U32>)
    requires |gaps| == |ticks|
    requires forall k :: 0 <= k < |gaps| ==> gaps[k] != 1 || ticks[k] < 1_525
    ensures LongSingles(gaps, ticks) == 0
  {
    if gaps != [] {
      NoLongSingles(gaps[1..], ticks[1..]);
    }
  }

  lemma {:induction false} LongSingleAtTheEnd(gaps: seq<nat>, ticks: seq<U32>)
    requires |gaps| == |ticks|
    requires forall k :: 0 <= k < |gaps| - 1 ==> gaps[k] != 1
    ensures LongSingles(gaps, ticks) <= 1
  {
    if gaps != [] {
      LongSingleAtTheEnd(gaps[1..], ticks[1..]);
    }
  }

  /** The fastest clock at which a single cell never takes the long form. */
  const FASTEST_CLOCK: U32 := 762_000_000

  lemma SingleCellIsShort(frequency: U32, highDensity: bool)
    requires 0 < frequency <= FASTEST_CLOCK
    ensures TicksOf(CellNanoseconds(highDensity), frequency) < 1_525
  {
  }

  /** A written track of any content stays below the limit of a read: three and a
      half bytes a cell, and the terminator. */
  lemma TrackFitsARead(words: seq<bv16>, bitLen: nat, highDensity: bool, frequency: U32)
    requires 0 < frequency <= FASTEST_CLOCK
    requires WrittenStream(words, bitLen, highDensity, frequency).Ok?
    ensures var stream := WrittenStream(words, bitLen, highDensity, frequency).value;
      2 * (|stream| - 1) <= 7 * bitLen && |stream| <= MAX_STREAM_BYTES
  {
    var cell := CellNanoseconds(highDensity);
    var gaps := Gaps(Unpack(words, bitLen));
    var ticks := AllTicks(Delays(gaps, cell), frequency);
    SingleCellIsShort(frequency, highDensity);
    forall k | 0 <= k < |gaps|
      ensures gaps[k] != 1 || ticks[k] < 1_525
    {
      if gaps[k] == 1 {
        assert Delays(gaps, cell)[k] == cell;
      }
    }
    NoLongSingles(gaps, ticks);
    GapsSum(Unpack(words, bitLen));
    StreamLength(gaps, ticks);
  }

  // ----- reading a written stream -----

  lemma {:induction false} ZeroFreeEnds(bytes: seq<Byte>, rest: seq<Byte>)
    requires 0 !in bytes
    ensures ZeroAt(bytes + [0] + rest) == |bytes|
  {
    if bytes == [] {
      assert bytes + [0] + rest == [0] + rest;
    } else {
      ZeroFreeEnds(bytes[1..], rest);
      assert (bytes + [0] + rest)[1..] == bytes[1..] + [0] + rest;
    }
  }

  /** Encoded intervals, delivered in any chunks, reach the PLL as they were timed. */
  lemma WrittenReadsBack(ticks: seq<U32>, arrivals: seq<ReadOutcome>, frequency: U32, mode: DensityMode, known: bool)
    requires frequency > 0
    requires forall k :: 0 <= k < |ticks| ==> 0 < ticks[k] < TICK_LIMIT
    requires forall k :: 0 <= k < |ticks| ==> Nanoseconds(ticks[k], frequency) <= U32_MAX
    requires |EncodeAll(ticks)| < MAX_STREAM_BYTES
    requires Healthy(arrivals) && EncodeAll(ticks) + [0] <= Delivered(arrivals)
    ensures var events, d := EventsOf(ticks, frequency), Drain([], 0, arrivals, frequency, mode, known);
      && d.highDensity == Resolved(events, mode, known)
      && d.result == Ok(CellsOf(Presented(events, d.highDensity)))
  {
    var stream := EncodeAll(ticks);
    var rest := Delivered(arrivals)[|stream| + 1..];
    assert Delivered(arrivals) == stream + [0] + rest;
    ZeroFree(ticks);
    ZeroFreeEnds(stream, rest);
    assert Delivered(arrivals)[..|stream|] == stream;
    StreamingIsOneShot(arrivals, frequency, mode, known);
    TicksRoundTrip(ticks, frequency);
  }

  // ----- exact clocks -----

  /** On a clock of `m` MHz every interval reads back as a whole number of nominal cells. */
  lemma ExactInterval(n: nat, m: nat, highDensity: bool)
    requires 1 <= n <= MAX_TRACK_BITS && 1 <= m <= 564
    ensures var frequency := m * 1_000_000;
      var delay := n * CellNanoseconds(highDensity);
      && delay <= U32_MAX
      && TicksOf(delay, frequency) == (if highDensity then n * m else 2 * n * m)
      && 0 < TicksOf(delay, frequency) < TICK_LIMIT
      && (n == 1 ==> TicksOf(delay, frequency) < 1_525)
      && Nanoseconds(TicksOf(delay, frequency), frequency) == delay
  {
    if highDensity {
      SmallProduct(n, m);
      MegahertzExact(n, m);
    } else {
      SmallProduct(2 * n, m);
      MegahertzExact(2 * n, m);
      assert 2 * n * 1_000 == n * 2_000;
    }
  }

  lemma {:induction false} WiderProduct(us: nat, a: nat, b: nat)
    requires a <= b
    ensures us * a <= us * b
    decreases b
  {
    if a < b {
      WiderProduct(us, a, b - 1);
      assert us * b == us * (b - 1) + us;
    }
  }

  lemma SmallProduct(us: nat, m: nat)
    requires 1 <= us <= 2 * MAX_TRACK_BITS && 1 <= m <= 564
    ensures us <= us * m <= us * 564 < TICK_LIMIT
  {
    WiderProduct(us, 1, m);
    WiderProduct(us, m, 564);
  }

  lemma ExactEvents(gaps: seq<nat>, m: nat, highDensity: bool)
    requires 1 <= m <= 564
    requires forall k :: 0 <= k < |gaps| ==> 1 <= gaps[k] <= MAX_TRACK_BITS
    ensures var frequency, cell := m * 1_000_000, CellNanoseconds(highDensity);
      && Fits(gaps, cell)
      && TicksFit(Delays(gaps, cell), frequency)
      && var ticks := AllTicks(Delays(gaps, cell), frequency);
      && (forall k :: 0 <= k < |ticks| ==> 0 < ticks[k] < TICK_LIMIT)
      && (forall k :: 0 <= k < |ticks| ==> Nanoseconds(ticks[k], frequency) <= U32_MAX)
      && (forall k :: 0 <= k < |ticks| ==> Nanoseconds(ticks[k], frequency) == gaps[k] * cell)
      && (forall k :: 0 <= k < |ticks| ==> gaps[k] >= 2 || ticks[k] < 1_525)
  {
    forall k | 0 <= k < |gaps|
      ensures gaps[k] * CellNanoseconds(highDensity) <= U32_MAX
      ensures TicksOf(gaps[k] * CellNanoseconds(highDensity), m * 1_000_000) < TICK_LIMIT
    {
      ExactInterval(gaps[k], m, highDensity);
    }
    var ticks := AllTicks(Delays(gaps, CellNanoseconds(highDensity)), m * 1_000_000);
    forall k | 0 <= k < |ticks|
      ensures 0 < ticks[k] && (gaps[k] >= 2 || ticks[k] < 1_525)
      ensures Nanoseconds(ticks[k], m * 1_000_000) == gaps[k] * CellNanoseconds(highDensity)
    {
      ExactInterval(gaps[k], m, highDensity);
    }
  }

  lemma ExactDelays(gaps: seq<nat>, ticks: seq<U32>, frequency: U32, highDensity: bool)
    requires frequency > 0
    requires |ticks| == |gaps|
    requires forall k :: 0 <= k < |gaps| ==> 1 <= gaps[k] <= MAX_TRACK_BITS
    requires forall k :: 0 <= k < |ticks| ==> Nanoseconds(ticks[k], frequency) <= U32_MAX
    requires forall k :: 0 <= k < |ticks| ==>
        Nanoseconds(ticks[k], frequency) == gaps[k] * CellNanoseconds(highDensity)
    ensures CellsOf(Presented(EventsOf(ticks, frequency), highDensity)) == Cells(gaps)
  {
    var delays := DelaysOf(Presented(EventsOf(ticks, frequency), highDensity));
    forall k | 0 <= k < |gaps|
      ensures delays[k] == gaps[k] * CLOCK_CENTRE_NS
    {
    }
    NominalDecodes(delays, gaps);
  }

  /** Ticks that are what is written for a track, and that spell it when read back. */
  predicate Carries(ticks: seq<U32>, words: seq<bv16>, bitLen: nat, highDensity: bool, frequency: U32)
    requires frequency > 0 && 1 <= bitLen <= |words| * 16
  {
    && WrittenStream(words, bitLen, highDensity, frequency) == Ok(EncodeAll(ticks) + [0])
    && |EncodeAll(ticks)| < MAX_STREAM_BYTES
    && (forall k :: 0 <= k < |ticks| ==> 0 < ticks[k] < TICK_LIMIT && Nanoseconds(ticks[k], frequency) <= U32_MAX)
    && CellsOf(Presented(EventsOf(ticks, frequency), highDensity)) == Unpack(words, bitLen)[bitLen - 1 := true]
  }

  lemma CarriedBack(ticks: seq<U32>, words: seq<bv16>, bitLen: nat, highDensity: bool, frequency: U32,
                    arrivals: seq<ReadOutcome>, known: bool)
    requires frequency > 0 && 1 <= bitLen <= |words| * 16
    requires Carries(ticks, words, bitLen, highDensity, frequency)
    requires Healthy(arrivals) && WrittenStream(words, bitLen, highDensity, frequency).value <= Delivered(arrivals)
    ensures var d := Drain([], 0, arrivals, frequency, if highDensity then High else Double, known);
      d.result == Ok(Unpack(words, bitLen)[bitLen - 1 := true]) && d.highDensity == highDensity
  {
    WrittenReadsBack(ticks, arrivals, frequency, if highDensity then High else Double, known);
  }

  lemma ExactlyCarried(words: seq<bv16>, bitLen: nat, highDensity: bool, m: nat) returns (ticks: seq<U32>)
    requires 1 <= bitLen <= MAX_TRACK_BITS && bitLen <= |words| * 16
    requires 1 <= m <= 564
    ensures Carries(ticks, words, bitLen, highDensity, m * 1_000_000)
    ensures var gaps, cell := Gaps(Unpack(words, bitLen)), CellNanoseconds(highDensity);
      && Fits(gaps, cell) && TicksFit(Delays(gaps, cell), m * 1_000_000)
      && ticks == AllTicks(Delays(gaps, cell), m * 1_000_000)
  {
    var frequency, cell := m * 1_000_000, CellNanoseconds(highDensity);
    var bits := Unpack(words, bitLen);
    var gaps := Gaps(bits);
    ExactEvents(gaps, m, highDensity);
    ticks := AllTicks(Delays(gaps, cell), frequency);
    GapsSum(bits);
    NoLongSingles(gaps, ticks);
    StreamLength(gaps, ticks);
    ExactDelays(gaps, ticks, frequency, highDensity);
    GapsSpell(bits);
  }

  /** Write, then read: on any device clock of 1 to 564 MHz, at either density,
      any track whatever -- legal MFM or not -- comes back cell for cell through
      transition intervals, device ticks, the byte code, any chunking of the
      stream, and the PLL, except that its last cell reads as a transition. */
  lemma WriteThenRead(words: seq<bv16>, bitLen: nat, highDensity: bool, m: nat,
                      arrivals: seq<ReadOutcome>, known: bool)
    requires 1 <= bitLen <= MAX_TRACK_BITS && bitLen <= |words| * 16
    requires 1 <= m <= 564
    ensures WrittenStream(words, bitLen, highDensity, m * 1_000_000).Ok?
    ensures Healthy(arrivals) && WrittenStream(words, bitLen, highDensity, m * 1_000_000).value <= Delivered(arrivals) ==>
        var d := Drain([], 0, arrivals, m * 1_000_000, if highDensity then High else Double, known);
        d.result == Ok(Unpack(words, bitLen)[bitLen - 1 := true]) && d.highDensity == highDensity
  {
    var ticks := ExactlyCarried(words, bitLen, highDensity, m);
    if Healthy(arrivals) && WrittenStream(words, bitLen, highDensity, m * 1_000_000).value <= Delivered(arrivals) {
      CarriedBack(ticks, words, bitLen, highDensity, m * 1_000_000, arrivals, known);
    }
  }

  // ----- any clock -----

  /** The slowest device clock whose rounding the PLL absorbs. */
  function SlowestClock(highDensity: bool): U32 {
    if highDensity then 9_900_991 else 4_975_125
  }

  /** Legal MFM, cut anywhere: every interval is two to four cells, but for what the
      ends of the track leave of the first and the last. */
  predicate LegalMfm(bits: seq<bool>) {
    LegalGaps(Gaps(bits))
  }

  /** Rounding to device ticks and back moves a nominal delay by at most 100 ns. */
  lemma RoundedInterval(n: nat, frequency: U32, highDensity: bool)
    requires 1 <= n <= 4
    requires frequency >= SlowestClock(highDensity)
    ensures var delay := n * CellNanoseconds(highDensity);
      && 0 < TicksOf(delay, frequency) < TICK_LIMIT
      && Nanoseconds(TicksOf(delay, frequency), frequency) <= 10_000
      && var shown := Nanoseconds(TicksOf(delay, frequency), frequency) * (if highDensity then 2 else 1);
      -100 <= shown - n * CLOCK_CENTRE_NS <= 100
  {
    var delay: nat := n * CellNanoseconds(highDensity);
    ClockTicks(delay, frequency, highDensity);
    ClockError(delay, frequency);
    var back := Nanoseconds(TicksOf(delay, frequency), frequency);
    ErrorBound(frequency, back - delay, if highDensity then 50 else 100);
  }

  lemma ClockTicks(delay: nat, frequency: U32, highDensity: bool)
    requires CellNanoseconds(highDensity) <= delay <= 8_000
    requires frequency >= SlowestClock(highDensity)
    ensures delay * frequency >= 500_000_000
    ensures TicksOf(delay, frequency) < 40_000
  {
    assert CellNanoseconds(highDensity) * frequency <= delay * frequency <= 8_000 * frequency;
  }

  lemma CancelFactor(f: int, x: int, y: int)
    requires f > 0
    requires f * x < f * y
    ensures x < y
  {
  }

  lemma ErrorBound(frequency: U32, error: int, bound: int)
    requires frequency > 0 && bound >= 0
    requires -(SECOND_NS + frequency) <= 2 * frequency * error <= SECOND_NS + frequency
    requires (2 * bound + 1) * frequency > SECOND_NS
    ensures -bound <= error <= bound
  {
    var f: int := frequency;
    assert 2 * f * error == f * (2 * error);
    assert (2 * bound + 1) * f + f == f * (2 * bound + 2);
    CancelFactor(f, 2 * error, 2 * bound + 2);
    CancelFactor(f, -(2 * bound + 2), 2 * error);
  }

  lemma RoundedEvents(gaps: seq<nat>, frequency: U32, highDensity: bool)
    requires frequency >= SlowestClock(highDensity)
    requires LegalGaps(gaps)
    ensures var cell := CellNanoseconds(highDensity);
      && Fits(gaps, cell)
      && TicksFit(Delays(gaps, cell), frequency)
      && var ticks := AllTicks(Delays(gaps, cell), frequency);
      && (forall k :: 0 <= k < |ticks| ==> 0 < ticks[k] < TICK_LIMIT)
      && (forall k :: 0 <= k < |ticks| ==> Nanoseconds(ticks[k], frequency) <= 10_000)
      && CellsOf(Presented(EventsOf(ticks, frequency), highDensity)) == Cells(gaps)
  {
    var cell := CellNanoseconds(highDensity);
    forall k | 0 <= k < |gaps|
      ensures TicksOf(gaps[k] * cell, frequency) < TICK_LIMIT
    {
      RoundedInterval(gaps[k], frequency, highDensity);
    }
    var ticks := AllTicks(Delays(gaps, cell), frequency);
    forall k | 0 <= k < |ticks|
      ensures 0 < ticks[k] && Nanoseconds(ticks[k], frequency) <= 10_000
    {
      RoundedInterval(gaps[k], frequency, highDensity);
    }
    var delays := DelaysOf(Presented(EventsOf(ticks, frequency), highDensity));
    forall k | 0 <= k < |gaps|
      ensures Tolerates(NOISY, CLOCK_CENTRE_NS, delays[k] - gaps[k] * CLOCK_CENTRE_NS)
    {
      RoundedInterval(gaps[k], frequency, highDensity);
    }
    LegalGapsLock(delays, gaps, |gaps|);
    assert delays[..|gaps|] == delays && gaps[..|gaps|] == gaps;
  }

  /** Only the two ends can be single cells. */
  lemma FewLongSingles(gaps: seq<nat>, ticks: seq<U32>)
    requires |gaps| == |ticks| && LegalGaps(gaps)
    ensures LongSingles(gaps, ticks) <= 2
  {
    if gaps != [] {
      LongSingleAtTheEnd(gaps[1..], ticks[1..]);
    }
  }

  lemma LegallyCarried(words: seq<bv16>, bitLen: nat, highDensity: bool, frequency: U32) returns (ticks: seq<U32>)
    requires 1 <= bitLen <= MAX_TRACK_BITS && bitLen <= |words| * 16
    requires LegalMfm(Unpack(words, bitLen))
    requires frequency >= SlowestClock(highDensity)
    ensures Carries(ticks, words, bitLen, highDensity, frequency)
    ensures var gaps, cell := Gaps(Unpack(words, bitLen)), CellNanoseconds(highDensity);
      && Fits(gaps, cell) && TicksFit(Delays(gaps, cell), frequency)
      && ticks == AllTicks(Delays(gaps, cell), frequency)
  {
    var bits := Unpack(words, bitLen);
    var gaps := Gaps(bits);
    RoundedEvents(gaps, frequency, highDensity);
    ticks := AllTicks(Delays(gaps, CellNanoseconds(highDensity)), frequency);
    GapsSum(bits);
    FewLongSingles(gaps, ticks);
    StreamLength(gaps, ticks);
    GapsSpell(bits);
  }

  /** Write, then read, on any clock the PLL can follow: legal MFM survives the
      rounding of every delay to device ticks and back. */
  lemma LegalWriteThenRead(words: seq<bv16>, bitLen: nat, highDensity: bool, frequency: U32,
                           arrivals: seq<ReadOutcome>, known: bool)
    requires 1 <= bitLen <= MAX_TRACK_BITS && bitLen <= |words| * 16
    requires LegalMfm(Unpack(words, bitLen))
    requires frequency >= SlowestClock(highDensity)
    ensures WrittenStream(words, bitLen, highDensity, frequency).Ok?
    ensures Healthy(arrivals) && WrittenStream(words, bitLen, highDensity, frequency).value <= Delivered(arrivals) ==>
        var d := Drain([], 0, arrivals, frequency, if highDensity then High else Double, known);
        d.result == Ok(Unpack(words, bitLen)[bitLen - 1 := true]) && d.highDensity == highDensity
  {
    var ticks := LegallyCarried(words, bitLen, highDensity, frequency);
    if Healthy(arrivals) && WrittenStream(words, bitLen, highDensity, frequency).value <= Delivered(arrivals) {
      CarriedBack(ticks, words, bitLen, highDensity, frequency, arrivals, known);
    }
  }

  // ----- automatic density -----

  /** The intervals of at most so many cells. */
  function CountUpTo(gaps: seq<nat>, limit: nat): nat {
    if gaps == [] then 0
    else CountUpTo(gaps[..|gaps| - 1], limit) + (if gaps[|gaps| - 1] <= limit then 1 else 0)
  }

  /** Intervals a double-density track could not have are those of at most so many cells. */
  lemma {:induction false} ShortAreCounted(events: seq<FluxEvent>, gaps: seq<nat>, limit: nat)
    requires |events| == |gaps|
    ensures (forall k :: 0 <= k < |gaps| ==> (gaps[k] <= limit ==> events[k].nanoseconds < 3_000)) ==>
        CountUpTo(gaps, limit) <= ShortCount(events)
    ensures (forall k :: 0 <= k < |gaps| ==> (events[k].nanoseconds < 3_000 ==> gaps[k] <= limit)) ==>
        ShortCount(events) <= CountUpTo(gaps, limit)
  {
    if gaps != [] {
      var last := |gaps| - 1;
      ShortAreCounted(events[..last], gaps[..last], limit);
      assert forall k :: 0 <= k < last ==> gaps[..last][k] == gaps[k] && events[..last][k] == events[k];
    }
  }

  /** Single cells stand at the ends of a legal track only. */
  lemma {:induction false} FewSingles(gaps: seq<nat>, k: nat)
    requires LegalGaps(gaps) && k <= |gaps|
    ensures CountUpTo(gaps[..k], 1) <= (if k == 0 then 0 else if k < |gaps| then 1 else 2)
    decreases k
  {
    if k > 0 {
      FewSingles(gaps, k - 1);
      assert gaps[..k][..k - 1] == gaps[..k - 1];
    }
  }

  /** The cells a high-density drive packs into the time of a double-density one. */
  function ShortCells(highDensity: bool): nat {
    if highDensity then 2 else 1
  }

  /** The verdict on a track's own intervals: more than a quarter of a thousand or
      more are too short for double density. */
  predicate JudgedHigh(gaps: seq<nat>, highDensity: bool, known: bool) {
    if |gaps| >= 1_000 then CountUpTo(gaps, ShortCells(highDensity)) * 4 > |gaps| else known
  }

  lemma ExactVerdict(gaps: seq<nat>, ticks: seq<U32>, frequency: U32, highDensity: bool, known: bool)
    requires frequency > 0 && |ticks| == |gaps|
    requires forall k :: 0 <= k < |ticks| ==> Nanoseconds(ticks[k], frequency) <= U32_MAX
    requires forall k :: 0 <= k < |ticks| ==>
        Nanoseconds(ticks[k], frequency) == gaps[k] * CellNanoseconds(highDensity)
    ensures Resolved(EventsOf(ticks, frequency), Auto, known) == JudgedHigh(gaps, highDensity, known)
  {
    ShortAreCounted(EventsOf(ticks, frequency), gaps, ShortCells(highDensity));
  }

  /** Write, then read at automatic density, on a device clock of 1 to 564 MHz: which
      density the read settles on, for any track whatever, and that the track comes
      back cell for cell if it is the one it was written at. */
  lemma AutoVerdictExactly(words: seq<bv16>, bitLen: nat, highDensity: bool, m: nat,
                           arrivals: seq<ReadOutcome>, known: bool)
    requires 1 <= bitLen <= MAX_TRACK_BITS && bitLen <= |words| * 16
    requires 1 <= m <= 564
    requires WrittenStream(words, bitLen, highDensity, m * 1_000_000).Ok?
    requires Healthy(arrivals) && WrittenStream(words, bitLen, highDensity, m * 1_000_000).value <= Delivered(arrivals)
    ensures var d := Drain([], 0, arrivals, m * 1_000_000, Auto, known);
      && (d.highDensity <==> JudgedHigh(Gaps(Unpack(words, bitLen)), highDensity, known))
      && (d.highDensity == highDensity ==> d.result == Ok(Unpack(words, bitLen)[bitLen - 1 := true]))
  {
    var frequency, gaps := m * 1_000_000, Gaps(Unpack(words, bitLen));
    var ticks := ExactlyCarried(words, bitLen, highDensity, m);
    ExactEvents(gaps, m, highDensity);
    ExactVerdict(gaps, ticks, frequency, highDensity, known);
    WrittenReadsBack(ticks, arrivals, frequency, Auto, known);
  }

  lemma LegalVerdict(gaps: seq<nat>, ticks: seq<U32>, frequency: U32, highDensity: bool, known: bool)
    requires frequency >= SlowestClock(highDensity) && LegalGaps(gaps)
    requires Fits(gaps, CellNanoseconds(highDensity)) && TicksFit(Delays(gaps, CellNanoseconds(highDensity)), frequency)
    requires ticks == AllTicks(Delays(gaps, CellNanoseconds(highDensity)), frequency)
    requires forall k :: 0 <= k < |ticks| ==> Nanoseconds(ticks[k], frequency) <= U32_MAX
    requires |gaps| >= 1_000
    requires highDensity ==> CountUpTo(gaps, 2) * 4 > |gaps|
    ensures Resolved(EventsOf(ticks, frequency), Auto, known) == highDensity
  {
    var events := EventsOf(ticks, frequency);
    forall k | 0 <= k < |gaps|
      ensures highDensity && gaps[k] <= 2 ==> events[k].nanoseconds < 3_000
      ensures !highDensity && events[k].nanoseconds < 3_000 ==> gaps[k] <= 1
    {
      RoundedInterval(gaps[k], frequency, highDensity);
    }
    ShortAreCounted(events, gaps, ShortCells(highDensity));
    FewSingles(gaps, |gaps|);
    assert gaps[..|gaps|] == gaps;
  }

  /** Write, then read at automatic density, on any clock the PLL can follow: a legal
      track of a thousand transitions or more comes back, and leaves its own density
      known, whatever was known before; at high density, if more than a quarter of
      its intervals are of two cells. */
  lemma LegalAutoWriteThenRead(words: seq<bv16>, bitLen: nat, highDensity: bool, frequency: U32,
                               arrivals: seq<ReadOutcome>, known: bool)
    requires 1 <= bitLen <= MAX_TRACK_BITS && bitLen <= |words| * 16
    requires LegalMfm(Unpack(words, bitLen))
    requires frequency >= SlowestClock(highDensity)
    requires |Gaps(Unpack(words, bitLen))| >= 1_000
    requires highDensity ==> CountUpTo(Gaps(Unpack(words, bitLen)), 2) * 4 > |Gaps(Unpack(words, bitLen))|
    ensures WrittenStream(words, bitLen, highDensity, frequency).Ok?
    ensures Healthy(arrivals) && WrittenStream(words, bitLen, highDensity, frequency).value <= Delivered(arrivals) ==>
        var d := Drain([], 0, arrivals, frequency, Auto, known);
        d.result == Ok(Unpack(words, bitLen)[bitLen - 1 := true]) && d.highDensity == highDensity
  {
    var ticks := LegallyCarried(words, bitLen, highDensity, frequency);
    if Healthy(arrivals) && WrittenStream(words, bitLen, highDensity, frequency).value <= Delivered(arrivals) {
      WrittenReadsBack(ticks, arrivals, frequency, Auto, known);
      LegalVerdict(Gaps(Unpack(words, bitLen)), ticks, frequency, highDensity, known);
    }
  }
}
