/** Revolution extraction and MFM/flux conversion: packed cells to transition
    delays, index-to-index cuts, and the join of an index-less capture. */
module Revolution {
  import opened Common
  import opened TrackBits
  import opened Pll

  // ----- MFM to flux -----

  /** Cells counted into finished intervals, and those still open at the end. */
  datatype Intervals = Intervals(gaps: seq<nat>, open: nat)

  function Measure(bits: seq<bool>): (m: Intervals)
    ensures |m.gaps| + m.open <= |bits|
    ensures forall k :: 0 <= k < |m.gaps| ==> 1 <= m.gaps[k] <= |bits|
  {
    if bits == [] then Intervals([], 0)
    else
      var before := Measure(bits[..|bits| - 1]);
      if bits[|bits| - 1] then Intervals(before.gaps + [before.open + 1], 0)
      else Intervals(before.gaps, before.open + 1)
  }

  /** The intervals written for a stream of cells: a trailing stretch of empty
      cells is closed by a transition of its own. */
  function Gaps(bits: seq<bool>): (gaps: seq<nat>)
    ensures |gaps| <= |bits|
    ensures forall k :: 0 <= k < |gaps| ==> 1 <= gaps[k] <= |bits|
  {
    var m := Measure(bits);
    if m.open == 0 then m.gaps else m.gaps + [m.open]
  }

  lemma {:induction false} MeasureSpells(bits: seq<bool>)
    ensures bits == Cells(Measure(bits).gaps) + Empty(Measure(bits).open)
    ensures Measure(bits).open == 0 <==> bits == [] || bits[|bits| - 1]
    decreases |bits|
  {
    if bits != [] {
      var front := bits[..|bits| - 1];
      MeasureSpells(front);
      Spelled(front, Measure(front).gaps, Measure(front).open);
      assert bits == front + [bits[|bits| - 1]];
    }
  }

  lemma Spelled(cells: seq<bool>, gaps: seq<nat>, open: nat)
    requires cells == Cells(gaps) + Empty(open)
    ensures cells + [true] == Cells(gaps + [open + 1])
    ensures Cells(gaps + [open + 1]) == Cells(gaps + [open + 1]) + Empty(0)
    ensures cells + [false] == Cells(gaps) + Empty(open + 1)
  {
    CellsAppend(gaps, open + 1);
    assert Empty(open + 1) == Empty(open) + [false];
  }

  /** Read back as cells, the written intervals are the original cells, except
      that the last one reads as a transition. */
  lemma GapsSpell(bits: seq<bool>)
    requires bits != []
    ensures Cells(Gaps(bits)) == bits[|bits| - 1 := true]
  {
    MeasureSpells(bits);
    var m := Measure(bits);
    if m.open == 0 {
      assert bits == Cells(m.gaps);
    } else {
      CellsAppend(m.gaps, m.open);
      assert Gap(m.open) == Empty(m.open)[m.open - 1 := true];
    }
  }

  predicate Fits(gaps: seq<nat>, cell: U32) {
    forall k :: 0 <= k < |gaps| ==> gaps[k] * cell <= U32_MAX
  }

  function Delays(gaps: seq<nat>, cell: U32): (delays: seq<U32>)
    requires Fits(gaps, cell)
    ensures |delays| == |gaps|
  {
    seq(|gaps|, k requires 0 <= k < |gaps| => gaps[k] * cell)
  }

  /** `mfm_to_flux`, as a function of the cells it is handed. */
  function FluxOf(words: seq<bv16>, bitLen: nat, cell: U32): (r: Result<seq<U32>>) {
    if bitLen == 0 || bitLen > |words| * 16 then Err(InvalidConfig)
    else if bitLen > MAX_TRACK_BITS then Err(TrackTooLarge(bitLen, MAX_TRACK_BITS))
    else
      var gaps := Gaps(Unpack(words, bitLen));
      if Fits(gaps, cell) then Ok(Delays(gaps, cell)) else Err(InvalidConfig)
  }

  method MfmToFlux(words: seq<bv16>, bitLen: nat, cell: U32) returns (r: Result<seq<U32>>)
    ensures r == FluxOf(words, bitLen, cell)
  {
    if bitLen == 0 || bitLen > |words| * 16 {
      return Err(InvalidConfig);
    }
    if bitLen > MAX_TRACK_BITS {
      return Err(TrackTooLarge(bitLen, MAX_TRACK_BITS));
    }
    ghost var bits := Unpack(words, bitLen);
    var flux: seq<U32> := [];
    var cells: U32 := 0;
    assert bits[..0] == [];
    for position := 0 to bitLen
      invariant cells <= position
      invariant Written(Measure(bits[..position]), cells, flux, cell)
    {
      WriteNext(bits, position, cells, flux, cell);
      cells := cells + 1;
      if BitOf(words, position) {
        if cells * cell > U32_MAX {
          return Err(InvalidConfig);
        }
        flux := flux + [cells * cell];
        cells := 0;
      }
    }
    assert bits[..bitLen] == bits;
    WriteEnd(bits, cells, flux, cell);
    if cells != 0 {
      if cells * cell > U32_MAX {
        return Err(InvalidConfig);
      }
      flux := flux + [cells * cell];
    }
    return Ok(flux);
  }

  /** The loop's variables account for the cells seen so far. */
  predicate Written(m: Intervals, cells: U32, flux: seq<U32>, cell: U32) {
    m.open == cells && Fits(m.gaps, cell) && flux == Delays(m.gaps, cell)
  }

  lemma WriteStep(m: Intervals, cells: U32, flux: seq<U32>, cell: U32)
    requires Written(m, cells, flux, cell)
    requires cells < U32_MAX
    ensures Written(Intervals(m.gaps, m.open + 1), cells + 1, flux, cell)
    ensures (cells + 1) * cell <= U32_MAX ==>
        Written(Intervals(m.gaps + [m.open + 1], 0), 0, flux + [(cells + 1) * cell], cell)
  {
  }

  lemma WriteEnd(bits: seq<bool>, cells: U32, flux: seq<U32>, cell: U32)
    requires Written(Measure(bits), cells, flux, cell)
    ensures cells == 0 ==> Fits(Gaps(bits), cell) && flux == Delays(Gaps(bits), cell)
    ensures cells != 0 && cells * cell <= U32_MAX ==>
        Fits(Gaps(bits), cell) && flux + [cells * cell] == Delays(Gaps(bits), cell)
    ensures cells != 0 && cells * cell > U32_MAX ==> !Fits(Gaps(bits), cell)
  {
    if cells != 0 {
      assert Gaps(bits)[|Gaps(bits)| - 1] == cells;
    }
  }

  lemma MeasureStep(bits: seq<bool>, position: nat)
    requires position < |bits|
    ensures var before := Measure(bits[..position]);
      Measure(bits[..position + 1])
        == if bits[position] then Intervals(before.gaps + [before.open + 1], 0)
           else Intervals(before.gaps, before.open + 1)
  {
    assert bits[..position + 1][..position] == bits[..position];
  }

  lemma {:induction false} MeasureGrows(bits: seq<bool>, position: nat)
    requires position <= |bits|
    ensures Measure(bits[..position]).gaps <= Measure(bits).gaps
    decreases |bits| - position
  {
    if position == |bits| {
      assert bits[..position] == bits;
    } else {
      MeasureStep(bits, position);
      MeasureGrows(bits, position + 1);
    }
  }

  lemma FirstMisfit(bits: seq<bool>, position: nat, cell: U32)
    requires position < |bits| && bits[position]
    requires (Measure(bits[..position]).open + 1) * cell > U32_MAX
    ensures !Fits(Gaps(bits), cell)
  {
    MeasureStep(bits, position);
    MeasureGrows(bits, position + 1);
    var gaps := Measure(bits[..position + 1]).gaps;
    assert Gaps(bits)[|gaps| - 1] == gaps[|gaps| - 1];
  }

  /** One cell of the loop: a transition closes an interval, unless it does not fit. */
  lemma WriteNext(bits: seq<bool>, position: nat, cells: U32, flux: seq<U32>, cell: U32)
    requires position < |bits| && cells < U32_MAX
    requires Written(Measure(bits[..position]), cells, flux, cell)
    ensures !bits[position] ==> Written(Measure(bits[..position + 1]), cells + 1, flux, cell)
    ensures bits[position] ==>
        if (cells + 1) * cell > U32_MAX then !Fits(Gaps(bits), cell)
        else Written(Measure(bits[..position + 1]), 0, flux + [(cells + 1) * cell], cell)
  {
    MeasureStep(bits, position);
    WriteStep(Measure(bits[..position]), cells, flux, cell);
    if bits[position] && (cells + 1) * cell > U32_MAX {
      FirstMisfit(bits, position, cell);
    }
  }

  // ----- flux to cells, within the track limit -----

  function DelaysOf(events: seq<FluxEvent>): (delays: seq<U32>)
    ensures |delays| == |events|
  {
    seq(|events|, k requires 0 <= k < |events| => events[k].nanoseconds)
  }

  /** Decodes a stream, stopping with an error at the first event that takes the
      track past its limit. */
  function Bounded(s: PllState, delays: seq<U32>): (r: Result<seq<bool>>)
    requires Steady(s)
  {
    if delays == [] then Ok([])
    else
      match Bounded(s, delays[..|delays| - 1])
      case Err(e) => Err(e)
      case Ok(_) =>
        var cells := Decode(s, delays).cells;
        if |cells| > MAX_TRACK_BITS then Err(TrackTooLarge(|cells|, MAX_TRACK_BITS)) else Ok(cells)
  }

  /** The limit only ever refuses: what it lets through is the whole decode. */
  lemma {:induction false} BoundedExactly(s: PllState, delays: seq<U32>)
    requires Steady(s)
    ensures Bounded(s, delays).Ok? <==> |Decode(s, delays).cells| <= MAX_TRACK_BITS
    ensures Bounded(s, delays).Ok? ==> Bounded(s, delays).value == Decode(s, delays).cells
    ensures Bounded(s, delays).Err? ==>
        exists bits: nat :: bits > MAX_TRACK_BITS && Bounded(s, delays).error == TrackTooLarge(bits, MAX_TRACK_BITS)
    decreases |delays|
  {
    if delays != [] {
      var front := delays[..|delays| - 1];
      BoundedExactly(s, front);
      DecodeGrows(s, front, delays);
    }
  }

  lemma {:induction false} BoundedFails(s: PllState, delays: seq<U32>, k: nat)
    requires Steady(s)
    requires k <= |delays|
    requires Bounded(s, delays[..k]).Err?
    ensures Bounded(s, delays) == Bounded(s, delays[..k])
    decreases |delays| - k
  {
    if k == |delays| {
      assert delays[..k] == delays;
    } else {
      assert delays[..k + 1][..k] == delays[..k];
      BoundedFails(s, delays, k + 1);
    }
  }

  lemma BoundedStep(s: PllState, delays: seq<U32>, k: nat)
    requires Steady(s)
    requires k < |delays|
    ensures var before, after := Decode(s, delays[..k]), Decode(s, delays[..k + 1]);
      && after.state == SubmitTo(before.state, delays[k]).state
      && after.cells == before.cells + SubmitTo(before.state, delays[k]).cells
    ensures Bounded(s, delays[..k]).Ok? && |Decode(s, delays[..k + 1]).cells| <= MAX_TRACK_BITS ==>
        Bounded(s, delays[..k + 1]) == Ok(Decode(s, delays[..k + 1]).cells)
    ensures Bounded(s, delays[..k]).Ok? && |Decode(s, delays[..k + 1]).cells| > MAX_TRACK_BITS ==>
        Bounded(s, delays[..k + 1]) == Err(TrackTooLarge(|Decode(s, delays[..k + 1]).cells|, MAX_TRACK_BITS))
  {
    assert delays[..k + 1][..k] == delays[..k];
  }

  // ----- index to index -----

  /** A packed revolution, and whether an index mark began it. */
  datatype Cut = Cut(words: seq<bv16>, bitLen: nat, indexed: bool)

  /** The first event at or after `from` that carries an index mark. */
  function FirstIndex(events: seq<FluxEvent>, from: nat): (k: nat)
    requires from <= |events|
    ensures from <= k <= |events|
    ensures forall j :: from <= j < k ==> !events[j].index
    ensures k < |events| ==> events[k].index
    decreases |events| - from
  {
    if from == |events| || events[from].index then from else FirstIndex(events, from + 1)
  }

  /** Where capturing begins, where it ends, and the PLL state carried into it. */
  datatype Span = Span(start: nat, stop: nat)

  function CaptureSpan(events: seq<FluxEvent>): (span: Span)
    ensures span.start <= span.stop <= |events|
  {
    var first := FirstIndex(events, 0);
    if first == |events| then Span(0, |events|)
    else Span(first, FirstIndex(events, first + 1))
  }

  function WarmUp(events: seq<FluxEvent>): (d: Decoding)
    ensures Steady(d.state)
  {
    Decode(CENTRED, DelaysOf(events[..CaptureSpan(events).start]))
  }

  function CutOf(events: seq<FluxEvent>): (r: Result<Cut>) {
    var span := CaptureSpan(events);
    match Bounded(WarmUp(events).state, DelaysOf(events[span.start..span.stop]))
    case Err(e) => Err(e)
    case Ok(bits) =>
      if |bits| < 64 then Err(Protocol)
      else Ok(Cut(Pack(bits), |bits|, FirstIndex(events, 0) < |events|))
  }

  /** The PLL and the captured cells once `k` events have been submitted. */
  function Progress(events: seq<FluxEvent>, k: nat): (d: Decoding)
    requires k <= CaptureSpan(events).stop
    ensures Steady(d.state)
  {
    var start := CaptureSpan(events).start;
    if k <= start then Decoding(Decode(CENTRED, DelaysOf(events[..k])).state, [])
    else Decode(WarmUp(events).state, DelaysOf(events[start..k]))
  }

  /** What the limit makes of the cells captured so far. */
  function Limited(events: seq<FluxEvent>, k: nat): Result<seq<bool>>
    requires k <= CaptureSpan(events).stop
  {
    var start := CaptureSpan(events).start;
    if k <= start then Ok([]) else Bounded(WarmUp(events).state, DelaysOf(events[start..k]))
  }

  lemma DelaysUpTo(events: seq<FluxEvent>, from: nat, k: nat, to: nat)
    requires from <= k <= to <= |events|
    ensures DelaysOf(events[from..to])[..k - from] == DelaysOf(events[from..k])
  {
  }

  lemma WarmStep(events: seq<FluxEvent>, k: nat)
    requires k < CaptureSpan(events).start
    ensures Progress(events, k + 1)
         == Decoding(SubmitTo(Progress(events, k).state, events[k].nanoseconds).state, [])
  {
    var delays := DelaysOf(events[..k + 1]);
    DelaysUpTo(events, 0, k, k + 1);
    BoundedStep(CENTRED, delays, k);
    assert delays[..k + 1] == delays;
    assert events[..k] == events[0..k] && events[..k + 1] == events[0..k + 1];
  }

  lemma CaptureStep(events: seq<FluxEvent>, k: nat)
    requires CaptureSpan(events).start <= k < CaptureSpan(events).stop
    requires Limited(events, k).Ok?
    ensures var before, after := Progress(events, k), Progress(events, k + 1);
      && var more := SubmitTo(before.state, events[k].nanoseconds);
      && after == Decoding(more.state, before.cells + more.cells)
      && (if |after.cells| <= MAX_TRACK_BITS then Limited(events, k + 1) == Ok(after.cells)
          else Limited(events, k + 1) == Err(TrackTooLarge(|after.cells|, MAX_TRACK_BITS)))
  {
    var start := CaptureSpan(events).start;
    var delays := DelaysOf(events[start..k + 1]);
    DelaysUpTo(events, start, k, k + 1);
    BoundedStep(WarmUp(events).state, delays, k - start);
    assert delays[..k + 1 - start] == delays;
    if k == start {
      assert delays[..0] == [];
    }
  }

  lemma LimitFails(events: seq<FluxEvent>, k: nat)
    requires CaptureSpan(events).start < k <= CaptureSpan(events).stop
    requires Limited(events, k).Err?
    ensures CutOf(events) == Err(Limited(events, k).error)
  {
    var span := CaptureSpan(events);
    DelaysUpTo(events, span.start, k, span.stop);
    BoundedFails(WarmUp(events).state, DelaysOf(events[span.start..span.stop]), k - span.start);
  }

  lemma CutFinishes(events: seq<FluxEvent>)
    ensures var bits := Limited(events, CaptureSpan(events).stop);
      CutOf(events) == match bits
        case Err(e) => Err(e)
        case Ok(cells) =>
          if |cells| < 64 then Err(Protocol)
          else Ok(Cut(Pack(cells), |cells|, FirstIndex(events, 0) < |events|))
  {
    var span := CaptureSpan(events);
    if span.stop == span.start {
      assert DelaysOf(events[span.start..span.stop]) == [];
    }
  }

  lemma SpanMarks(events: seq<FluxEvent>, k: nat)
    requires k < |events| && k <= CaptureSpan(events).stop
    ensures var span := CaptureSpan(events);
      var hasIndex := FirstIndex(events, 0) < |events|;
      events[k].index <==> hasIndex && (k == span.start || k == span.stop)
  {
  }

  /** The loop's state accounts for the first `k` events. */
  predicate Cutting(events: seq<FluxEvent>, k: nat, state: PllState, bits: seq<bool>) {
    k <= CaptureSpan(events).stop && Progress(events, k) == Decoding(state, bits) && Limited(events, k) == Ok(bits)
  }

  lemma WarmNext(events: seq<FluxEvent>, k: nat, state: PllState, bits: seq<bool>)
    requires Cutting(events, k, state, bits) && k < CaptureSpan(events).start
    ensures Steady(state) && bits == []
    ensures Cutting(events, k + 1, SubmitTo(state, events[k].nanoseconds).state, bits)
  {
    WarmStep(events, k);
  }

  lemma CaptureNext(events: seq<FluxEvent>, k: nat, state: PllState, bits: seq<bool>)
    requires Cutting(events, k, state, bits) && CaptureSpan(events).start <= k < CaptureSpan(events).stop
    ensures Steady(state) && (k == CaptureSpan(events).start ==> bits == [])
    ensures var more := SubmitTo(state, events[k].nanoseconds);
      var grown := bits + more.cells;
      if |grown| <= MAX_TRACK_BITS then Cutting(events, k + 1, more.state, grown)
      else CutOf(events) == Err(TrackTooLarge(|grown|, MAX_TRACK_BITS))
  {
    CaptureStep(events, k);
    if Limited(events, k + 1).Err? {
      LimitFails(events, k + 1);
    }
  }

  lemma CutEnds(events: seq<FluxEvent>, state: PllState, bits: seq<bool>)
    requires Cutting(events, CaptureSpan(events).stop, state, bits)
    ensures CutOf(events) == if |bits| < 64 then Err(Protocol)
                             else Ok(Cut(Pack(bits), |bits|, FirstIndex(events, 0) < |events|))
  {
    CutFinishes(events);
  }

  /** `flux_to_revolution`: events before the first index mark only settle the PLL. */
  method FluxToRevolution(events: seq<FluxEvent>) returns (r: Result<Cut>)
    ensures r == CutOf(events)
  {
    var pll := new PllDecoder();
    var warmup: seq<bool> := [];
    var bits: seq<bool> := [];
    var hasIndex := FirstIndex(events, 0) < |events|;
    var capturing := !hasIndex;
    var sawStart := false;
    ghost var span := CaptureSpan(events);
    assert DelaysOf(events[..0]) == [];
    var k: nat := 0;
    while k < |events|
      invariant k <= span.stop
      invariant sawStart <==> hasIndex && k > span.start
      invariant capturing <==> !hasIndex || k > span.start
      invariant Steady(pll.State()) && Cutting(events, k, pll.State(), bits)
    {
      var event := events[k];
      SpanMarks(events, k);
      if event.index && sawStart {
        break;
      }
      if event.index {
        sawStart := true;
        capturing := true;
        bits := [];
      }
      if capturing {
        CaptureNext(events, k, pll.State(), bits);
        bits := pll.Submit(event.nanoseconds, bits);
      } else {
        WarmNext(events, k, pll.State(), bits);
        warmup := pll.Submit(event.nanoseconds, warmup);
      }
      if |bits| > MAX_TRACK_BITS {
        return Err(TrackTooLarge(|bits|, MAX_TRACK_BITS));
      }
      k := k + 1;
    }
    CutEnds(events, pll.State(), bits);
    if |bits| < 64 {
      return Err(Protocol);
    }
    var words := PackBits(bits);
    return Ok(Cut(words, |bits|, sawStart));
  }

  /** With two index marks, the decode of everything before the second is the
      warm-up followed by exactly the returned revolution. */
  lemma IndexSplitsOneDecode(events: seq<FluxEvent>)
    requires FirstIndex(events, 0) < |events|
    requires CutOf(events).Ok?
    ensures var span := CaptureSpan(events);
      var cut := CutOf(events).value;
      && cut.indexed
      && cut.bitLen <= |cut.words| * 16
      && Decode(CENTRED, DelaysOf(events[..span.stop])).cells
           == WarmUp(events).cells + Unpack(cut.words, cut.bitLen)
  {
    var span := CaptureSpan(events);
    var early, captured := DelaysOf(events[..span.start]), DelaysOf(events[span.start..span.stop]);
    assert DelaysOf(events[..span.stop]) == early + captured;
    DecodeSplits(CENTRED, early, captured);
    BoundedExactly(WarmUp(events).state, captured);
    UnpackPack(Bounded(WarmUp(events).state, captured).value);
  }

  /** When a cut succeeds, and how long a revolution it then returns. */
  lemma CutExactly(events: seq<FluxEvent>)
    ensures var span := CaptureSpan(events);
      var cells := Decode(WarmUp(events).state, DelaysOf(events[span.start..span.stop])).cells;
      && (CutOf(events).Ok? <==> 64 <= |cells| <= MAX_TRACK_BITS)
      && (CutOf(events).Ok? ==> CutOf(events).value.bitLen == |cells|)
  {
    var span := CaptureSpan(events);
    BoundedExactly(WarmUp(events).state, DelaysOf(events[span.start..span.stop]));
  }
}
