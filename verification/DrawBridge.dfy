/** The DrawBridge write encodings: transition counts packed into delayed
    nibbles for double density, and into two-bit slots for high density. */
module DrawBridge {
  import opened Common
  import opened TrackBits
  import opened Pll
  import opened Revolution

  const RUN_OUT: nat := 8

  /** The cell at `position`, with an alternating run-out past the track's end. */
  predicate BitAt(bits: seq<bool>, position: nat) {
    if position < |bits| then bits[position] else (position - |bits|) % 2 == 0
  }

  /** The track and its run-out. */
  function WithRunOut(bits: seq<bool>): (cells: seq<bool>)
    ensures |cells| == |bits| + RUN_OUT
  {
    seq(|bits| + RUN_OUT, p requires 0 <= p => BitAt(bits, p))
  }

  function ClampCount(count: nat, limit: Byte): (c: Byte)
    requires limit >= 2
    ensures 2 <= c <= limit
  {
    Max(2, Min(count, limit))
  }

  function Clamped(gaps: seq<nat>, limit: Byte): (counts: seq<Byte>)
    requires limit >= 2
    ensures |counts| == |gaps|
  {
    seq(|gaps|, k requires 0 <= k < |gaps| => ClampCount(gaps[k], limit))
  }

  /** The counts written for a track: its intervals up to the run-out's last transition. */
  function CountsOf(words: seq<bv16>, bitLen: nat, limit: Byte): (r: Result<seq<Byte>>)
    requires limit >= 2
  {
    if bitLen == 0 || bitLen > |words| * 16 then Err(InvalidConfig)
    else Ok(Clamped(Measure(WithRunOut(Unpack(words, bitLen))).gaps, limit))
  }

  /** `bit_at`, on packed words. */
  predicate StoredBit(words: seq<bv16>, bitLen: nat, position: nat)
    requires bitLen <= |words| * 16
  {
    if position >= bitLen then (position - bitLen) % 2 == 0 else BitOf(words, position)
  }

  lemma StoredBitIs(words: seq<bv16>, bitLen: nat, position: nat)
    requires bitLen <= |words| * 16 && position < bitLen + RUN_OUT
    ensures StoredBit(words, bitLen, position) == WithRunOut(Unpack(words, bitLen))[position]
  {
  }

  /** The loop's variables account for the cells counted so far. */
  predicate Counted(m: Intervals, count: Byte, counts: seq<Byte>, limit: Byte)
    requires limit >= 2
  {
    count == Min(m.open, 255) && counts == Clamped(m.gaps, limit)
  }

  lemma CountStep(m: Intervals, count: Byte, counts: seq<Byte>, limit: Byte)
    requires 2 <= limit < 255
    requires Counted(m, count, counts, limit)
    ensures var more: Byte := Min(count as int + 1, 255);
      && Counted(Intervals(m.gaps, m.open + 1), more, counts, limit)
      && Counted(Intervals(m.gaps + [m.open + 1], 0), 0, counts + [ClampCount(more, limit)], limit)
  {
  }

  /** `transition_counts`, whose counter saturates at 255. */
  method TransitionCounts(words: seq<bv16>, bitLen: nat, limit: Byte) returns (r: Result<seq<Byte>>)
    requires 2 <= limit < 255
    ensures r == CountsOf(words, bitLen, limit)
  {
    if bitLen == 0 || bitLen > |words| * 16 {
      return Err(InvalidConfig);
    }
    ghost var cells := WithRunOut(Unpack(words, bitLen));
    var counts: seq<Byte> := [];
    var count: Byte := 0;
    var position: nat := 0;
    assert cells[..0] == [];
    while position < bitLen + 8
      invariant position <= bitLen + 8
      invariant Counted(Measure(cells[..position]), count, counts, limit)
    {
      MeasureStep(cells, position);
      StoredBitIs(words, bitLen, position);
      CountStep(Measure(cells[..position]), count, counts, limit);
      count := Min(count as int + 1, 255);
      if StoredBit(words, bitLen, position) {
        counts := counts + [ClampCount(count, limit)];
        count := 0;
      }
      position := position + 1;
    }
    assert cells[..position] == cells;
    return Ok(counts);
  }

  // ----- double density -----

  /** Write precompensation: a transition between a short and a long interval is nudged. */
  function Adjustment(previous: Byte, count: Byte, precomp: bool): nat {
    if precomp && previous == 2 && count >= 4 then 4
    else if precomp && previous >= 4 && count == 2 then 8
    else 0
  }

  /** A nibble names the interval before the one it is written for. */
  function Nibble(previous: Byte, count: Byte, precomp: bool): (n: nat)
    requires 2 <= previous <= 5
    ensures n < 16 && n % 4 == previous - 2
  {
    (previous as int - 2) + Adjustment(previous, count, precomp)
  }

  predicate CountsUpTo(counts: seq<Byte>, limit: Byte) {
    forall k :: 0 <= k < |counts| ==> 2 <= counts[k] <= limit
  }

  function DdBytes(counts: seq<Byte>, previous: Byte, precomp: bool): (bytes: seq<Byte>)
    requires CountsUpTo(counts, 5) && 2 <= previous <= 5
    ensures |bytes| == (|counts| + 1) / 2
  {
    if counts == [] then []
    else if |counts| == 1 then [Nibble(previous, counts[0], precomp)]
    else
      [Nibble(previous, counts[0], precomp) + Nibble(counts[0], counts[1], precomp) * 16]
      + DdBytes(counts[2..], counts[1], precomp)
  }

  function DdStream(words: seq<bv16>, bitLen: nat, precomp: bool): Result<seq<Byte>> {
    match CountsOf(words, bitLen, 5)
    case Err(e) => Err(e)
    case Ok(counts) => Ok(DdBytes(counts, 2, precomp))
  }

  /** `encode_dd`: two counts a byte, each nibble delayed by one interval. */
  method EncodeDd(words: seq<bv16>, bitLen: nat, precomp: bool) returns (r: Result<seq<Byte>>)
    ensures r == DdStream(words, bitLen, precomp)
  {
    var counted := TransitionCounts(words, bitLen, 5);
    if counted.Err? {
      return Err(counted.error);
    }
    var output := PackNibbles(counted.value, precomp);
    return Ok(output);
  }

  method PackNibbles(counts: seq<Byte>, precomp: bool) returns (output: seq<Byte>)
    requires CountsUpTo(counts, 5)
    ensures output == DdBytes(counts, 2, precomp)
  {
    output := [];
    var previous: Byte := 2;
    var at: nat := 0;
    while at < |counts|
      invariant at <= |counts| && 2 <= previous <= 5
      invariant Packing(counts, precomp, output, at, previous)
    {
      PackStep(counts, precomp, output, at, previous);
      var byte: int := Nibble(previous, counts[at], precomp);
      previous := counts[at];
      if at + 1 < |counts| {
        byte := byte + Nibble(previous, counts[at + 1], precomp) * 16;
        previous := counts[at + 1];
        at := at + 2;
      } else {
        at := at + 1;
      }
      output := output + [byte];
    }
    assert counts[at..] == [];
  }

  /** What is packed so far, and what is left to pack. */
  predicate Packing(counts: seq<Byte>, precomp: bool, output: seq<Byte>, at: nat, previous: Byte)
    requires CountsUpTo(counts, 5) && at <= |counts| && 2 <= previous <= 5
  {
    DdBytes(counts, 2, precomp) == output + DdBytes(counts[at..], previous, precomp)
  }

  lemma PackStep(counts: seq<Byte>, precomp: bool, output: seq<Byte>, at: nat, previous: Byte)
    requires CountsUpTo(counts, 5) && at < |counts| && 2 <= previous <= 5
    requires Packing(counts, precomp, output, at, previous)
    ensures var low := Nibble(previous, counts[at], precomp);
      if at + 1 < |counts| then
        Packing(counts, precomp,
                output + [low + Nibble(counts[at], counts[at + 1], precomp) * 16], at + 2, counts[at + 1])
      else Packing(counts, precomp, output + [low], at + 1, counts[at])
  {
    FirstByte(counts, at, previous, precomp);
  }

  lemma FirstByte(counts: seq<Byte>, at: nat, previous: Byte, precomp: bool)
    requires CountsUpTo(counts, 5) && at < |counts| && 2 <= previous <= 5
    ensures DdBytes(counts[at..], previous, precomp)
         == if at + 1 < |counts| then
              [Nibble(previous, counts[at], precomp) + Nibble(counts[at], counts[at + 1], precomp) * 16]
              + DdBytes(counts[at + 2..], counts[at + 1], precomp)
            else [Nibble(previous, counts[at], precomp)] + DdBytes(counts[at + 1..], counts[at], precomp)
  {
    var left := counts[at..];
    if at + 1 < |counts| {
      assert left[2..] == counts[at + 2..];
    } else {
      assert left == [counts[at]] && counts[at + 1..] == [];
    }
  }

  /** The intervals the low two bits of the nibbles name, low nibble first. */
  function NibbleGaps(bytes: seq<Byte>): (gaps: seq<nat>)
    ensures |gaps| == 2 * |bytes|
  {
    if bytes == [] then []
    else [bytes[0] as int % 4 + 2, bytes[0] as int / 16 % 4 + 2] + NibbleGaps(bytes[1..])
  }

  function Naturals(counts: seq<Byte>): (gaps: seq<nat>)
    ensures |gaps| == |counts|
  {
    seq(|counts|, k requires 0 <= k < |counts| => counts[k] as int)
  }

  lemma NibblePair(low: nat, high: nat)
    requires low < 16 && high < 16
    ensures (low + high * 16) % 4 == low % 4
    ensures (low + high * 16) / 16 % 4 == high % 4
  {
  }

  lemma NaturalsCons(counts: seq<Byte>)
    requires |counts| > 2
    ensures Naturals(counts[..|counts| - 1])
         == [counts[0] as int, counts[1] as int] + Naturals(counts[2..][..|counts| - 3])
  {
  }

  lemma FirstGaps(low: nat, high: nat, bytes: seq<Byte>)
    requires low < 16 && high < 16
    requires bytes != [] && bytes[0] as int == low + high * 16
    ensures NibbleGaps(bytes) == [low % 4 + 2, high % 4 + 2] + NibbleGaps(bytes[1..])
  {
    NibblePair(low, high);
  }

  /** The intervals the first byte names. */
  lemma FirstNibbles(counts: seq<Byte>, previous: Byte, precomp: bool)
    requires CountsUpTo(counts, 5) && 2 <= previous <= 5
    requires counts != []
    ensures var bytes := DdBytes(counts, previous, precomp);
      && bytes != []
      && NibbleGaps(bytes) == [previous as int, if |counts| == 1 then 2 else counts[0] as int] + NibbleGaps(bytes[1..])
  {
    var high := if |counts| == 1 then 0 else Nibble(counts[0], counts[1], precomp);
    FirstGaps(Nibble(previous, counts[0], precomp), high, DdBytes(counts, previous, precomp));
  }

  /** What an odd number of counts leaves in its last high nibble. */
  function Spare(count: nat): seq<nat> {
    if count % 2 == 1 then [2] else []
  }

  /** The nibbles carry every count but the last, one place late; precompensation
      never reaches the bits that carry them. */
  lemma {:induction false} NibblesDelayCounts(counts: seq<Byte>, previous: Byte, precomp: bool)
    requires CountsUpTo(counts, 5) && 2 <= previous <= 5
    requires counts != []
    ensures NibbleGaps(DdBytes(counts, previous, precomp))
         == [previous as int] + Naturals(counts[..|counts| - 1]) + Spare(|counts|)
    decreases |counts|
  {
    var rest := DdBytes(counts, previous, precomp)[1..];
    FirstNibbles(counts, previous, precomp);
    if |counts| == 1 {
      assert NibbleGaps(rest) == [] && Naturals(counts[..0]) == [];
    } else if |counts| == 2 {
      assert NibbleGaps(rest) == [] && Naturals(counts[..1]) == [counts[0] as int];
    } else {
      NibblesDelayCounts(counts[2..], counts[1], precomp);
      assert rest == DdBytes(counts[2..], counts[1], precomp);
      NaturalsCons(counts);
      PairUp(previous, counts[0], counts[1], Naturals(counts[2..][..|counts| - 3]), Spare(|counts|));
    }
  }

  lemma PairUp(a: nat, b: nat, c: nat, middle: seq<nat>, end: seq<nat>)
    ensures [a, b] + ([c] + middle + end) == [a] + ([b, c] + middle) + end
  {
  }

  // ----- precompensation -----

  /** How the transition at place `k` is shifted: the upper two bits of its nibble,
      low nibble first. */
  function Nudge(bytes: seq<Byte>, k: nat): nat
    requires k < 2 * |bytes|
  {
    if k % 2 == 0 then bytes[k / 2] as int / 4 % 4 else bytes[k / 2] as int / 64
  }

  /** One way between a short interval and a long one, the other way between a long
      one and a short one. */
  predicate Nudged(nudge: nat, precomp: bool, before: nat, after: nat) {
    && (nudge == 1 <==> precomp && before <= 2 && after >= 4)
    && (nudge == 2 <==> precomp && before >= 4 && after <= 2)
    && nudge < 3
  }

  lemma NibbleNudges(previous: Byte, count: Byte, precomp: bool)
    requires 2 <= previous <= 5 && 2 <= count <= 5
    ensures Nudged(Nibble(previous, count, precomp) / 4, precomp, previous as int, count as int)
  {
  }

  lemma ByteNudges(low: nat, high: nat)
    requires low < 16 && high < 16
    ensures (low + high * 16) / 4 % 4 == low / 4
    ensures (low + high * 16) / 64 == high / 4
  {
  }

  lemma {:induction false} NudgesAt(counts: seq<Byte>, previous: Byte, precomp: bool, k: nat)
    requires CountsUpTo(counts, 5) && 2 <= previous <= 5 && k < |counts|
    ensures Nudged(Nudge(DdBytes(counts, previous, precomp), k), precomp,
                   (if k == 0 then previous else counts[k - 1]) as int, counts[k] as int)
    decreases |counts|
  {
    if k >= 2 {
      NudgesAt(counts[2..], counts[1], precomp, k - 2);
      LaterNudge(DdBytes(counts, previous, precomp), k);
    } else {
      FirstNudges(counts, previous, precomp, k);
    }
  }

  lemma LaterNudge(bytes: seq<Byte>, k: nat)
    requires 2 <= k < 2 * |bytes|
    ensures Nudge(bytes, k) == Nudge(bytes[1..], k - 2)
  {
  }

  lemma FirstNudges(counts: seq<Byte>, previous: Byte, precomp: bool, k: nat)
    requires CountsUpTo(counts, 5) && 2 <= previous <= 5 && k < |counts| && k < 2
    ensures Nudged(Nudge(DdBytes(counts, previous, precomp), k), precomp,
                   (if k == 0 then previous else counts[0]) as int, counts[k] as int)
  {
    var high := if |counts| == 1 then 0 else Nibble(counts[0], counts[1], precomp);
    ByteNudges(Nibble(previous, counts[0], precomp), high);
    if k == 0 {
      NibbleNudges(previous, counts[0], precomp);
    } else {
      NibbleNudges(counts[0], counts[1], precomp);
    }
  }

  /** An odd number of counts leaves the last high nibble empty. */
  lemma {:induction false} SpareIsEmpty(counts: seq<Byte>, previous: Byte, precomp: bool)
    requires CountsUpTo(counts, 5) && 2 <= previous <= 5 && |counts| % 2 == 1
    ensures var bytes := DdBytes(counts, previous, precomp); bytes[|bytes| - 1] < 16
    decreases |counts|
  {
    if |counts| > 1 {
      SpareIsEmpty(counts[2..], counts[1], precomp);
    }
  }

  /** The intervals written for a track: its own, the one the run-out closes, and the
      run-out's three short ones. */
  function WrittenGaps(bits: seq<bool>): (gaps: seq<nat>) {
    Measure(bits).gaps + [Measure(bits).open + 1, 2, 2, 2]
  }

  lemma ClampKeepsEnds(gap: nat)
    ensures var count := ClampCount(gap, 5); (count == 2 <==> gap <= 2) && (count >= 4 <==> gap >= 4)
  {
  }

  lemma GapsNudge(gaps: seq<nat>, precomp: bool, k: nat)
    requires k < |gaps|
    ensures var bytes := DdBytes(Clamped(gaps, 5), 2, precomp);
      && Nudged(Nudge(bytes, k), precomp, if k == 0 then 2 else gaps[k - 1], gaps[k])
      && (|gaps| % 2 == 1 ==> bytes[|bytes| - 1] < 16)
  {
    var counts := Clamped(gaps, 5);
    NudgesAt(counts, 2, precomp, k);
    ClampKeepsEnds(gaps[k]);
    if k > 0 {
      ClampKeepsEnds(gaps[k - 1]);
    }
    if |gaps| % 2 == 1 {
      SpareIsEmpty(counts, 2, precomp);
    }
  }

  lemma DdStreamIs(words: seq<bv16>, bitLen: nat, precomp: bool)
    requires 0 < bitLen <= |words| * 16
    ensures DdStream(words, bitLen, precomp)
         == Ok(DdBytes(Clamped(WrittenGaps(Unpack(words, bitLen)), 5), 2, precomp))
  {
    RunOut(Unpack(words, bitLen));
  }

  /** Every transition of a double-density track, and no other, is shifted as the
      intervals on either side of it ask for; without precompensation none is. */
  lemma DdPrecompensates(words: seq<bv16>, bitLen: nat, precomp: bool, k: nat)
    requires 0 < bitLen <= |words| * 16 && k < |WrittenGaps(Unpack(words, bitLen))|
    ensures var gaps := WrittenGaps(Unpack(words, bitLen));
      && DdStream(words, bitLen, precomp).Ok?
      && var bytes := DdStream(words, bitLen, precomp).value;
      && |bytes| == (|gaps| + 1) / 2
      && Nudged(Nudge(bytes, k), precomp, if k == 0 then 2 else gaps[k - 1], gaps[k])
      && (|gaps| % 2 == 1 ==> bytes[|bytes| - 1] < 16)
  {
    DdStreamIs(words, bitLen, precomp);
    GapsNudge(WrittenGaps(Unpack(words, bitLen)), precomp, k);
  }

  // ----- high density -----

  function HdByte(counts: seq<Byte>): (byte: Byte)
    requires CountsUpTo(counts, 4) && 1 <= |counts| <= 4
    ensures byte != 0
  {
    (counts[0] as int - 1) * 16
    + (if |counts| > 1 then (counts[1] as int - 1) * 4 else 0)
    + (if |counts| > 2 then counts[2] as int - 1 else 0)
    + (if |counts| > 3 then (counts[3] as int - 1) * 64 else 0)
  }

  function HdBytes(counts: seq<Byte>): (bytes: seq<Byte>)
    requires CountsUpTo(counts, 4)
    ensures |bytes| == (|counts| + 3) / 4
    ensures 0 !in bytes
  {
    if counts == [] then []
    else if |counts| <= 4 then [HdByte(counts)]
    else [HdByte(counts[..4])] + HdBytes(counts[4..])
  }

  function HdStream(words: seq<bv16>, bitLen: nat): Result<seq<Byte>> {
    match CountsOf(words, bitLen, 4)
    case Err(e) => Err(e)
    case Ok(counts) => Ok(HdBytes(counts) + [0])
  }

  /** `encode_hd`: four counts a byte, in the slots at bits 4, 2, 0 and 6. */
  method EncodeHd(words: seq<bv16>, bitLen: nat) returns (r: Result<seq<Byte>>)
    ensures r == HdStream(words, bitLen)
  {
    var counted := TransitionCounts(words, bitLen, 4);
    if counted.Err? {
      return Err(counted.error);
    }
    var output := PackChunks(counted.value);
    return Ok(output + [0]);
  }

  method PackChunks(counts: seq<Byte>) returns (output: seq<Byte>)
    requires CountsUpTo(counts, 4)
    ensures output == HdBytes(counts)
  {
    output := [];
    var at: nat := 0;
    while at < |counts|
      invariant at <= |counts|
      invariant HdBytes(counts) == output + HdBytes(counts[at..])
    {
      ghost var left := counts[at..];
      var chunk := counts[at..Min(at + 4, |counts|)];
      var byte := PackSlots(chunk);
      if |counts| - at <= 4 {
        assert chunk == left && counts[|counts|..] == [];
        at := |counts|;
      } else {
        assert chunk == left[..4] && left[4..] == counts[at + 4..];
        at := at + 4;
      }
      output := output + [byte];
    }
  }

  method PackSlots(chunk: seq<Byte>) returns (byte: Byte)
    requires CountsUpTo(chunk, 4) && 1 <= |chunk| <= 4
    ensures byte == HdByte(chunk)
  {
    var sum: int := 0;
    for index := 0 to |chunk|
      invariant sum == (if index > 0 then (chunk[0] as int - 1) * 16 else 0)
                     + (if index > 1 then (chunk[1] as int - 1) * 4 else 0)
                     + (if index > 2 then chunk[2] as int - 1 else 0)
                     + (if index > 3 then (chunk[3] as int - 1) * 64 else 0)
    {
      var weight := match index case 0 => 16 case 1 => 4 case 2 => 1 case _ => 64;
      sum := sum + (chunk[index] as int - 1) * weight;
    }
    byte := sum;
  }

  /** The counts in a byte's slots, up to the first that is empty. */
  function Slots(byte: Byte): (gaps: seq<nat>) {
    var b: int := byte as int;
    if b / 16 % 4 == 0 then []
    else if b / 4 % 4 == 0 then [b / 16 % 4 + 1]
    else if b % 4 == 0 then [b / 16 % 4 + 1, b / 4 % 4 + 1]
    else if b / 64 == 0 then [b / 16 % 4 + 1, b / 4 % 4 + 1, b % 4 + 1]
    else [b / 16 % 4 + 1, b / 4 % 4 + 1, b % 4 + 1, b / 64 + 1]
  }

  /** The counts of a stream, up to the zero byte that ends it. */
  function SlotGaps(bytes: seq<Byte>): (gaps: seq<nat>) {
    if bytes == [] || bytes[0] == 0 then [] else Slots(bytes[0]) + SlotGaps(bytes[1..])
  }

  lemma SlotValues(a: nat, b: nat, c: nat, d: nat)
    requires a < 4 && b < 4 && c < 4 && d < 4
    ensures var byte := a * 16 + b * 4 + c + d * 64;
      && byte < 256
      && byte / 16 % 4 == a && byte / 4 % 4 == b && byte % 4 == c && byte / 64 == d
  {
    var byte := a * 16 + b * 4 + c + d * 64;
    assert byte / 4 == a * 4 + b + d * 16;
    assert byte / 16 == a + d * 4;
  }

  lemma SlotsOfByte(counts: seq<Byte>)
    requires CountsUpTo(counts, 4) && 1 <= |counts| <= 4
    ensures Slots(HdByte(counts)) == Naturals(counts)
  {
    SlotValues(counts[0] as int - 1,
               if |counts| > 1 then counts[1] as int - 1 else 0,
               if |counts| > 2 then counts[2] as int - 1 else 0,
               if |counts| > 3 then counts[3] as int - 1 else 0);
  }

  /** A high-density stream ends itself: it decodes, up to its zero byte, to
      exactly the counts it was made of, whatever follows it. */
  lemma {:induction false} HdRoundTrip(counts: seq<Byte>, rest: seq<Byte>)
    requires CountsUpTo(counts, 4)
    ensures SlotGaps(HdBytes(counts) + [0] + rest) == Naturals(counts)
    decreases |counts|
  {
    var stream := HdBytes(counts) + [0] + rest;
    if counts == [] {
      assert stream[0] == 0;
    } else if |counts| <= 4 {
      SlotsOfByte(counts);
      assert stream[1..] == [0] + rest;
      assert SlotGaps(stream[1..]) == [];
    } else {
      SlotsOfByte(counts[..4]);
      HdRoundTrip(counts[4..], rest);
      assert stream[1..] == HdBytes(counts[4..]) + [0] + rest;
      assert Naturals(counts) == Naturals(counts[..4]) + Naturals(counts[4..]);
    }
  }

  // ----- what the counts say about the track -----

  lemma {:induction false} CellsCons(g: nat, rest: seq<nat>)
    ensures Cells([g] + rest) == Gap(g) + Cells(rest)
    decreases |rest|
  {
    if rest == [] {
      assert [g] + rest == [g] && [g][..0] == [];
    } else {
      var last := |rest| - 1;
      CellsCons(g, rest[..last]);
      assert ([g] + rest)[..last + 1] == [g] + rest[..last];
    }
  }

  lemma MeasurePush(bits: seq<bool>, cell: bool)
    ensures Measure(bits + [cell])
         == if cell then Intervals(Measure(bits).gaps + [Measure(bits).open + 1], 0)
            else Intervals(Measure(bits).gaps, Measure(bits).open + 1)
  {
    assert (bits + [cell])[..|bits|] == bits;
  }

  lemma MeasurePair(bits: seq<bool>)
    ensures Measure(bits + [true, false]) == Intervals(Measure(bits).gaps + [Measure(bits).open + 1], 1)
  {
    MeasurePush(bits, true);
    MeasurePush(bits + [true], false);
    assert bits + [true, false] == bits + [true] + [false];
  }

  /** The run-out closes the last interval and adds three short ones. */
  lemma RunOut(bits: seq<bool>)
    ensures Measure(WithRunOut(bits)).gaps == Measure(bits).gaps + [Measure(bits).open + 1, 2, 2, 2]
  {
    var one := bits + [true, false];
    var two := one + [true, false];
    var three := two + [true, false];
    assert WithRunOut(bits) == three + [true, false];
    MeasurePair(bits);
    MeasurePair(one);
    MeasurePair(two);
    MeasurePair(three);
    ThreeMore(Measure(bits).gaps, Measure(bits).open + 1);
  }

  lemma ThreeMore(gaps: seq<nat>, last: nat)
    ensures gaps + [last] + [2] + [2] + [2] == gaps + [last, 2, 2, 2]
  {
  }

  /** Every interval of the track is one the encoding can express, and the track
      does not end in too long a silence. */
  predicate Expressible(bits: seq<bool>, limit: Byte) {
    var m := Measure(bits);
    Within(m.gaps, limit) && m.open < limit
  }

  /** Streams of cells that begin with different intervals differ. */
  lemma GapsDiffer(g: nat, c: nat, x: seq<bool>, y: seq<bool>)
    requires g >= 1 && c >= 1 && g != c
    ensures !(Gap(g) + x <= Gap(c) + y)
  {
    if g < c {
      assert (Gap(g) + x)[g - 1] && !(Gap(c) + y)[g - 1];
    } else if |x| + g <= |y| + c {
      assert !(Gap(g) + x)[c - 1] && (Gap(c) + y)[c - 1];
    }
  }

  lemma SilenceFits(open: nat, limit: Byte, y: seq<bool>)
    requires limit >= 2
    ensures Empty(open) <= Gap(ClampCount(open + 1, limit)) + y <==> open < limit
  {
    var c: nat := ClampCount(open + 1, limit);
    if open >= limit {
      assert (Gap(c) + y)[c - 1] && !Empty(open)[c - 1];
    }
  }

  /** The intervals a track's counts name: clamped, and closed by the run-out. */
  function Told(gaps: seq<nat>, open: nat, limit: Byte, tail: seq<nat>): (told: seq<nat>)
    requires limit >= 2
  {
    Naturals(Clamped(gaps, limit)) + [ClampCount(open + 1, limit) as int] + tail
  }

  predicate Within(gaps: seq<nat>, limit: Byte) {
    forall k :: 0 <= k < |gaps| ==> 2 <= gaps[k] <= limit
  }

  lemma ToldCons(gaps: seq<nat>, open: nat, limit: Byte, tail: seq<nat>)
    requires limit >= 2 && gaps != []
    ensures Told(gaps, open, limit, tail)
         == [ClampCount(gaps[0], limit) as int] + Told(gaps[1..], open, limit, tail)
    ensures Within(gaps, limit) <==> 2 <= gaps[0] <= limit && Within(gaps[1..], limit)
  {
    assert Naturals(Clamped(gaps, limit))
        == [ClampCount(gaps[0], limit) as int] + Naturals(Clamped(gaps[1..], limit));
    assert forall k :: 0 < k < |gaps| ==> gaps[k] == gaps[1..][k - 1];
  }

  lemma ToldNone(open: nat, limit: Byte, tail: seq<nat>)
    requires limit >= 2
    ensures Cells([]) + Empty(open) <= Cells(Told([], open, limit, tail)) <==> open < limit
  {
    var closing: nat := ClampCount(open + 1, limit) as int;
    assert Told([], open, limit, tail) == [closing] + tail;
    CellsCons(closing, tail);
    assert Cells([]) + Empty(open) == Empty(open);
    SilenceFits(open, limit, Cells(tail));
  }

  /** Prefixing one interval to both sides matters only if the clamp changes it. */
  lemma OneMore(g: nat, c: nat, x: seq<bool>, y: seq<bool>)
    requires g >= 1 && c >= 1
    ensures Gap(g) + x <= Gap(c) + y <==> g == c && x <= y
  {
    if g == c {
      SamePrefix(Gap(g), x, y);
    } else {
      GapsDiffer(g, c, x, y);
    }
  }

  /** Clamped intervals spell the original cells exactly when no clamp bites. */
  lemma {:induction false} ClampedSpells(gaps: seq<nat>, open: nat, limit: Byte, tail: seq<nat>)
    requires limit >= 2
    requires forall k :: 0 <= k < |gaps| ==> gaps[k] >= 1
    ensures Cells(gaps) + Empty(open) <= Cells(Told(gaps, open, limit, tail))
      <==> Within(gaps, limit) && open < limit
    decreases |gaps|
  {
    if gaps == [] {
      ToldNone(open, limit, tail);
    } else {
      var g, rest := gaps[0], gaps[1..];
      ClampedSpells(rest, open, limit, tail);
      ToldCons(gaps, open, limit, tail);
      var c: nat := ClampCount(g, limit) as int;
      var told := Told(rest, open, limit, tail);
      CellsCons(g, rest);
      CellsCons(c, told);
      assert gaps == [g] + rest;
      assert Cells(gaps) + Empty(open) == Gap(g) + (Cells(rest) + Empty(open));
      OneMore(g, c, Cells(rest) + Empty(open), Cells(told));
    }
  }

  lemma SamePrefix(a: seq<bool>, x: seq<bool>, y: seq<bool>)
    ensures a + x <= a + y <==> x <= y
  {
    if a + x <= a + y {
      assert forall i :: 0 <= i < |x| ==> (a + x)[|a| + i] == x[i] && (a + y)[|a| + i] == y[i];
    }
  }

  /** The counts of a track name its clamped intervals and the run-out. */
  lemma CountsTell(words: seq<bv16>, bitLen: nat, limit: Byte)
    requires 0 < bitLen <= |words| * 16 && limit >= 2
    ensures var m := Measure(Unpack(words, bitLen));
      && CountsOf(words, bitLen, limit).Ok?
      && CountsUpTo(CountsOf(words, bitLen, limit).value, limit)
      && Naturals(CountsOf(words, bitLen, limit).value) == Told(m.gaps, m.open, limit, [2, 2, 2])
  {
    RunOut(Unpack(words, bitLen));
  }

  /** What the counts tell is the track itself exactly when they can express it. */
  lemma TellsTrack(bits: seq<bool>, limit: Byte, tail: seq<nat>)
    requires limit >= 2
    ensures var m := Measure(bits);
      bits <= Cells(Told(m.gaps, m.open, limit, tail)) <==> Expressible(bits, limit)
  {
    var m := Measure(bits);
    MeasureSpells(bits);
    ClampedSpells(m.gaps, m.open, limit, tail);
  }

  /** Double density is lossless exactly where its counts can express the track:
      the low two bits of the delayed nibbles then spell every cell, with or
      without precompensation. */
  lemma DdLossless(words: seq<bv16>, bitLen: nat, precomp: bool)
    requires 0 < bitLen <= |words| * 16
    ensures DdStream(words, bitLen, precomp).Ok?
    ensures NibbleGaps(DdStream(words, bitLen, precomp).value) != []
    ensures var bits := Unpack(words, bitLen);
      bits <= Cells(NibbleGaps(DdStream(words, bitLen, precomp).value)[1..]) <==> Expressible(bits, 5)
  {
    var m := Measure(Unpack(words, bitLen));
    CountsTell(words, bitLen, 5);
    var counts := CountsOf(words, bitLen, 5).value;
    NibblesDelayCounts(counts, 2, precomp);
    var tail: seq<nat> := [2, 2] + (if |counts| % 2 == 1 then [2] else []);
    AllButLast(counts, Told(m.gaps, m.open, 5, []));
    assert NibbleGaps(DdBytes(counts, 2, precomp))[1..] == Told(m.gaps, m.open, 5, tail);
    TellsTrack(Unpack(words, bitLen), 5, tail);
  }

  lemma AllButLast(counts: seq<Byte>, told: seq<nat>)
    requires Naturals(counts) == told + [2, 2, 2]
    ensures counts != [] && Naturals(counts[..|counts| - 1]) == told + [2, 2]
  {
    assert Naturals(counts[..|counts| - 1]) == Naturals(counts)[..|counts| - 1];
  }

  /** High density likewise, with every count recovered: the stream is its own
      terminator, and the whole track comes back exactly where no interval is
      longer than four cells. */
  lemma HdLossless(words: seq<bv16>, bitLen: nat, rest: seq<Byte>)
    requires 0 < bitLen <= |words| * 16
    ensures HdStream(words, bitLen).Ok?
    ensures var stream := HdStream(words, bitLen).value;
      && stream[|stream| - 1] == 0
      && 0 !in stream[..|stream| - 1]
      && SlotGaps(stream + rest) == Naturals(CountsOf(words, bitLen, 4).value)
    ensures var bits := Unpack(words, bitLen);
      bits <= Cells(SlotGaps(HdStream(words, bitLen).value + rest)) <==> Expressible(bits, 4)
  {
    CountsTell(words, bitLen, 4);
    var counts := CountsOf(words, bitLen, 4).value;
    HdRoundTrip(counts, rest);
    assert HdBytes(counts) + [0] + rest == HdStream(words, bitLen).value + rest;
    TellsTrack(Unpack(words, bitLen), 4, [2, 2, 2]);
  }

  // ----- the length field -----

  /** The sixteen-bit length a double-density write announces. */
  function LengthField(encoded: seq<Byte>, bitLen: nat): (r: Result<nat>) {
    if |encoded| < 0x1_0000 then Ok(|encoded|) else Err(TrackTooLarge(bitLen, MAX_TRACK_BITS))
  }

  predicate NoAdjacentOnes(bits: seq<bool>) {
    forall k :: 0 < k < |bits| ==> !(bits[k - 1] && bits[k])
  }

  lemma {:induction false} SparseTransitions(bits: seq<bool>)
    requires NoAdjacentOnes(bits)
    ensures 2 * |Measure(bits).gaps| <= |bits| + if bits != [] && bits[|bits| - 1] then 1 else 0
    decreases |bits|
  {
    if bits != [] {
      var front := bits[..|bits| - 1];
      SparseTransitions(front);
    }
  }

  /** The length fits exactly when the track has at most 131066 transitions; any
      track within the limit and without adjacent ones has far fewer. */
  lemma DdLengthFits(words: seq<bv16>, bitLen: nat, precomp: bool)
    requires 0 < bitLen <= |words| * 16
    ensures LengthField(DdStream(words, bitLen, precomp).value, bitLen).Ok?
      <==> |Measure(Unpack(words, bitLen)).gaps| <= 131_066
    ensures bitLen <= MAX_TRACK_BITS && NoAdjacentOnes(Unpack(words, bitLen)) ==>
        LengthField(DdStream(words, bitLen, precomp).value, bitLen).Ok?
  {
    RunOut(Unpack(words, bitLen));
    if NoAdjacentOnes(Unpack(words, bitLen)) {
      SparseTransitions(Unpack(words, bitLen));
    }
  }
}
