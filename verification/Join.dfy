/** Locating the repeated revolution boundary of an index-less capture. */
module Join {
  import opened Common
  import opened TrackBits
  import opened Pll
  import opened Revolution
  import Scan

  const WARMUP_CELLS: nat := 2_000
  const SAMPLE_CELLS: nat := 1_024
  const ANCHORS: seq<nat> := [0, 2_048, 4_096]
  const REACH: nat := WARMUP_CELLS + 4_096 + SAMPLE_CELLS
  const CONVINCING: nat := SAMPLE_CELLS * 3 / 4

  /** Positions at which two equally long stretches of cells agree. */
  function Agreement(left: seq<bool>, right: seq<bool>): (count: nat)
    requires |left| == |right|
    ensures count <= |left|
  {
    if left == [] then 0
    else
      Agreement(left[..|left| - 1], right[..|right| - 1])
      + (if left[|left| - 1] == right[|right| - 1] then 1 else 0)
  }

  /** Perfect agreement is equality. */
  lemma {:induction false} PerfectAgreement(left: seq<bool>, right: seq<bool>)
    requires |left| == |right|
    ensures Agreement(left, right) == |left| <==> left == right
    decreases |left|
  {
    if left != [] {
      var last := |left| - 1;
      PerfectAgreement(left[..last], right[..last]);
      assert left == left[..last] + [left[last]] && right == right[..last] + [right[last]];
    }
  }

  /** The range of revolution lengths a capture can be searched for. */
  datatype Range = Range(lower: nat, upper: nat)

  function SearchRange(length: nat, highDensity: bool): (range: Range)
    ensures range.upper > range.lower ==> range.upper + REACH <= length
  {
    var nominal := if highDensity then 200_000 else 100_000;
    Range(nominal * 4 / 5, Min(nominal * 6 / 5, Max(length - REACH, 0)))
  }

  /** A search is possible, and everything it looks at lies inside the capture. */
  predicate Searchable(bits: seq<bool>, range: Range) {
    range.lower < range.upper && range.upper + REACH <= |bits|
  }

  /** Matching cells when the stream at `anchor` is compared `candidate` cells on. */
  function Score(bits: seq<bool>, anchor: nat, candidate: nat): (score: nat)
    requires anchor <= 4_096
    requires candidate + REACH <= |bits|
    ensures score <= SAMPLE_CELLS
  {
    var from := WARMUP_CELLS + anchor;
    Agreement(bits[from..from + SAMPLE_CELLS], bits[from + candidate..from + candidate + SAMPLE_CELLS])
  }

  datatype Best = Best(candidate: nat, score: nat)

  /** What a scan with one leading anchor ends with, over candidates below `end`. */
  function Scanned(bits: seq<bool>, leader: nat, lower: nat, end: nat): (best: Best)
    requires leader <= 4_096
    requires lower <= end <= |bits| + 1 - REACH
    decreases end
  {
    if end == lower then Best(0, 0)
    else
      var before := Scanned(bits, leader, lower, end - 1);
      var score := Score(bits, leader, end - 1);
      if score > before.score then Best(end - 1, score) else before
  }

  /** The scan finds the earliest candidate of the highest score. */
  lemma {:induction false} ScannedIsEarliestBest(bits: seq<bool>, leader: nat, lower: nat, end: nat)
    requires leader <= 4_096
    requires lower <= end <= |bits| + 1 - REACH
    ensures var best := Scanned(bits, leader, lower, end);
      && (forall c: nat | lower <= c < end :: Score(bits, leader, c) <= best.score)
      && (best.score > 0 ==> lower <= best.candidate < end && Score(bits, leader, best.candidate) == best.score)
      && (best.score > 0 ==> forall c: nat | lower <= c < best.candidate :: Score(bits, leader, c) < best.score)
    decreases end
  {
    if end > lower {
      ScannedIsEarliestBest(bits, leader, lower, end - 1);
    }
  }

  predicate Agrees(bits: seq<bool>, anchor: nat, candidate: nat)
    requires anchor <= 4_096 && candidate + REACH <= |bits|
  {
    Score(bits, anchor, candidate) >= CONVINCING
  }

  /** At least two of the three anchors repeat the stream at this length. */
  predicate Confirmed(bits: seq<bool>, candidate: nat)
    requires candidate + REACH <= |bits|
  {
    || (Agrees(bits, 0, candidate) && Agrees(bits, 2_048, candidate))
    || (Agrees(bits, 0, candidate) && Agrees(bits, 4_096, candidate))
    || (Agrees(bits, 2_048, candidate) && Agrees(bits, 4_096, candidate))
  }

  /** The length one leader proposes, if its best is convincing and confirmed. */
  function Proposal(bits: seq<bool>, leader: nat, range: Range): (length: Option<nat>)
    requires leader <= 4_096 && Searchable(bits, range)
    ensures length.Some? ==> length.value + REACH <= |bits|
  {
    var best := Scanned(bits, leader, range.lower, range.upper + 1);
    ScannedIsEarliestBest(bits, leader, range.lower, range.upper + 1);
    if best.score >= CONVINCING && Confirmed(bits, best.candidate) then Some(best.candidate) else None
  }

  /** The first leader to propose a length decides. */
  function Decision(bits: seq<bool>, range: Range): (length: Option<nat>)
    requires Searchable(bits, range)
  {
    var first := Proposal(bits, 0, range);
    if first.Some? then first
    else
      var second := Proposal(bits, 2_048, range);
      if second.Some? then second else Proposal(bits, 4_096, range)
  }

  /** `bits_to_unaligned_revolution`. */
  function JoinOf(bits: seq<bool>, highDensity: bool): (r: Result<seq<bool>>) {
    var range := SearchRange(|bits|, highDensity);
    if range.upper <= range.lower || |bits| < range.lower + REACH then Err(Protocol)
    else
      match Decision(bits, range)
      case None => Err(Protocol)
      case Some(length) => DecisionInRange(bits, range); Ok(bits[..length])
  }

  lemma DecisionInRange(bits: seq<bool>, range: Range)
    requires Searchable(bits, range)
    ensures Decision(bits, range).Some? ==> Decision(bits, range).value + REACH <= |bits|
  {
  }

  method Agree(left: seq<bool>, right: seq<bool>) returns (count: nat)
    requires |left| == |right|
    ensures count == Agreement(left, right)
  {
    count := 0;
    assert left[..0] == [] && right[..0] == [];
    for i := 0 to |left|
      invariant count == Agreement(left[..i], right[..i])
    {
      assert left[..i + 1][..i] == left[..i] && right[..i + 1][..i] == right[..i];
      if left[i] == right[i] {
        count := count + 1;
      }
    }
    assert left[..|left|] == left && right[..|right|] == right;
  }

  method ScoreAt(bits: seq<bool>, anchor: nat, candidate: nat) returns (score: nat)
    requires anchor <= 4_096
    requires candidate + REACH <= |bits|
    ensures score == Score(bits, anchor, candidate)
  {
    var from := WARMUP_CELLS + anchor;
    score := Agree(bits[from..from + SAMPLE_CELLS], bits[from + candidate..from + candidate + SAMPLE_CELLS]);
  }

  method BitsToUnalignedRevolution(bits: seq<bool>, highDensity: bool) returns (r: Result<seq<bool>>)
    ensures r == JoinOf(bits, highDensity)
  {
    var range := SearchRange(|bits|, highDensity);
    var lower, upper := range.lower, range.upper;
    if upper <= lower || |bits| < lower + REACH {
      return Err(Protocol);
    }
    for led := 0 to |ANCHORS|
      invariant led >= 1 ==> Proposal(bits, 0, range).None?
      invariant led >= 2 ==> Proposal(bits, 2_048, range).None?
      invariant led >= 3 ==> Proposal(bits, 4_096, range).None?
    {
      var length := Lead(bits, ANCHORS[led], range);
      if length.Some? {
        return Ok(bits[..length.value]);
      }
    }
    return Err(Protocol);
  }

  /** One leader's scan of every candidate, and the proof of its winner. */
  method Lead(bits: seq<bool>, leader: nat, range: Range) returns (length: Option<nat>)
    requires leader <= 4_096 && Searchable(bits, range)
    ensures length == Proposal(bits, leader, range)
  {
    var best := Best(0, 0);
    for candidate := range.lower to range.upper + 1
      invariant best == Scanned(bits, leader, range.lower, candidate)
    {
      var score := ScoreAt(bits, leader, candidate);
      if score > best.score {
        best := Best(candidate, score);
      }
    }
    if best.score < CONVINCING {
      return None;
    }
    ScannedIsEarliestBest(bits, leader, range.lower, range.upper + 1);
    var agreeing := CountAgreeing(bits, best.candidate);
    if agreeing * 2 > |ANCHORS| {
      return Some(best.candidate);
    }
    return None;
  }

  method CountAgreeing(bits: seq<bool>, candidate: nat) returns (agreeing: nat)
    requires candidate + REACH <= |bits|
    ensures agreeing * 2 > |ANCHORS| <==> Confirmed(bits, candidate)
  {
    agreeing := 0;
    for k := 0 to |ANCHORS|
      invariant agreeing == (if k > 0 && Agrees(bits, 0, candidate) then 1 else 0)
                          + (if k > 1 && Agrees(bits, 2_048, candidate) then 1 else 0)
                          + (if k > 2 && Agrees(bits, 4_096, candidate) then 1 else 0)
    {
      var score := ScoreAt(bits, ANCHORS[k], candidate);
      if score >= CONVINCING {
        agreeing := agreeing + 1;
      }
    }
  }

  // ----- what a join proves -----

  /** Of 1024 cells, `anchor` and 2000 into the capture, at least three quarters are
      found again `length` cells on. */
  predicate Repeats(bits: seq<bool>, anchor: nat, length: nat)
    requires length + anchor + 3_024 <= |bits|
  {
    var from := 2_000 + anchor;
    Agreement(bits[from..from + 1_024], bits[from + length..from + length + 1_024]) >= 768
  }

  /** Two of the three anchors repeat the stream at this length. */
  predicate RepeatsTwice(bits: seq<bool>, length: nat)
    requires length + 7_120 <= |bits|
  {
    || (Repeats(bits, 0, length) && Repeats(bits, 2_048, length))
    || (Repeats(bits, 0, length) && Repeats(bits, 4_096, length))
    || (Repeats(bits, 2_048, length) && Repeats(bits, 4_096, length))
  }

  /** The lengths searched: a fifth either way of what a disk at nominal speed has, as
      far as the capture reaches. */
  lemma LengthsSearched(bits: seq<bool>, highDensity: bool)
    ensures var range, nominal := SearchRange(|bits|, highDensity), if highDensity then 200_000 else 100_000;
      && (Searchable(bits, range) <==> |bits| > nominal - nominal / 5 + 7_120)
      && (Searchable(bits, range) ==>
            && range.lower == nominal - nominal / 5
            && range.upper == if |bits| >= nominal + nominal / 5 + 7_120 then nominal + nominal / 5 else |bits| - 7_120)
  {
  }

  lemma AgreesIsRepeats(bits: seq<bool>, anchor: nat, length: nat)
    requires anchor <= 4_096 && length + 7_120 <= |bits|
    ensures Agrees(bits, anchor, length) == Repeats(bits, anchor, length)
  {
  }

  lemma ConfirmedIsTwice(bits: seq<bool>, length: nat)
    requires length + 7_120 <= |bits|
    ensures Confirmed(bits, length) == RepeatsTwice(bits, length)
  {
    AgreesIsRepeats(bits, 0, length);
    AgreesIsRepeats(bits, 2_048, length);
    AgreesIsRepeats(bits, 4_096, length);
  }

  /** `length` is the earliest of the candidates that score highest at an anchor. */
  ghost predicate IsEarliestBest(bits: seq<bool>, leader: nat, range: Range, length: nat)
    requires leader <= 4_096 && Searchable(bits, range)
  {
    && range.lower <= length <= range.upper
    && (forall c: nat | range.lower <= c <= range.upper :: Score(bits, leader, c) <= Score(bits, leader, length))
    && (forall c: nat | range.lower <= c < length :: Score(bits, leader, c) < Score(bits, leader, length))
  }

  lemma ProposalIsBest(bits: seq<bool>, leader: nat, range: Range)
    requires leader <= 4_096 && Searchable(bits, range)
    requires Proposal(bits, leader, range).Some?
    ensures var length := Proposal(bits, leader, range).value;
      && IsEarliestBest(bits, leader, range, length)
      && Repeats(bits, leader, length)
      && RepeatsTwice(bits, length)
  {
    var length := Proposal(bits, leader, range).value;
    ScannedIsEarliestBest(bits, leader, range.lower, range.upper + 1);
    AgreesIsRepeats(bits, leader, length);
    ConfirmedIsTwice(bits, length);
  }

  /** Whenever a join is found it is a prefix of the capture, of a physical
      revolution's length, the earliest best match of one of the anchors, and
      repeats the stream at two anchors or more. */
  lemma JoinSound(bits: seq<bool>, highDensity: bool)
    requires JoinOf(bits, highDensity).Ok?
    ensures var range, revolution := SearchRange(|bits|, highDensity), JoinOf(bits, highDensity).value;
      && Searchable(bits, range)
      && revolution <= bits
      && range.lower <= |revolution| <= range.upper
      && (if highDensity then 160_000 <= |revolution| <= 240_000 else 80_000 <= |revolution| <= 120_000)
      && |revolution| + 7_120 <= |bits| && RepeatsTwice(bits, |revolution|)
      && (|| IsEarliestBest(bits, 0, range, |revolution|)
          || IsEarliestBest(bits, 2_048, range, |revolution|)
          || IsEarliestBest(bits, 4_096, range, |revolution|))
  {
    var range := SearchRange(|bits|, highDensity);
    LengthsSearched(bits, highDensity);
    if Proposal(bits, 0, range).Some? {
      ProposalIsBest(bits, 0, range);
    } else if Proposal(bits, 2_048, range).Some? {
      ProposalIsBest(bits, 2_048, range);
    } else {
      ProposalIsBest(bits, 4_096, range);
    }
  }

  /** A join is refused exactly when the capture is too short, or no anchor's
      earliest best match is both convincing and confirmed. */
  lemma JoinFailsExactly(bits: seq<bool>, highDensity: bool)
    ensures var range := SearchRange(|bits|, highDensity);
      JoinOf(bits, highDensity).Err? <==>
        (Searchable(bits, range) ==>
          forall leader: nat, length: nat | leader in [0, 2_048, 4_096] && range.lower <= length <= range.upper ::
            !(IsEarliestBest(bits, leader, range, length) && Repeats(bits, leader, length) && RepeatsTwice(bits, length)))
  {
    var range := SearchRange(|bits|, highDensity);
    LengthsSearched(bits, highDensity);
    if Searchable(bits, range) {
      forall leader: nat | leader in [0, 2_048, 4_096]
        ensures Proposal(bits, leader, range).None? <==>
          forall length: nat | range.lower <= length <= range.upper ::
            !(IsEarliestBest(bits, leader, range, length) && Repeats(bits, leader, length) && RepeatsTwice(bits, length))
      {
        NoProposal(bits, leader, range);
      }
    }
  }

  lemma NoProposal(bits: seq<bool>, leader: nat, range: Range)
    requires leader <= 4_096 && Searchable(bits, range)
    ensures Proposal(bits, leader, range).None? <==>
      forall length: nat | range.lower <= length <= range.upper ::
        !(IsEarliestBest(bits, leader, range, length) && Repeats(bits, leader, length) && RepeatsTwice(bits, length))
  {
    if Proposal(bits, leader, range).Some? {
      ProposalIsBest(bits, leader, range);
    } else {
      forall length: nat | range.lower <= length <= range.upper
        ensures !(IsEarliestBest(bits, leader, range, length) && Repeats(bits, leader, length) && RepeatsTwice(bits, length))
      {
        AgreesIsRepeats(bits, leader, length);
        ConfirmedIsTwice(bits, length);
        if IsEarliestBest(bits, leader, range, length) && Agrees(bits, leader, length) {
          BestUnique(bits, leader, range, length);
        }
      }
    }
  }

  lemma BestUnique(bits: seq<bool>, leader: nat, range: Range, length: nat)
    requires leader <= 4_096 && Searchable(bits, range)
    requires IsEarliestBest(bits, leader, range, length) && Score(bits, leader, length) > 0
    ensures Scanned(bits, leader, range.lower, range.upper + 1) == Best(length, Score(bits, leader, length))
  {
    ScannedIsEarliestBest(bits, leader, range.lower, range.upper + 1);
    var best := Scanned(bits, leader, range.lower, range.upper + 1);
    assert best.score >= Score(bits, leader, length);
  }

  // ----- where a capture starts does not matter -----

  /** The capture is a recording of the ring, begun at `start`. */
  ghost predicate Records(bits: seq<bool>, ring: seq<bool>, start: nat) {
    |ring| > 0 && forall i: nat | i < |bits| :: bits[i] == ring[(start + i) % |ring|]
  }

  lemma PeriodScoresFully(bits: seq<bool>, ring: seq<bool>, start: nat, anchor: nat)
    requires Records(bits, ring, start)
    requires anchor <= 4_096 && |ring| + REACH <= |bits|
    ensures Score(bits, anchor, |ring|) == SAMPLE_CELLS
  {
    var from := WARMUP_CELLS + anchor;
    var left := bits[from..from + SAMPLE_CELLS];
    var right := bits[from + |ring|..from + |ring| + SAMPLE_CELLS];
    forall i: nat | i < SAMPLE_CELLS
      ensures left[i] == right[i]
    {
      AddPeriod(start + (from + i), |ring|);
      assert start + (from + i) + |ring| == start + (from + |ring| + i);
    }
    PerfectAgreement(left, right);
  }

  lemma RecordedRevolution(bits: seq<bool>, ring: seq<bool>, start: nat)
    requires Records(bits, ring, start)
    requires |ring| <= |bits|
    ensures bits[..|ring|] == Turn(ring, start)
  {
  }

  /** The earliest length from `from` on that an anchor repeats perfectly, or one
      past the last length searched. */
  function FirstPerfect(bits: seq<bool>, anchor: nat, from: nat, upper: nat): (length: nat)
    requires anchor <= 4_096 && upper + REACH <= |bits| && from <= upper + 1
    ensures from <= length <= upper + 1
    ensures length <= upper ==> Score(bits, anchor, length) == SAMPLE_CELLS
    ensures forall c: nat | from <= c < length :: Score(bits, anchor, c) < SAMPLE_CELLS
    decreases upper + 1 - from
  {
    if from > upper || Score(bits, anchor, from) == SAMPLE_CELLS then from
    else FirstPerfect(bits, anchor, from + 1, upper)
  }

  function Perfect(bits: seq<bool>, anchor: nat, range: Range): (length: nat)
    requires anchor <= 4_096 && Searchable(bits, range)
  {
    FirstPerfect(bits, anchor, range.lower, range.upper)
  }

  /** An anchor that repeats perfectly somewhere proposes the earliest such length,
      if that is confirmed, and nothing otherwise. */
  lemma PerfectProposes(bits: seq<bool>, leader: nat, range: Range)
    requires leader <= 4_096 && Searchable(bits, range)
    requires Perfect(bits, leader, range) <= range.upper
    ensures var length := Perfect(bits, leader, range);
      Proposal(bits, leader, range) == if Confirmed(bits, length) then Some(length) else None
  {
    BestUnique(bits, leader, range, Perfect(bits, leader, range));
  }

  /** The length at which a capture that repeats perfectly at every anchor is cut:
      the first anchor's earliest, if confirmed, or else the second's, or the third's. */
  function CutLength(bits: seq<bool>, range: Range): (length: nat)
    requires Searchable(bits, range)
    requires Perfect(bits, 0, range) <= range.upper && Perfect(bits, 2_048, range) <= range.upper
    requires Perfect(bits, 4_096, range) <= range.upper
    ensures range.lower <= length <= range.upper
  {
    var first, second := Perfect(bits, 0, range), Perfect(bits, 2_048, range);
    if Confirmed(bits, first) then first
    else if Confirmed(bits, second) then second
    else Perfect(bits, 4_096, range)
  }

  /** A recording of a ring repeats perfectly at every anchor, no later than one turn on. */
  lemma RecordedIsPerfect(bits: seq<bool>, range: Range, ring: seq<bool>, start: nat, anchor: nat)
    requires Records(bits, ring, start)
    requires Searchable(bits, range) && range.lower <= |ring| <= range.upper
    requires anchor <= 4_096
    ensures Perfect(bits, anchor, range) <= |ring|
  {
    PeriodScoresFully(bits, ring, start, anchor);
  }

  /** What becomes of any recording of a ring, begun anywhere. */
  lemma RecordingIsCut(bits: seq<bool>, highDensity: bool, ring: seq<bool>, start: nat)
    requires Records(bits, ring, start)
    requires var range := SearchRange(|bits|, highDensity);
      Searchable(bits, range) && range.lower <= |ring| <= range.upper
    ensures var range := SearchRange(|bits|, highDensity);
      && Perfect(bits, 0, range) <= |ring| && Perfect(bits, 2_048, range) <= |ring| && Perfect(bits, 4_096, range) <= |ring|
      && var length := CutLength(bits, range);
      JoinOf(bits, highDensity) == if Confirmed(bits, length) then Ok(bits[..length]) else Err(Protocol)
  {
    var range := SearchRange(|bits|, highDensity);
    RecordedIsPerfect(bits, range, ring, start, 0);
    RecordedIsPerfect(bits, range, ring, start, 2_048);
    RecordedIsPerfect(bits, range, ring, start, 4_096);
    PerfectProposes(bits, 0, range);
    PerfectProposes(bits, 2_048, range);
    PerfectProposes(bits, 4_096, range);
  }

  /** Of a recording of a ring, begun anywhere, the cut is one turn of the ring
      exactly when no shorter perfect repeat comes first: at the first anchor
      whose earliest perfect repeat is confirmed, or at the last. */
  lemma CaptureStartDoesNotMatter(bits: seq<bool>, highDensity: bool, ring: seq<bool>, start: nat)
    requires Records(bits, ring, start)
    requires var range := SearchRange(|bits|, highDensity);
      Searchable(bits, range) && range.lower <= |ring| <= range.upper
    ensures var range := SearchRange(|bits|, highDensity);
      && Perfect(bits, 0, range) <= |ring| && Perfect(bits, 2_048, range) <= |ring| && Perfect(bits, 4_096, range) <= |ring|
      && (JoinOf(bits, highDensity) == Ok(Turn(ring, start)) <==> CutLength(bits, range) == |ring|)
  {
    RecordingIsCut(bits, highDensity, ring, start);
    RecordedRevolution(bits, ring, start);
    PeriodScoresFully(bits, ring, start, 0);
    PeriodScoresFully(bits, ring, start, 2_048);
    var length := CutLength(bits, SearchRange(|bits|, highDensity));
    assert |bits[..length]| == length;
  }

  /** Cut there, the packed words are a rotation of the ring's, and scan the same. */
  lemma CutIsARotation(bits: seq<bool>, highDensity: bool, ring: seq<bool>, start: nat)
    requires Records(bits, ring, start)
    requires JoinOf(bits, highDensity) == Ok(Turn(ring, start))
    ensures RotateRevolution(Pack(ring), |ring|, start) == Ok(Pack(JoinOf(bits, highDensity).value))
    ensures Scan.ScanOf(Pack(JoinOf(bits, highDensity).value), |ring|) == Scan.ScanOf(Pack(ring), |ring|)
  {
    UnpackPack(ring);
    RotationIsPackedTurn(Pack(ring), |ring|, start);
    Scan.ScanRotationInvariant(Pack(ring), |ring|, start);
  }

  /** A track that reads the same everywhere shows why a shorter repeat must be
      excluded: it is cut at the shortest length searched, whatever its period. */
  lemma UniformTrackIsCutShort(length: nat, cell: bool, highDensity: bool)
    requires var range := SearchRange(length, highDensity);
      range.lower < range.upper
    ensures var bits := seq(length, _ => cell);
      JoinOf(bits, highDensity) == Ok(bits[..SearchRange(length, highDensity).lower])
  {
    var bits := seq(length, _ => cell);
    var range := SearchRange(length, highDensity);
    UniformScoresFully(bits, cell, 0, range.lower);
    UniformScoresFully(bits, cell, 2_048, range.lower);
    assert Perfect(bits, 0, range) == range.lower;
    PerfectProposes(bits, 0, range);
  }

  lemma UniformScoresFully(bits: seq<bool>, cell: bool, anchor: nat, candidate: nat)
    requires forall i: nat | i < |bits| :: bits[i] == cell
    requires anchor <= 4_096 && candidate + REACH <= |bits|
    ensures Score(bits, anchor, candidate) == SAMPLE_CELLS
  {
    var from := WARMUP_CELLS + anchor;
    var left := bits[from..from + SAMPLE_CELLS];
    var right := bits[from + candidate..from + candidate + SAMPLE_CELLS];
    assert left == right;
    PerfectAgreement(left, right);
  }

  // ----- from flux -----

  datatype Packed = Packed(words: seq<bv16>, bitLen: nat)

  function UnalignedOf(events: seq<FluxEvent>, highDensity: bool): (r: Result<Packed>) {
    match Bounded(CENTRED, DelaysOf(events))
    case Err(e) => Err(e)
    case Ok(bits) =>
      match JoinOf(bits, highDensity)
      case Err(e) => Err(e)
      case Ok(revolution) => Ok(Packed(Pack(revolution), |revolution|))
  }

  /** `flux_to_unaligned_revolution`. */
  method FluxToUnalignedRevolution(events: seq<FluxEvent>, highDensity: bool) returns (r: Result<Packed>)
    ensures r == UnalignedOf(events, highDensity)
  {
    var pll := new PllDecoder();
    var bits: seq<bool> := [];
    ghost var delays := DelaysOf(events);
    assert delays[..0] == [];
    for k := 0 to |events|
      invariant Steady(pll.State())
      invariant Bounded(CENTRED, delays[..k]) == Ok(bits)
      invariant Decode(CENTRED, delays[..k]) == Decoding(pll.State(), bits)
    {
      BoundedStep(CENTRED, delays, k);
      bits := pll.Submit(events[k].nanoseconds, bits);
      if |bits| > MAX_TRACK_BITS {
        BoundedFails(CENTRED, delays, k + 1);
        return Err(TrackTooLarge(|bits|, MAX_TRACK_BITS));
      }
    }
    assert delays[..|events|] == delays;
    var joined := BitsToUnalignedRevolution(bits, highDensity);
    if joined.Err? {
      return Err(joined.error);
    }
    var words := PackBits(joined.value);
    return Ok(Packed(words, |joined.value|));
  }

  /** The cells of a capture whose first delay is whatever its beginning left of an
      interval, and whose other delays measure whole ones. */
  function CapturedCells(first: U32, gaps: seq<nat>): (cells: seq<bool>) {
    SubmitTo(CENTRED, first).cells + Cells(gaps)
  }

  lemma RestMeasures(delays: seq<U32>, gaps: seq<nat>, cell: int)
    requires 1_900 <= cell <= 2_100
    requires |delays| == |gaps| + 1
    requires forall k :: 0 <= k < |gaps| ==>
        2 <= gaps[k] <= 4 && -15 <= delays[k + 1] - gaps[k] * cell <= 15
    ensures Measures(delays[1..], gaps, cell, DRIFTING)
    ensures delays == [delays[0]] + delays[1..]
  {
  }

  /** The first, cut delay does not mislead the PLL: it leaves it in lock, or, closer to
      nominal speed, is not a remainder of between a quarter and half of a cell. */
  predicate CutWell(first: U32, cell: int) {
    || InLock(SubmitTo(CENTRED, first).state, cell, DRIFTING)
    || (1_930 <= cell <= 2_070 && (first <= 500 || first >= 1_000))
  }

  lemma CaptureDecodes(first: U32, rest: seq<U32>, gaps: seq<nat>, cell: int)
    requires CutWell(first, cell)
    requires Measures(rest, gaps, cell, DRIFTING)
    ensures Decode(CENTRED, [first] + rest).cells == CapturedCells(first, gaps)
  {
    DecodeFirst(CENTRED, first, rest);
    SteadyStep(CENTRED, first);
    if InLock(SubmitTo(CENTRED, first).state, cell, DRIFTING) {
      LockHolds(SubmitTo(CENTRED, first).state, rest, gaps, cell, DRIFTING);
    } else {
      FirstDelayCatches(first, cell);
      CatchHolds(SubmitTo(CENTRED, first).state, rest, gaps, cell);
    }
  }

  lemma CutCellLocks(first: U32)
    requires -590 <= first - CLOCK_CENTRE_NS <= 590
    ensures SubmitTo(CENTRED, first).cells == Gap(1)
    ensures InLock(SubmitTo(CENTRED, first).state, CLOCK_CENTRE_NS, DRIFTING)
  {
    ZerosAre(first, CLOCK_CENTRE_NS, 1);
  }

  lemma CutPhaseLocks(n: nat, phase: int)
    requires 2 <= n <= 4 && -590 <= phase <= 590
    ensures InLock(PllState(Clamp(CLOCK_CENTRE_NS + TruncDiv(PerCell(phase, n), 10)), TruncDiv(phase, 2)),
                   CLOCK_CENTRE_NS, DRIFTING)
  {
  }

  /** Such are, at nominal speed, all first delays within 590 ns of a whole number of cells. */
  lemma CutDelayLocks(n: nat, first: U32)
    requires 1 <= n <= 4 && -590 <= first - n * CLOCK_CENTRE_NS <= 590
    ensures SubmitTo(CENTRED, first).cells == Gap(n)
    ensures InLock(SubmitTo(CENTRED, first).state, CLOCK_CENTRE_NS, DRIFTING)
  {
    if n == 1 {
      CutCellLocks(first);
    } else {
      SubmitLegal(CENTRED, first, n, first - n * CLOCK_CENTRE_NS);
      CutPhaseLocks(n, first - n * CLOCK_CENTRE_NS);
    }
  }

  /** The whole immediate read: legal MFM on a disk turning within five per cent
      of nominal, with noise on every delay, captured from anywhere on the ring at
      which the first, cut delay does not mislead the PLL, yields the ring itself,
      rotated, with the ring's own verdict, exactly when no shorter perfect repeat
      of the cells comes first. */
  lemma FluxCaptureFindsTheRing(
      events: seq<FluxEvent>, gaps: seq<nat>, cell: int, ring: seq<bool>, start: nat, highDensity: bool)
    requires 1_900 <= cell <= 2_100
    requires |events| == |gaps| + 1
    requires CutWell(events[0].nanoseconds, cell)
    requires forall k :: 0 <= k < |gaps| ==>
        2 <= gaps[k] <= 4 && -15 <= events[k + 1].nanoseconds - gaps[k] * cell <= 15
    requires var bits := CapturedCells(events[0].nanoseconds, gaps);
      && Records(bits, ring, start) && |bits| <= MAX_TRACK_BITS
      && var range := SearchRange(|bits|, highDensity);
      Searchable(bits, range) && range.lower <= |ring| <= range.upper
    ensures var bits := CapturedCells(events[0].nanoseconds, gaps);
      var range := SearchRange(|bits|, highDensity);
      && Perfect(bits, 0, range) <= |ring| && Perfect(bits, 2_048, range) <= |ring| && Perfect(bits, 4_096, range) <= |ring|
      && (CutLength(bits, range) == |ring| <==>
            UnalignedOf(events, highDensity)
            == Ok(Packed(RotateRevolution(Pack(ring), |ring|, start).value, |ring|)))
      && (CutLength(bits, range) == |ring| ==>
            Scan.ScanOf(UnalignedOf(events, highDensity).value.words, |ring|) == Scan.ScanOf(Pack(ring), |ring|))
  {
    var bits := CapturedCells(events[0].nanoseconds, gaps);
    RestMeasures(DelaysOf(events), gaps, cell);
    CaptureDecodes(events[0].nanoseconds, DelaysOf(events)[1..], gaps, cell);
    BoundedExactly(CENTRED, DelaysOf(events));
    CaptureStartDoesNotMatter(bits, highDensity, ring, start);
    RecordingIsCut(bits, highDensity, ring, start);
    if JoinOf(bits, highDensity) == Ok(Turn(ring, start)) {
      CutIsARotation(bits, highDensity, ring, start);
    }
  }
}
