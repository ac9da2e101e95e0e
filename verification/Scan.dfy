/** Format-aware verification of a revolution as a closed ring: AmigaDOS sectors,
    their header and data checksums, and the verdict they add up to. */
module Scan {
  import opened Common
  import opened TrackBits

  const MASK: bv32 := 0x5555_5555
  const SYNC: bv16 := 0x4489
  const DD_SECTORS := 11
  const HD_SECTORS := 22
  const HD_BIT_THRESHOLD := 150_000

  datatype RevolutionScan =
    | CleanAmigaDos(sectors: nat)
    | DamagedAmigaDos(good: nat, expected: nat)
    | Unrecognised

  /** `len` cells of a ring from `start`, going round as often as needed. */
  function Window(ring: seq<bool>, start: nat, len: nat): (window: seq<bool>)
    requires |ring| > 0
    ensures |window| == len
  {
    seq(len, i requires 0 <= i < len => ring[(start + i) % |ring|])
  }

  /** A window of cells as a number, most significant first. */
  function Long(bits: seq<bool>): bv32 {
    if bits == [] then 0
    else (Long(bits[..|bits| - 1]) << 1) | (if bits[|bits| - 1] then 1 else 0)
  }

  function LongAt(ring: seq<bool>, start: nat): bv32
    requires |ring| > 0
  {
    Long(Window(ring, start, 32))
  }

  /** The data bits of the long at a position. */
  function DataBits(ring: seq<bool>, start: nat): bv32
    requires |ring| > 0
  {
    LongAt(ring, start) & MASK
  }

  /** `count` consecutive longs of a ring, each masked to its data bits. */
  function MaskedLongs(ring: seq<bool>, start: nat, count: nat): (longs: seq<bv32>)
    requires |ring| > 0
    ensures |longs| == count
  {
    seq(count, k requires 0 <= k < count => DataBits(ring, start + k * 32))
  }

  function Xor(longs: seq<bv32>): bv32 {
    if longs == [] then 0 else Xor(longs[..|longs| - 1]) ^ longs[|longs| - 1]
  }

  function Deinterleave(odd: bv32, even: bv32): bv32 {
    ((odd & MASK) << 1) | (even & MASK)
  }

  /** A window of cells as a sixteen-bit number; longer windows lose their head. */
  function Word(bits: seq<bool>): bv16 {
    if bits == [] then 0
    else (Word(bits[..|bits| - 1]) << 1) | (if bits[|bits| - 1] then 1 else 0)
  }

  /** The sync word 0x4489 stands at `p`. */
  predicate SyncAt(ring: seq<bool>, p: nat)
    requires |ring| > 0
  {
    Word(Window(ring, p, 16)) == SYNC
  }

  function Syncs(ring: seq<bool>): (syncs: set<nat>)
    requires |ring| > 0
  {
    set p: nat | p < |ring| && SyncAt(ring, p)
  }

  /** What follows a sync mark: nothing that verifies as a header, or a header
      for a sector whose data is or is not intact. */
  datatype Sector = NoHeader | Header(number: nat, intact: bool)

  function HeaderChecksum(ring: seq<bool>, body: nat): bv32
    requires |ring| > 0
  {
    DataBits(ring, body) ^ DataBits(ring, body + 32) ^ Xor(MaskedLongs(ring, body + 64, 8))
  }

  function SectorNumber(info: bv32): nat {
    ((info >> 8) & 0xff) as nat
  }

  predicate HeaderVerifies(ring: seq<bool>, body: nat)
    requires |ring| > 0
  {
    var info := Deinterleave(LongAt(ring, body), LongAt(ring, body + 32));
    && info >> 24 == 0xff
    && SectorNumber(info) < HD_SECTORS
    && HeaderChecksum(ring, body)
         == Deinterleave(LongAt(ring, body + 320), LongAt(ring, body + 352))
  }

  predicate DataVerifies(ring: seq<bool>, body: nat)
    requires |ring| > 0
  {
    Xor(MaskedLongs(ring, body + 448, 256))
      == Deinterleave(LongAt(ring, body + 384), LongAt(ring, body + 416))
  }

  function SectorOf(info: bv32, headerVerifies: bool, dataVerifies: bool): Sector {
    if headerVerifies then Header(SectorNumber(info), dataVerifies) else NoHeader
  }

  function SectorAt(ring: seq<bool>, sync: nat): (sector: Sector)
    requires |ring| > 0
    ensures sector.Header? ==> sector.number < HD_SECTORS
  {
    var body := sync + 32;
    SectorOf(Deinterleave(LongAt(ring, body), LongAt(ring, body + 32)),
             HeaderVerifies(ring, body), DataVerifies(ring, body))
  }

  /** A sector begins at the first of a run of sync words that is at least two long. */
  predicate StartsSector(ring: seq<bool>, p: nat)
    requires |ring| >= 64
  {
    && SyncAt(ring, p)
    && SyncAt(ring, (p + 16) % |ring|)
    && !SyncAt(ring, (p + |ring| - 16) % |ring|)
  }

  /** The sector that begins at a position, if one does. */
  function MarkAt(ring: seq<bool>, p: nat): Sector
    requires |ring| >= 64
  {
    if StartsSector(ring, p) then SectorAt(ring, p) else NoHeader
  }

  /** The sectors beginning at the first `count` positions. */
  function Marks(ring: seq<bool>, count: nat): (marks: seq<Sector>)
    requires |ring| >= 64
    ensures |marks| == count
  {
    if count == 0 then [] else Marks(ring, count - 1) + [MarkAt(ring, count - 1)]
  }

  /** The positions whose headers verify. */
  function Headers(marks: seq<Sector>): (headers: set<nat>) {
    set p: nat | p < |marks| && marks[p].Header?
  }

  /** The distinct sector numbers found with header and data both intact. */
  function GoodSectors(marks: seq<Sector>): (numbers: set<nat>) {
    set p: nat | p < |marks| && marks[p].Header? && marks[p].intact :: marks[p].number
  }

  function Expected(bitLen: nat): nat {
    if bitLen > HD_BIT_THRESHOLD then HD_SECTORS else DD_SECTORS
  }

  function Verdict(bitLen: nat, headers: nat, good: nat): RevolutionScan {
    if good == Expected(bitLen) then CleanAmigaDos(Expected(bitLen))
    else if headers + 1 >= Expected(bitLen) then DamagedAmigaDos(good, Expected(bitLen))
    else Unrecognised
  }

  /** The verdict on a ring, with no order and no starting point in it. */
  function ScanRing(ring: seq<bool>): RevolutionScan
    requires |ring| >= 64
  {
    var marks := Marks(ring, |ring|);
    Verdict(|ring|, |Headers(marks)|, |GoodSectors(marks)|)
  }

  /** The verdict on a packed revolution. */
  function ScanOf(words: seq<bv16>, bitLen: nat): RevolutionScan {
    if bitLen < 64 || |words| * 16 < bitLen then Unrecognised
    else ScanRing(Unpack(words, bitLen))
  }

  // ----- the ring does not care where it is cut -----

  lemma TurnedWindow(ring: seq<bool>, s: nat, p: nat, len: nat)
    requires |ring| > 0
    ensures Window(Turn(ring, s), p, len) == Window(ring, s + p, len)
  {
    forall i: nat | i < len
      ensures Window(Turn(ring, s), p, len)[i] == Window(ring, s + p, len)[i]
    {
      AddModMod(p + i, s, |ring|);
      assert s + (p + i) % |ring| == (p + i) % |ring| + s;
      assert p + i + s == s + p + i;
    }
  }

  lemma WrappedWindow(ring: seq<bool>, p: nat, len: nat)
    requires |ring| > 0
    ensures Window(ring, p % |ring|, len) == Window(ring, p, len)
  {
    forall i: nat | i < len
      ensures Window(ring, p % |ring|, len)[i] == Window(ring, p, len)[i]
    {
      AddModMod(p, i, |ring|);
    }
  }

  lemma TurnedSync(ring: seq<bool>, s: nat, p: nat)
    requires |ring| > 0
    ensures SyncAt(Turn(ring, s), p) == SyncAt(ring, (s + p) % |ring|)
  {
    TurnedWindow(ring, s, p, 16);
    WrappedWindow(ring, s + p, 16);
  }

  lemma TurnedLong(ring: seq<bool>, s: nat, p: nat)
    requires |ring| > 0
    ensures LongAt(Turn(ring, s), p) == LongAt(ring, s + p)
  {
    TurnedWindow(ring, s, p, 32);
  }

  lemma TurnedLongs(ring: seq<bool>, s: nat, p: nat, count: nat)
    requires |ring| > 0
    ensures MaskedLongs(Turn(ring, s), p, count) == MaskedLongs(ring, s + p, count)
  {
    var turned, original := MaskedLongs(Turn(ring, s), p, count), MaskedLongs(ring, s + p, count);
    forall k: nat | k < count
      ensures turned[k] == original[k]
    {
      LongsAt(Turn(ring, s), p, count, k);
      LongsAt(ring, s + p, count, k);
      TurnedLong(ring, s, p + k * 32);
    }
  }

  lemma LongsAt(ring: seq<bool>, p: nat, count: nat, k: nat)
    requires |ring| > 0 && k < count
    ensures MaskedLongs(ring, p, count)[k] == DataBits(ring, p + k * 32)
  {
  }

  lemma TurnedInfo(ring: seq<bool>, s: nat, body: nat)
    requires |ring| > 0
    ensures LongAt(Turn(ring, s), body) == LongAt(ring, s + body)
    ensures LongAt(Turn(ring, s), body + 32) == LongAt(ring, s + body + 32)
  {
    TurnedLong(ring, s, body);
    TurnedLong(ring, s, body + 32);
  }

  lemma TurnedChecksum(ring: seq<bool>, s: nat, body: nat)
    requires |ring| > 0
    ensures HeaderChecksum(Turn(ring, s), body) == HeaderChecksum(ring, s + body)
  {
    TurnedInfo(ring, s, body);
    TurnedLongs(ring, s, body + 64, 8);
  }

  lemma TurnedHeaderVerifies(ring: seq<bool>, s: nat, body: nat)
    requires |ring| > 0
    ensures HeaderVerifies(Turn(ring, s), body) == HeaderVerifies(ring, s + body)
  {
    TurnedInfo(ring, s, body);
    TurnedChecksum(ring, s, body);
    TurnedInfo(ring, s, body + 320);
  }

  lemma TurnedDataVerifies(ring: seq<bool>, s: nat, body: nat)
    requires |ring| > 0
    ensures DataVerifies(Turn(ring, s), body) == DataVerifies(ring, s + body)
  {
    TurnedLongs(ring, s, body + 448, 256);
    TurnedInfo(ring, s, body + 384);
  }

  /** What follows a sync mark is the same at the same place of a turned ring. */
  lemma TurnedSector(ring: seq<bool>, s: nat, p: nat)
    requires |ring| > 0
    ensures SectorAt(Turn(ring, s), p) == SectorAt(ring, s + p)
  {
    var body := p + 32;
    TurnedInfo(ring, s, body);
    TurnedHeaderVerifies(ring, s, body);
    TurnedDataVerifies(ring, s, body);
    assert s + p + 32 == s + body;
  }

  /** Going once more round the ring changes nothing. */
  lemma WrappedSector(ring: seq<bool>, p: nat)
    requires |ring| > 0
    ensures SectorAt(ring, p % |ring|) == SectorAt(ring, p)
  {
    TurnedSector(ring, p % |ring|, 0);
    TurnedSector(ring, p, 0);
    TurnMod(ring, p);
  }

  lemma TurnMod(ring: seq<bool>, p: nat)
    requires |ring| > 0
    ensures Turn(ring, p % |ring|) == Turn(ring, p)
  {
    forall i: nat | i < |ring|
      ensures Turn(ring, p % |ring|)[i] == Turn(ring, p)[i]
    {
      AddModMod(p, i, |ring|);
    }
  }

  /** Where a position of a turned ring lies on the original. */
  function Home(n: nat, s: nat, p: nat): (home: nat)
    requires n > 0
    ensures home < n
  {
    (s + p) % n
  }

  /** The sync marks of a turned ring, at a distance from a position. */
  lemma TurnedSyncNear(ring: seq<bool>, s: nat, p: nat, offset: nat)
    requires |ring| > 0
    ensures SyncAt(Turn(ring, s), (p + offset) % |ring|)
         == SyncAt(ring, (Home(|ring|, s, p) + offset) % |ring|)
  {
    var n := |ring|;
    TurnedSync(ring, s, (p + offset) % n);
    SumMod(s, p + offset, n);
    AddModMod(s + p, offset, n);
    assert s + (p + offset) == s + p + offset;
  }

  lemma TurnedStart(ring: seq<bool>, s: nat, p: nat)
    requires |ring| >= 64 && p < |ring|
    ensures StartsSector(Turn(ring, s), p) == StartsSector(ring, Home(|ring|, s, p))
  {
    var n := |ring|;
    var home := Home(n, s, p);
    TurnedSync(ring, s, p);
    TurnedSyncNear(ring, s, p, 16);
    TurnedSyncNear(ring, s, p, n - 16);
    assert p + n - 16 == p + (n - 16) && home + n - 16 == home + (n - 16);
  }

  lemma SumMod(a: nat, b: nat, n: nat)
    requires n > 0
    ensures (a + b % n) % n == (a + b) % n
  {
    AddModMod(b, a, n);
    assert a + b % n == b % n + a && a + b == b + a;
  }

  lemma TurnedMark(ring: seq<bool>, s: nat, p: nat)
    requires |ring| >= 64 && p < |ring|
    ensures MarkAt(Turn(ring, s), p) == MarkAt(ring, Home(|ring|, s, p))
  {
    TurnedStart(ring, s, p);
    TurnedSector(ring, s, p);
    WrappedSector(ring, s + p);
  }

  lemma {:induction false} MarksAt(ring: seq<bool>, count: nat, p: nat)
    requires |ring| >= 64 && p < count
    ensures Marks(ring, count)[p] == MarkAt(ring, p)
    decreases count
  {
    if p < count - 1 {
      MarksAt(ring, count - 1, p);
    }
  }

  lemma TurnedEntry(ring: seq<bool>, s: nat, p: nat)
    requires |ring| >= 64 && p < |ring|
    ensures Marks(Turn(ring, s), |ring|)[p] == Marks(ring, |ring|)[Home(|ring|, s, p)]
  {
    TurnedMark(ring, s, p);
    MarksAt(Turn(ring, s), |ring|, p);
    MarksAt(ring, |ring|, Home(|ring|, s, p));
  }

  lemma IsTurn<T>(a: seq<T>, b: seq<T>, s: nat)
    requires |a| == |b| > 0
    requires forall p: nat | p < |a| :: a[p] == b[Home(|a|, s, p)]
    ensures a == Turn(b, s)
  {
  }

  /** The sectors of a turned ring are the sectors of the ring, turned. */
  lemma TurnedMarks(ring: seq<bool>, s: nat)
    requires |ring| >= 64
    ensures Marks(Turn(ring, s), |ring|) == Turn(Marks(ring, |ring|), s)
  {
    var turned := Turn(ring, s);
    forall p: nat | p < |ring|
      ensures Marks(turned, |ring|)[p] == Marks(ring, |ring|)[Home(|ring|, s, p)]
    {
      TurnedEntry(ring, s, p);
    }
    IsTurn(Marks(turned, |ring|), Marks(ring, |ring|), s);
  }

  lemma HomeInjective(n: nat, s: nat, p: nat, q: nat)
    requires p < n && q < n
    requires Home(n, s, p) == Home(n, s, q)
    ensures p == q
  {
    QuotientBrackets(s + p, n);
    QuotientBrackets(s + q, n);
    var d := (s + p) / n - (s + q) / n;
    assert p - q == d * n;
  }

  /** Every position of the original is the home of one of the turned ring. */
  function Away(n: nat, s: nat, home: nat): (p: nat)
    requires home < n
    ensures p < n
  {
    (home + n - s % n) % n
  }

  lemma AwayHome(n: nat, s: nat, home: nat)
    requires home < n
    ensures Home(n, s, Away(n, s, home)) == home
  {
    var back := home + n - s % n;
    SumMod(s, back, n);
    AddModMod(s, back, n);
    assert s % n + back == home + n;
    AddPeriod(home, n);
    ModUnique(home, 0, home, n);
  }

  lemma {:induction false} SameSize(a: set<nat>, b: set<nat>, n: nat, s: nat)
    requires forall p :: p in a ==> p < n && Home(n, s, p) in b
    requires forall q :: q in b ==> q < n && Away(n, s, q) in a
    ensures |a| == |b|
    decreases |a|
  {
    if a == {} {
      assert b == {};
    } else {
      var p :| p in a;
      var home := Home(n, s, p);
      forall r | r in a - {p}
        ensures r < n && Home(n, s, r) in b - {home}
      {
        if Home(n, s, r) == home {
          HomeInjective(n, s, r, p);
        }
      }
      forall q | q in b - {home}
        ensures q < n && Away(n, s, q) in a - {p}
      {
        AwayHome(n, s, q);
      }
      SameSize(a - {p}, b - {home}, n, s);
      assert |a - {p}| == |a| - 1 && |b - {home}| == |b| - 1;
    }
  }

  lemma TurnedTally(marks: seq<Sector>, s: nat)
    requires |marks| > 0
    ensures |Headers(Turn(marks, s))| == |Headers(marks)|
    ensures GoodSectors(Turn(marks, s)) == GoodSectors(marks)
  {
    var n, turned := |marks|, Turn(marks, s);
    forall p | p in Headers(turned)
      ensures p < n && Home(n, s, p) in Headers(marks)
    {
    }
    forall q | q in Headers(marks)
      ensures q < n && Away(n, s, q) in Headers(turned)
    {
      AwayHome(n, s, q);
    }
    SameSize(Headers(turned), Headers(marks), n, s);
    forall number
      ensures number in GoodSectors(turned) <==> number in GoodSectors(marks)
    {
      TurnedGood(marks, s, number);
    }
  }

  lemma TurnedGood(marks: seq<Sector>, s: nat, number: nat)
    requires |marks| > 0
    ensures number in GoodSectors(Turn(marks, s)) <==> number in GoodSectors(marks)
  {
    var n, turned := |marks|, Turn(marks, s);
    if number in GoodSectors(turned) {
      var p: nat :| p < n && turned[p].Header? && turned[p].intact && turned[p].number == number;
      var home := Home(n, s, p);
      assert marks[home] == turned[p];
    }
    if number in GoodSectors(marks) {
      var q: nat :| q < n && marks[q].Header? && marks[q].intact && marks[q].number == number;
      AwayHome(n, s, q);
      assert turned[Away(n, s, q)] == marks[q];
    }
  }

  /** The verdict on a ring does not depend on where it is cut. */
  lemma ScanTurned(ring: seq<bool>, s: nat)
    requires |ring| >= 64
    ensures ScanRing(Turn(ring, s)) == ScanRing(ring)
  {
    TurnedMarks(ring, s);
    TurnedTally(Marks(ring, |ring|), s);
  }

  /** Rotating a packed revolution never changes its verdict. */
  lemma ScanRotationInvariant(words: seq<bv16>, bitLen: nat, start: nat)
    requires 0 < bitLen <= |words| * 16
    ensures ScanOf(RotateRevolution(words, bitLen, start).value, bitLen) == ScanOf(words, bitLen)
  {
    RotationTurns(words, bitLen, start);
    if bitLen >= 64 {
      ScanTurned(Unpack(words, bitLen), start);
    }
  }

  // ----- the scanner itself -----

  /** Shifting a cell into a sixteen-bit register moves every bit up one. */
  lemma ShiftedBit(w: bv16, cell: bool, i: nat)
    requires i < 16
    ensures BitOfWord((w << 1) | (if cell then 1 else 0), i)
        <==> if i == 15 then cell else BitOfWord(w, i + 1)
  {
    MaskTable();
  }

  /** The cells read so far, behind the zeros the register starts with. */
  function History(ring: seq<bool>, count: nat): seq<bool>
    requires |ring| > 0
  {
    seq(16, _ => false) + Window(ring, 0, count)
  }

  /** The register holds the last sixteen cells of the history. */
  predicate Holds(register: bv16, cells: seq<bool>) {
    |cells| >= 16 && forall i: nat | i < 16 :: BitOfWord(register, i) == cells[|cells| - 16 + i]
  }

  lemma ShiftIn(register: bv16, cells: seq<bool>, cell: bool)
    requires Holds(register, cells)
    ensures Holds((register << 1) | (if cell then 1 else 0), cells + [cell])
  {
    var shifted := (register << 1) | (if cell then 1 else 0);
    forall i: nat | i < 16
      ensures BitOfWord(shifted, i) == (cells + [cell])[|cells| + 1 - 16 + i]
    {
      ShiftedBit(register, cell, i);
    }
  }

  lemma HistoryGrows(ring: seq<bool>, count: nat)
    requires |ring| > 0
    ensures History(ring, count + 1) == History(ring, count) + [ring[count % |ring|]]
  {
  }

  lemma EmptyRegister(ring: seq<bool>)
    requires |ring| > 0
    ensures Holds(0, History(ring, 0))
  {
    forall i: nat | i < 16
      ensures !BitOfWord(0, i)
    {
      ZeroUnder(Mask(i));
    }
  }

  lemma {:induction false} WordHolds(bits: seq<bool>)
    ensures Holds(Word(bits), seq(16, _ => false) + bits)
    decreases bits
  {
    if bits == [] {
      forall i: nat | i < 16
        ensures !BitOfWord(0, i)
      {
        ZeroUnder(Mask(i));
      }
    } else {
      var front := bits[..|bits| - 1];
      WordHolds(front);
      ShiftIn(Word(front), seq(16, _ => false) + front, bits[|bits| - 1]);
      assert seq(16, _ => false) + bits == seq(16, _ => false) + front + [bits[|bits| - 1]];
    }
  }

  /** Once full, the register reads the window that ends where it stands. */
  lemma FullRegister(ring: seq<bool>, register: bv16, p: nat)
    requires |ring| > 0
    requires Holds(register, History(ring, p + 16))
    ensures register == Word(Window(ring, p, 16))
  {
    var window := Window(ring, p, 16);
    WordHolds(window);
    forall i: nat | i < 16
      ensures BitOfWord(register, i) == BitOfWord(Word(window), i)
    {
      assert BitOfWord(register, i) == History(ring, p + 16)[p + 16 + i];
      assert History(ring, p + 16)[p + 16 + i] == Window(ring, 0, p + 16)[p + i];
      assert BitOfWord(Word(window), i) == (seq(16, _ => false) + window)[16 + i];
    }
    WordExtensionality(register, Word(window));
  }

  method FindSyncs(ring: seq<bool>) returns (syncs: set<nat>)
    requires |ring| >= 64
    ensures syncs == Syncs(ring)
  {
    var n := |ring|;
    var window: bv16 := 0;
    syncs := {};
    EmptyRegister(ring);
    for position := 0 to n + 15
      invariant Holds(window, History(ring, position))
      invariant syncs == set p: nat | p < n && p + 15 < position && SyncAt(ring, p)
    {
      var cell := ring[position % n];
      ShiftIn(window, History(ring, position), cell);
      HistoryGrows(ring, position);
      window := (window << 1) | (if cell then 1 else 0);
      if position >= 15 {
        FullRegister(ring, window, position - 15);
        ModUnique(position - 15, 0, position - 15, n);
        if window == SYNC {
          syncs := syncs + {(position - 15) % n};
        }
      }
    }
  }

  function CountTrue(flags: seq<bool>): nat {
    if flags == [] then 0
    else CountTrue(flags[..|flags| - 1]) + if flags[|flags| - 1] then 1 else 0
  }

  lemma {:induction false} CountsMembers(flags: seq<bool>, members: set<nat>)
    requires forall i :: i in members ==> i < |flags|
    requires forall i: nat :: i < |flags| ==> (flags[i] <==> i in members)
    ensures CountTrue(flags) == |members|
    decreases |flags|
  {
    if flags != [] {
      var last := |flags| - 1;
      CountsMembers(flags[..last], members - {last});
      if flags[last] {
        assert members == (members - {last}) + {last};
      } else {
        assert members == members - {last};
      }
    } else {
      assert members == {};
    }
  }

  /** `scan_revolution`: whatever order the sync set is visited in, the verdict is the ring's. */
  method ScanRevolution(words: seq<bv16>, bitLen: nat) returns (verdict: RevolutionScan)
    ensures verdict == ScanOf(words, bitLen)
  {
    if bitLen < 64 || words == [] || |words| * 16 < bitLen {
      return Unrecognised;
    }
    var ring := Unpack(words, bitLen);
    var syncs := FindSyncs(ring);
    var headers, good := VisitSyncs(ring, syncs);
    verdict := Verdict(bitLen, headers, good);
  }

  /** The running totals account for every position already visited. */
  ghost predicate Tallied(marks: seq<Sector>, unvisited: set<nat>, headersValid: nat, good: seq<bool>) {
    && headersValid == |Headers(marks) - unvisited|
    && |good| == HD_SECTORS
    && forall i: nat :: i < HD_SECTORS ==>
        (good[i] <==> exists p :: p in Headers(marks) - unvisited
                                  && marks[p].intact && marks[p].number == i)
  }

  lemma TallyVisit(marks: seq<Sector>, unvisited: set<nat>, headersValid: nat, good: seq<bool>, sync: nat)
    requires Tallied(marks, unvisited, headersValid, good)
    requires sync in unvisited && sync < |marks|
    requires marks[sync].Header? ==> marks[sync].number < HD_SECTORS
    ensures match marks[sync]
      case NoHeader => Tallied(marks, unvisited - {sync}, headersValid, good)
      case Header(number, intact) =>
        Tallied(marks, unvisited - {sync}, headersValid + 1, if intact then good[number := true] else good)
  {
    var seen, now := Headers(marks) - unvisited, Headers(marks) - (unvisited - {sync});
    if marks[sync].Header? {
      assert now == seen + {sync};
      assert forall p :: p in now <==> p in seen || p == sync;
    } else {
      assert now == seen;
    }
  }

  lemma TallyStarts(marks: seq<Sector>, syncs: set<nat>)
    requires Headers(marks) <= syncs
    ensures Tallied(marks, syncs, 0, seq(HD_SECTORS, _ => false))
  {
    assert Headers(marks) - syncs == {};
  }

  lemma TallyEnds(marks: seq<Sector>, headersValid: nat, good: seq<bool>)
    requires Tallied(marks, {}, headersValid, good)
    requires forall number :: number in GoodSectors(marks) ==> number < HD_SECTORS
    ensures headersValid == |Headers(marks)| && CountTrue(good) == |GoodSectors(marks)|
  {
    assert Headers(marks) - {} == Headers(marks);
    forall i: nat | i < HD_SECTORS
      ensures good[i] <==> i in GoodSectors(marks)
    {
    }
    CountsMembers(good, GoodSectors(marks));
  }

  method VisitSyncs(ring: seq<bool>, syncs: set<nat>) returns (headersValid: nat, goodCount: nat)
    requires |ring| >= 64
    requires syncs == Syncs(ring)
    ensures headersValid == |Headers(Marks(ring, |ring|))|
    ensures goodCount == |GoodSectors(Marks(ring, |ring|))|
  {
    ghost var marks := Marks(ring, |ring|);
    OnlySyncsStart(ring);
    headersValid := 0;
    var good := new bool[HD_SECTORS](_ => false);
    assert good[..] == seq(HD_SECTORS, _ => false);
    TallyStarts(marks, syncs);
    var unvisited := syncs;
    while unvisited != {}
      invariant unvisited <= syncs
      invariant Tallied(marks, unvisited, headersValid, good[..])
      decreases |unvisited|
    {
      var sync :| sync in unvisited;
      var sector := VisitSync(ring, syncs, sync);
      TallyVisit(marks, unvisited, headersValid, good[..], sync);
      unvisited := unvisited - {sync};
      if sector.NoHeader? {
        continue;
      }
      headersValid := headersValid + 1;
      if sector.intact {
        ghost var before := good[..];
        good[sector.number] := true;
        assert good[..] == before[sector.number := true];
      }
    }
    TallyEnds(marks, headersValid, good[..]);
    goodCount := CountTrue(good[..]);
  }

  /** One visit: a repeated sync word is skipped, a sector's header and data are checked. */
  method VisitSync(ring: seq<bool>, syncs: set<nat>, sync: nat) returns (sector: Sector)
    requires |ring| >= 64
    requires syncs == Syncs(ring) && sync in syncs
    ensures sector == Marks(ring, |ring|)[sync]
    ensures sector.Header? ==> sector.number < HD_SECTORS
  {
    var n := |ring|;
    MarksAt(ring, n, sync);
    if (sync + 16) % n !in syncs || (sync + n - 16) % n in syncs {
      return NoHeader;
    }
    sector := SectorAt(ring, sync);
  }

  lemma OnlySyncsStart(ring: seq<bool>)
    requires |ring| >= 64
    ensures Headers(Marks(ring, |ring|)) <= Syncs(ring)
    ensures forall number :: number in GoodSectors(Marks(ring, |ring|)) ==> number < HD_SECTORS
  {
    forall p: nat | p < |ring|
      ensures Marks(ring, |ring|)[p].Header? ==>
          p in Syncs(ring) && Marks(ring, |ring|)[p].number < HD_SECTORS
    {
      MarksAt(ring, |ring|, p);
    }
  }
}
