/** AmigaDOS tracks as they are written, and what the scan makes of them. */
module AmigaTrack {
  import opened Common
  import opened TrackBits
  import opened Scan
  import opened Mfm

  // ----- sectors -----

  const LABEL_BITS := 128
  const DATA_BITS := 4_096

  /** A sector to be written: the four bytes of its header, its label and its data. */
  datatype SectorSpec =
    SectorSpec(format: bv32, track: bv32, number: bv32, toGap: bv32, osLabel: seq<bool>, data: seq<bool>)

  predicate Writable(spec: SectorSpec) {
    && spec.format <= 0xff && spec.track <= 0xff && spec.number <= 0xff && spec.toGap <= 0xff
    && |spec.osLabel| == LABEL_BITS && |spec.data| == DATA_BITS
  }

  /** The header is that of an AmigaDOS sector, with a number some track could have. */
  predicate Amiga(spec: SectorSpec) {
    spec.format == 0xff && spec.number as nat < 22
  }

  /** The odd bits of a byte, as MFM writes them first. */
  function OddBits(byte: bv32): (bits: seq<bool>)
    ensures |bits| == 4
  {
    [byte & 0x80 != 0, byte & 0x20 != 0, byte & 0x08 != 0, byte & 0x02 != 0]
  }

  function EvenBits(byte: bv32): (bits: seq<bool>)
    ensures |bits| == 4
  {
    [byte & 0x40 != 0, byte & 0x10 != 0, byte & 0x04 != 0, byte & 0x01 != 0]
  }

  function OddInfo(spec: SectorSpec): (bits: seq<bool>)
    ensures |bits| == 16
  {
    OddBits(spec.format) + OddBits(spec.track) + OddBits(spec.number) + OddBits(spec.toGap)
  }

  function EvenInfo(spec: SectorSpec): (bits: seq<bool>)
    ensures |bits| == 16
  {
    EvenBits(spec.format) + EvenBits(spec.track) + EvenBits(spec.number) + EvenBits(spec.toGap)
  }

  function HeaderSum(spec: SectorSpec): (bits: seq<bool>)
    ensures |bits| == 16
  {
    XorBits(XorBits(OddInfo(spec), EvenInfo(spec)), XorGroups(spec.osLabel))
  }

  const SECTOR_BITS: nat := 4_336

  /** The data bits of a sector: two marks, header, label, checksums and data. */
  function SectorBits(spec: SectorSpec): (bits: seq<bool>)
    requires Writable(spec)
    ensures |bits| == SECTOR_BITS
  {
    MARK + MARK + OddInfo(spec) + EvenInfo(spec) + spec.osLabel
    + Zeros16() + HeaderSum(spec) + Zeros16() + XorGroups(spec.data) + spec.data
  }

  /** Where the parts of a sector stand. */
  lemma SectorParts(spec: SectorSpec)
    requires Writable(spec)
    ensures var bits := SectorBits(spec);
      && bits[0..8] == MARK && bits[8..16] == MARK
      && bits[16..32] == OddInfo(spec) && bits[32..48] == EvenInfo(spec) && bits[48..176] == spec.osLabel
      && bits[176..192] == Zeros16() && bits[192..208] == HeaderSum(spec)
      && bits[208..224] == Zeros16() && bits[224..240] == XorGroups(spec.data)
      && bits[240..4_336] == spec.data
  {
  }

  lemma WindowPart(ring: seq<bool>, q: nat, len: nat, from: nat, to: nat)
    requires |ring| > 0 && from <= to <= len
    ensures Window(ring, q, len)[from..to] == Window(ring, q + from, to - from)
  {
  }

  // ----- the header field -----

  function Four(bits: seq<bool>): bv32
    requires |bits| == 4
  {
    (if bits[0] then 0x40 else 0) | (if bits[1] then 0x10 else 0) | (if bits[2] then 0x04 else 0) | (if bits[3] then 1 else 0)
  }

  function Two(a: bool, b: bool): bv32 {
    (if a then 4 else 0) | (if b then 1 else 0)
  }

  lemma ShiftTwo(x: bv32, a: bool, b: bool)
    ensures (((x << 2) | (if a then 1 else 0)) << 2) | (if b then 1 else 0) == (x << 4) | Two(a, b)
  {
  }

  lemma SpreadTwo(bits: seq<bool>, a: bool, b: bool)
    ensures Spread(bits + [a, b]) == (Spread(bits) << 4) | Two(a, b)
  {
    SpreadPush(bits, a);
    SpreadPush(bits + [a], b);
    assert bits + [a, b] == bits + [a] + [b];
    ShiftTwo(Spread(bits), a, b);
  }

  lemma ShiftFour(x: bv32, a: bool, b: bool, c: bool, d: bool)
    ensures (((x << 4) | Two(a, b)) << 4) | Two(c, d) == (x << 8) | Four([a, b, c, d])
  {
  }

  lemma SpreadFour(bits: seq<bool>, four: seq<bool>)
    requires |four| == 4
    ensures Spread(bits + four) == (Spread(bits) << 8) | Four(four)
  {
    var a, b, c, d := four[0], four[1], four[2], four[3];
    SpreadTwo(bits, a, b);
    SpreadTwo(bits + [a, b], c, d);
    assert four == [a, b, c, d];
    assert bits + four == bits + [a, b] + [c, d];
    ShiftFour(Spread(bits), a, b, c, d);
  }

  /** A byte from its odd and its even bits. */
  function Rejoined(odd: bv32, even: bv32): bv32 {
    (odd << 1) | even
  }

  /** The info field names this format and this sector number. */
  predicate Names(info: bv32, format: bv32, number: bv32) {
    info >> 24 == format && (info >> 8) & 0xff == number
  }

  lemma BothHalves(byte: bv32)
    requires byte <= 0xff
    ensures Rejoined(Four(OddBits(byte)), Four(EvenBits(byte))) == byte
    ensures Four(OddBits(byte)) <= 0x55 && Four(EvenBits(byte)) <= 0x55
  {
  }

  /** Four bytes a half each, put together again. */
  lemma FourBytes(o1: bv32, o2: bv32, o3: bv32, o4: bv32, e1: bv32, e2: bv32, e3: bv32, e4: bv32)
    requires o1 <= 0x55 && o2 <= 0x55 && o3 <= 0x55 && o4 <= 0x55
    requires e1 <= 0x55 && e2 <= 0x55 && e3 <= 0x55 && e4 <= 0x55
    ensures var odd := (((((o1 << 8) | o2) << 8) | o3) << 8) | o4;
      var even := (((((e1 << 8) | e2) << 8) | e3) << 8) | e4;
      Names(Rejoined(odd, even), Rejoined(o1, e1), Rejoined(o3, e3))
  {
  }

  /** One half of the header field, from the halves of its bytes. */
  predicate Half(long: bv32, a: bv32, b: bv32, c: bv32, d: bv32) {
    long == (((((a << 8) | b) << 8) | c) << 8) | d
  }

  lemma SpreadBytes(a: seq<bool>, b: seq<bool>, c: seq<bool>, d: seq<bool>)
    requires |a| == |b| == |c| == |d| == 4
    ensures Half(Spread(a + b + c + d), Four(a), Four(b), Four(c), Four(d))
  {
    SpreadFour([], a);
    assert [] + a == a;
    SpreadFour(a, b);
    SpreadFour(a + b, c);
    SpreadFour(a + b + c, d);
  }

  lemma HalvesName(odd: bv32, even: bv32, o1: bv32, o2: bv32, o3: bv32, o4: bv32, e1: bv32, e2: bv32, e3: bv32, e4: bv32,
                   format: bv32, number: bv32)
    requires Half(odd, o1, o2, o3, o4) && Half(even, e1, e2, e3, e4)
    requires o1 <= 0x55 && o2 <= 0x55 && o3 <= 0x55 && o4 <= 0x55
    requires e1 <= 0x55 && e2 <= 0x55 && e3 <= 0x55 && e4 <= 0x55
    requires Rejoined(o1, e1) == format && Rejoined(o3, e3) == number
    ensures Names(Rejoined(odd, even), format, number)
  {
    FourBytes(o1, o2, o3, o4, e1, e2, e3, e4);
  }

  /** The header reads as its format byte and its number. */
  lemma InfoIs(spec: SectorSpec)
    requires Writable(spec)
    ensures Names(Rejoined(Spread(OddInfo(spec)), Spread(EvenInfo(spec))), spec.format, spec.number)
  {
    SpreadBytes(OddBits(spec.format), OddBits(spec.track), OddBits(spec.number), OddBits(spec.toGap));
    SpreadBytes(EvenBits(spec.format), EvenBits(spec.track), EvenBits(spec.number), EvenBits(spec.toGap));
    BothHalves(spec.format);
    BothHalves(spec.track);
    BothHalves(spec.number);
    BothHalves(spec.toGap);
    HalvesName(Spread(OddInfo(spec)), Spread(EvenInfo(spec)),
               Four(OddBits(spec.format)), Four(OddBits(spec.track)), Four(OddBits(spec.number)), Four(OddBits(spec.toGap)),
               Four(EvenBits(spec.format)), Four(EvenBits(spec.track)), Four(EvenBits(spec.number)), Four(EvenBits(spec.toGap)),
               spec.format, spec.number);
  }

  // ----- a sector on the ring -----

  /** The sector stands at data bit `q` of the ring. */
  predicate Stands(data: seq<bool>, q: nat, spec: SectorSpec)
    requires |data| > 0
  {
    Writable(spec) && Window(data, q, SECTOR_BITS) == SectorBits(spec)
  }

  lemma PartsStand(data: seq<bool>, q: nat, spec: SectorSpec)
    requires |data| > 0 && Stands(data, q, spec)
    ensures Window(data, q, 8) == MARK && Window(data, q + 8, 8) == MARK
    ensures Window(data, q + 16, 16) == OddInfo(spec) && Window(data, q + 32, 16) == EvenInfo(spec)
    ensures Window(data, q + 48, LABEL_BITS) == spec.osLabel
    ensures Window(data, q + 176, 16) == Zeros16() && Window(data, q + 192, 16) == HeaderSum(spec)
    ensures Window(data, q + 208, 16) == Zeros16() && Window(data, q + 224, 16) == XorGroups(spec.data)
    ensures Window(data, q + 240, DATA_BITS) == spec.data
  {
    SectorParts(spec);
    WindowPart(data, q, SECTOR_BITS, 0, 8);
    WindowPart(data, q, SECTOR_BITS, 8, 16);
    WindowPart(data, q, SECTOR_BITS, 16, 32);
    WindowPart(data, q, SECTOR_BITS, 32, 48);
    WindowPart(data, q, SECTOR_BITS, 48, 176);
    WindowPart(data, q, SECTOR_BITS, 176, 192);
    WindowPart(data, q, SECTOR_BITS, 192, 208);
    WindowPart(data, q, SECTOR_BITS, 208, 224);
    WindowPart(data, q, SECTOR_BITS, 224, 240);
    WindowPart(data, q, SECTOR_BITS, 240, SECTOR_BITS);
  }

  /** The masked long at a place of the ring, given the data bits there. */
  lemma LongHolds(data: seq<bool>, quiet: set<nat>, k: nat, p: nat, bits: seq<bool>)
    requires |data| > 0 && p == 2 * k && Window(data, k, 16) == bits
    ensures LongAt(MfmRing(data, quiet), p) & MASK == Spread(bits)
  {
    MaskedLong(data, quiet, k);
  }

  lemma DeinterleaveIs(odd: bv32, even: bv32, x: bv32, y: bv32)
    requires odd & MASK == x && even & MASK == y
    ensures Deinterleave(odd, even) == Rejoined(x, y)
  {
  }

  lemma InfoReads(odd: bv32, even: bv32, spec: SectorSpec)
    requires Writable(spec)
    requires odd & MASK == Spread(OddInfo(spec)) && even & MASK == Spread(EvenInfo(spec))
    ensures Names(Deinterleave(odd, even), spec.format, spec.number)
  {
    DeinterleaveIs(odd, even, Spread(OddInfo(spec)), Spread(EvenInfo(spec)));
    InfoIs(spec);
  }

  lemma InfoStands(data: seq<bool>, quiet: set<nat>, q: nat, spec: SectorSpec)
    requires |data| > 0 && Stands(data, q, spec)
    ensures var ring, body := MfmRing(data, quiet), 2 * q + 32;
      var info := Deinterleave(LongAt(ring, body), LongAt(ring, body + 32));
      Names(info, spec.format, spec.number)
  {
    var ring, body := MfmRing(data, quiet), 2 * q + 32;
    PartsStand(data, q, spec);
    LongHolds(data, quiet, q + 16, body, OddInfo(spec));
    LongHolds(data, quiet, q + 32, body + 32, EvenInfo(spec));
    InfoReads(LongAt(ring, body), LongAt(ring, body + 32), spec);
  }

  lemma NothingRejoined(even: bv32)
    ensures Rejoined(0, even) == even
  {
  }

  lemma CheckIs(odd: bv32, even: bv32, sum: seq<bool>)
    requires odd & MASK == Spread(Zeros16()) && even & MASK == Spread(sum)
    ensures Deinterleave(odd, even) == Spread(sum)
  {
    SpreadZeros(16);
    DeinterleaveIs(odd, even, 0, Spread(sum));
    NothingRejoined(Spread(sum));
  }

  lemma HeaderAddsUp(odd: bv32, even: bv32, rest: bv32, spec: SectorSpec)
    requires odd == Spread(OddInfo(spec)) && even == Spread(EvenInfo(spec)) && rest == Spread(XorGroups(spec.osLabel))
    ensures odd ^ even ^ rest == Spread(HeaderSum(spec))
  {
    SpreadXor(OddInfo(spec), EvenInfo(spec));
    SpreadXor(XorBits(OddInfo(spec), EvenInfo(spec)), XorGroups(spec.osLabel));
  }

  lemma LabelSum(data: seq<bool>, quiet: set<nat>, q: nat, spec: SectorSpec)
    requires |data| > 0 && Stands(data, q, spec)
    ensures Xor(MaskedLongs(MfmRing(data, quiet), 2 * q + 32 + 64, 8)) == Spread(XorGroups(spec.osLabel))
  {
    PartsStand(data, q, spec);
    XorOfLongs(data, quiet, q + 48, 8);
    assert 2 * q + 32 + 64 == 2 * (q + 48) && 16 * 8 == LABEL_BITS;
  }

  lemma ChecksumIs(ring: seq<bool>, body: nat, odd: bv32, even: bv32, rest: bv32)
    requires |ring| > 0
    requires DataBits(ring, body) == odd && DataBits(ring, body + 32) == even
    requires Xor(MaskedLongs(ring, body + 64, 8)) == rest
    ensures HeaderChecksum(ring, body) == odd ^ even ^ rest
  {
  }

  lemma HeaderSums(data: seq<bool>, quiet: set<nat>, q: nat, spec: SectorSpec)
    requires |data| > 0 && Stands(data, q, spec)
    ensures HeaderChecksum(MfmRing(data, quiet), 2 * q + 32) == Spread(HeaderSum(spec))
  {
    var ring, body := MfmRing(data, quiet), 2 * q + 32;
    var odd, even, rest := Spread(OddInfo(spec)), Spread(EvenInfo(spec)), Spread(XorGroups(spec.osLabel));
    PartsStand(data, q, spec);
    LongHolds(data, quiet, q + 16, body, OddInfo(spec));
    LongHolds(data, quiet, q + 32, body + 32, EvenInfo(spec));
    LabelSum(data, quiet, q, spec);
    ChecksumIs(ring, body, odd, even, rest);
    HeaderAddsUp(odd, even, rest, spec);
  }

  lemma HeaderCheckStands(data: seq<bool>, quiet: set<nat>, q: nat, spec: SectorSpec)
    requires |data| > 0 && Stands(data, q, spec)
    ensures var ring, body := MfmRing(data, quiet), 2 * q + 32;
      Deinterleave(LongAt(ring, body + 320), LongAt(ring, body + 352)) == Spread(HeaderSum(spec))
  {
    var ring, body := MfmRing(data, quiet), 2 * q + 32;
    PartsStand(data, q, spec);
    LongHolds(data, quiet, q + 176, body + 320, Zeros16());
    LongHolds(data, quiet, q + 192, body + 352, HeaderSum(spec));
    CheckIs(LongAt(ring, body + 320), LongAt(ring, body + 352), HeaderSum(spec));
  }

  lemma HeaderChecks(data: seq<bool>, quiet: set<nat>, q: nat, spec: SectorSpec)
    requires |data| > 0 && Stands(data, q, spec)
    ensures var ring, body := MfmRing(data, quiet), 2 * q + 32;
      HeaderChecksum(ring, body) == Deinterleave(LongAt(ring, body + 320), LongAt(ring, body + 352))
  {
    HeaderSums(data, quiet, q, spec);
    HeaderCheckStands(data, quiet, q, spec);
  }

  lemma DataSum(data: seq<bool>, quiet: set<nat>, q: nat, spec: SectorSpec)
    requires |data| > 0 && Stands(data, q, spec)
    ensures Xor(MaskedLongs(MfmRing(data, quiet), 2 * q + 32 + 448, 256)) == Spread(XorGroups(spec.data))
  {
    PartsStand(data, q, spec);
    XorOfLongs(data, quiet, q + 240, 256);
    assert 2 * q + 32 + 448 == 2 * (q + 240) && 16 * 256 == DATA_BITS;
  }

  lemma DataCheckStands(data: seq<bool>, quiet: set<nat>, q: nat, spec: SectorSpec)
    requires |data| > 0 && Stands(data, q, spec)
    ensures var ring, body := MfmRing(data, quiet), 2 * q + 32;
      Deinterleave(LongAt(ring, body + 384), LongAt(ring, body + 416)) == Spread(XorGroups(spec.data))
  {
    var ring, body := MfmRing(data, quiet), 2 * q + 32;
    PartsStand(data, q, spec);
    LongHolds(data, quiet, q + 208, body + 384, Zeros16());
    LongHolds(data, quiet, q + 224, body + 416, XorGroups(spec.data));
    CheckIs(LongAt(ring, body + 384), LongAt(ring, body + 416), XorGroups(spec.data));
  }

  lemma DataChecks(data: seq<bool>, quiet: set<nat>, q: nat, spec: SectorSpec)
    requires |data| > 0 && Stands(data, q, spec)
    ensures DataVerifies(MfmRing(data, quiet), 2 * q + 32)
  {
    DataSum(data, quiet, q, spec);
    DataCheckStands(data, quiet, q, spec);
  }

  /** A written sector reads as itself, header and data intact; one of another format,
      or numbered beyond any track, as nothing, good as its checksums are. */
  lemma SectorReads(data: seq<bool>, quiet: set<nat>, q: nat, spec: SectorSpec)
    requires |data| > 0 && Stands(data, q, spec)
    ensures SectorAt(MfmRing(data, quiet), 2 * q) == if Amiga(spec) then Header(spec.number as nat, true) else NoHeader
  {
    var ring, body := MfmRing(data, quiet), 2 * q + 32;
    InfoStands(data, quiet, q, spec);
    HeaderChecks(data, quiet, q, spec);
    DataChecks(data, quiet, q, spec);
    NamedSector(Deinterleave(LongAt(ring, body), LongAt(ring, body + 32)), spec);
  }

  /** What a header that adds up says of its sector. */
  lemma NamedSector(info: bv32, spec: SectorSpec)
    requires Writable(spec) && Names(info, spec.format, spec.number)
    ensures SectorNumber(info) == spec.number as nat
    ensures Amiga(spec) <==> info >> 24 == 0xff && SectorNumber(info) < HD_SECTORS
  {
  }

  // ----- a track -----

  /** A ring of data bits with sectors standing where the map says, and anything at
      all in between. */
  predicate Track(data: seq<bool>, sectors: map<nat, SectorSpec>) {
    |data| >= 32 && forall q :: q in sectors ==> q < |data| && Stands(data, q, sectors[q]) && Amiga(sectors[q])
  }

  function MarksOf(m: nat, sectors: map<nat, SectorSpec>): (marks: set<nat>)
    requires m > 0
  {
    sectors.Keys + set q | q in sectors :: (q + 8) % m
  }

  /** The cells of a track: MFM, with the clocks of the sectors' marks left out. */
  function TrackRing(data: seq<bool>, sectors: map<nat, SectorSpec>): (ring: seq<bool>)
    requires |data| > 0
    ensures |ring| == 2 * |data|
  {
    MarkedRing(data, MarksOf(|data|, sectors))
  }

  lemma SectorBegins(data: seq<bool>, q: nat, spec: SectorSpec)
    requires |data| > 0 && Stands(data, q, spec) && Amiga(spec)
    ensures data[(q + 8) % |data|] && data[(q + 16) % |data|] && data[(q + 17) % |data|] && data[(q + 18) % |data|]
  {
    PartsStand(data, q, spec);
    assert Window(data, q + 8, 8)[0] == data[(q + 8) % |data|];
    assert Window(data, q + 16, 16)[0] == data[(q + 16) % |data|];
    assert Window(data, q + 16, 16)[1] == data[(q + 16 + 1) % |data|];
    assert Window(data, q + 16, 16)[2] == data[(q + 16 + 2) % |data|];
    assert OddInfo(spec)[0] && OddInfo(spec)[1] && OddInfo(spec)[2];
  }

  lemma SecondMark(data: seq<bool>, q: nat, spec: SectorSpec)
    requires |data| > 0 && Stands(data, q, spec) && Amiga(spec)
    ensures var r := (q + 8) % |data|;
      Window(data, r, 8) == MARK && data[(r + 8) % |data|]
  {
    PartsStand(data, q, spec);
    SectorBegins(data, q, spec);
    WrappedWindow(data, q + 8, 8);
    AddModMod(q + 8, 8, |data|);
  }

  lemma TrackIsMarked(data: seq<bool>, sectors: map<nat, SectorSpec>)
    requires Track(data, sectors)
    ensures Marked(data, MarksOf(|data|, sectors))
  {
    forall r | r in MarksOf(|data|, sectors)
      ensures r < |data| && Window(data, r, 8) == MARK && data[(r + 8) % |data|]
    {
      if r in sectors {
        PartsStand(data, r, sectors[r]);
        SectorBegins(data, r, sectors[r]);
      } else {
        var q :| q in sectors && r == (q + 8) % |data|;
        SecondMark(data, q, sectors[q]);
      }
    }
  }

  /** No third mark follows the two of a sector. */
  lemma NoThirdMark(data: seq<bool>, sectors: map<nat, SectorSpec>, q: nat)
    requires Track(data, sectors) && q in sectors
    ensures (q + 16) % |data| !in MarksOf(|data|, sectors)
  {
    TrackIsMarked(data, sectors);
    SectorBegins(data, q, sectors[q]);
    NoMarkAtOnes(data, MarksOf(|data|, sectors), q + 16);
  }

  lemma NoMarkAtOnes(data: seq<bool>, marks: set<nat>, k: nat)
    requires Marked(data, marks) && data[(k + 1) % |data|]
    ensures k % |data| !in marks
  {
    AddModMod(k, 1, |data|);
    if k % |data| in marks {
      MarkBit(data, marks, k % |data|, 1);
    }
  }

  lemma StepBack(m: nat, k: nat)
    requires k < m && m >= 8
    ensures ((k + m - 8) % m + 8) % m == k
  {
    AddModMod(k + m - 8, 8, m);
    AddPeriod(k, m);
    ModUnique(k, 0, k, m);
  }

  lemma StepForthAndBack(m: nat, c: nat)
    requires c < m && m >= 8
    ensures ((c + 8) % m + m - 8) % m == c
  {
    AddModMod(c + 8, m - 8, m);
    AddPeriod(c, m);
    ModUnique(c, 0, c, m);
    assert (c + 8) % m + (m - 8) == (c + 8) % m + m - 8;
  }

  /** None comes before them either. */
  lemma NoMarkBefore(data: seq<bool>, sectors: map<nat, SectorSpec>, q: nat)
    requires Track(data, sectors) && q in sectors
    ensures (q + |data| - 8) % |data| !in MarksOf(|data|, sectors)
  {
    var m, marks := |data|, MarksOf(|data|, sectors);
    var b := (q + m - 8) % m;
    StepBack(m, q);
    if b in sectors {
      NoThirdMark(data, sectors, b);
      AddModMod(b + 8, 8, m);
    } else if b in marks {
      var r :| r in sectors && b == (r + 8) % m;
      NoThirdMark(data, sectors, r);
      AddModMod(r + 8, 8, m);
    }
  }

  /** Before a mark at which no sector begins, there is one at which one does. */
  lemma SecondHasFirst(data: seq<bool>, sectors: map<nat, SectorSpec>, k: nat)
    requires Track(data, sectors) && k in MarksOf(|data|, sectors) && k !in sectors
    ensures (k + |data| - 8) % |data| in MarksOf(|data|, sectors)
  {
    var q :| q in sectors && k == (q + 8) % |data|;
    StepForthAndBack(|data|, q);
  }

  lemma Neighbours(m: nat, k: nat)
    requires m >= 8
    ensures (2 * k + 16) % (2 * m) == 2 * ((k + 8) % m)
    ensures (2 * k + 2 * m - 16) % (2 * m) == 2 * ((k + m - 8) % m)
  {
    EvenMod(k + 8, m);
    EvenMod(k + m - 8, m);
  }

  /** A run of sync words begins at a mark with a mark behind it and none before. */
  lemma StartsAmongMarks(data: seq<bool>, marks: set<nat>, k: nat)
    requires Marked(data, marks) && |data| >= 32 && k < |data|
    ensures StartsSector(MarkedRing(data, marks), 2 * k)
         <==> k in marks && (k + 8) % |data| in marks && (k + |data| - 8) % |data| !in marks
  {
    var m := |data|;
    Neighbours(m, k);
    SyncsAreTheMarks(data, marks, 2 * k);
    SyncsAreTheMarks(data, marks, 2 * ((k + 8) % m));
    SyncsAreTheMarks(data, marks, 2 * ((k + m - 8) % m));
  }

  /** Sectors begin exactly where they were written. */
  lemma StartsAreTheSectors(data: seq<bool>, sectors: map<nat, SectorSpec>, p: nat)
    requires Track(data, sectors) && p < 2 * |data|
    ensures StartsSector(TrackRing(data, sectors), p) <==> p % 2 == 0 && p / 2 in sectors
  {
    var marks, k := MarksOf(|data|, sectors), p / 2;
    TrackIsMarked(data, sectors);
    if p % 2 == 1 {
      SyncsAreTheMarks(data, marks, p);
    } else {
      assert p == 2 * k;
      StartsAmongMarks(data, marks, k);
      if k in sectors {
        NoMarkBefore(data, sectors, k);
      } else if k in marks {
        SecondHasFirst(data, sectors, k);
      }
    }
  }

  // ----- what the scan makes of it -----

  /** The sector written at a cell of the ring, if one begins there. */
  function SectorFrom(sectors: map<nat, SectorSpec>, p: nat): Sector {
    if p % 2 == 0 && p / 2 in sectors then Header(sectors[p / 2].number as nat, true) else NoHeader
  }

  lemma MarkOfTrack(data: seq<bool>, sectors: map<nat, SectorSpec>, p: nat)
    requires Track(data, sectors) && p < 2 * |data|
    ensures Marks(TrackRing(data, sectors), 2 * |data|)[p] == SectorFrom(sectors, p)
  {
    var ring := TrackRing(data, sectors);
    MarksAt(ring, |ring|, p);
    StartsAreTheSectors(data, sectors, p);
    if p % 2 == 0 && p / 2 in sectors {
      assert p == 2 * (p / 2);
      SectorReads(data, Quiet(|data|, MarksOf(|data|, sectors)), p / 2, sectors[p / 2]);
    }
  }

  function Numbers(sectors: map<nat, SectorSpec>): (numbers: set<nat>) {
    set q | q in sectors :: sectors[q].number as nat
  }

  function Positions(starts: set<nat>): (cells: set<nat>) {
    set q | q in starts :: 2 * q
  }

  lemma GoodAreWritten(marks: seq<Sector>, sectors: map<nat, SectorSpec>)
    requires forall q :: q in sectors ==> 2 * q < |marks|
    requires forall p: nat :: p < |marks| ==> marks[p] == SectorFrom(sectors, p)
    ensures GoodSectors(marks) == Numbers(sectors)
  {
    forall number | number in Numbers(sectors)
      ensures number in GoodSectors(marks)
    {
      var q :| q in sectors && sectors[q].number as nat == number;
      assert marks[2 * q] == SectorFrom(sectors, 2 * q);
    }
    forall number | number in GoodSectors(marks)
      ensures number in Numbers(sectors)
    {
      var p: nat :| p < |marks| && marks[p].Header? && marks[p].intact && marks[p].number == number;
      assert p / 2 in sectors && sectors[p / 2].number as nat == number;
    }
  }

  lemma HeadersAreWritten(marks: seq<Sector>, sectors: map<nat, SectorSpec>)
    requires forall q :: q in sectors ==> 2 * q < |marks|
    requires forall p: nat :: p < |marks| ==> marks[p] == SectorFrom(sectors, p)
    ensures Headers(marks) == Positions(sectors.Keys)
  {
    forall p | p in Headers(marks)
      ensures p in Positions(sectors.Keys)
    {
      assert p == 2 * (p / 2) && p / 2 in sectors;
    }
    forall p | p in Positions(sectors.Keys)
      ensures p in Headers(marks)
    {
      assert marks[p] == SectorFrom(sectors, p);
    }
  }

  lemma {:induction false} PositionsCount(starts: set<nat>)
    ensures |Positions(starts)| == |starts|
    decreases |starts|
  {
    if starts == {} {
      assert Positions(starts) == {};
    } else {
      var q :| q in starts;
      PositionsCount(starts - {q});
      forall p | p in Positions(starts)
        ensures p in Positions(starts - {q}) + {2 * q}
      {
        var r :| r in starts && p == 2 * r;
        assert r == q || r in starts - {q};
      }
      assert Positions(starts) == Positions(starts - {q}) + {2 * q};
    }
  }

  /** The scan finds the sectors that were written, where they were, all good. */
  lemma ScanFindsTheSectors(data: seq<bool>, sectors: map<nat, SectorSpec>)
    requires Track(data, sectors)
    ensures var marks := Marks(TrackRing(data, sectors), 2 * |data|);
      GoodSectors(marks) == Numbers(sectors) && Headers(marks) == Positions(sectors.Keys)
  {
    var marks := Marks(TrackRing(data, sectors), 2 * |data|);
    forall p: nat | p < |marks|
      ensures marks[p] == SectorFrom(sectors, p)
    {
      MarkOfTrack(data, sectors, p);
    }
    GoodAreWritten(marks, sectors);
    HeadersAreWritten(marks, sectors);
  }

  /** The sectors of a full track: 22 of more than 150000 cells, and otherwise 11. */
  function FullTrack(cells: nat): (sectors: nat) {
    if cells > 150_000 then 22 else 11
  }

  /** What a number of headers and of distinct good sectors deserve: clean if all are
      good, damaged if at most one header of a full track is missing, and otherwise
      nothing that is known. */
  predicate Deserved(verdict: RevolutionScan, full: nat, headers: nat, good: nat) {
    && (verdict == CleanAmigaDos(full) <==> good == full)
    && (verdict == DamagedAmigaDos(good, full) <==> good != full && headers >= full - 1)
    && (verdict == Unrecognised <==> good != full && headers < full - 1)
  }

  /** The verdict on any written track, whatever its data, its gaps and the order
      of its sectors: it is clean exactly when it holds the expected number of
      distinct sectors. */
  lemma WrittenTrackScans(data: seq<bool>, sectors: map<nat, SectorSpec>)
    requires Track(data, sectors)
    ensures Deserved(ScanRing(TrackRing(data, sectors)), FullTrack(2 * |data|), |sectors|, |Numbers(sectors)|)
  {
    ScanFindsTheSectors(data, sectors);
    PositionsCount(sectors.Keys);
    assert |sectors| == |sectors.Keys|;
  }

  function NumberAt(sectors: map<nat, SectorSpec>, q: nat): nat {
    if q in sectors then sectors[q].number as nat else 0
  }

  lemma {:induction false} DistinctNumbers(sectors: map<nat, SectorSpec>)
    requires forall q, r :: q in sectors && r in sectors && NumberAt(sectors, q) == NumberAt(sectors, r) ==> q == r
    ensures |Numbers(sectors)| == |sectors|
    decreases |sectors|
  {
    if sectors == map[] {
      assert Numbers(sectors) == {};
    } else {
      var q :| q in sectors;
      var rest := sectors - {q};
      assert rest.Keys == sectors.Keys - {q} && |sectors| == |sectors.Keys| && |rest| == |rest.Keys|;
      forall r, t | r in rest && t in rest && NumberAt(rest, r) == NumberAt(rest, t)
        ensures r == t
      {
        assert NumberAt(sectors, r) == NumberAt(sectors, t);
      }
      DistinctNumbers(rest);
      NumbersWithout(sectors, q);
      forall r | r in rest
        ensures rest[r].number as nat != NumberAt(sectors, q)
      {
        assert rest[r].number as nat == NumberAt(sectors, r);
      }
    }
  }

  lemma NumbersWithout(sectors: map<nat, SectorSpec>, q: nat)
    requires q in sectors
    ensures Numbers(sectors) == Numbers(sectors - {q}) + {NumberAt(sectors, q)}
  {
    var rest := sectors - {q};
    forall number | number in Numbers(sectors)
      ensures number in Numbers(rest) + {NumberAt(sectors, q)}
    {
      var r :| r in sectors && sectors[r].number as nat == number;
      if r != q {
        assert r in rest && rest[r] == sectors[r];
      }
    }
  }

  /** A complete set of distinct sectors, whatever their numbers, is a clean track. */
  lemma DistinctSectorsAreClean(data: seq<bool>, sectors: map<nat, SectorSpec>)
    requires Track(data, sectors)
    requires |sectors| == FullTrack(2 * |data|)
    requires forall q, r :: q in sectors && r in sectors && NumberAt(sectors, q) == NumberAt(sectors, r) ==> q == r
    ensures ScanRing(TrackRing(data, sectors)) == CleanAmigaDos(|sectors|)
  {
    WrittenTrackScans(data, sectors);
    DistinctNumbers(sectors);
  }

  // ----- sectors one after another -----

  predicate AllWritable(specs: seq<SectorSpec>) {
    forall i :: 0 <= i < |specs| ==> Writable(specs[i]) && Amiga(specs[i])
  }

  function Sequence(specs: seq<SectorSpec>): (data: seq<bool>)
    requires AllWritable(specs)
    ensures |data| == |specs| * SECTOR_BITS
  {
    if specs == [] then [] else Sequence(specs[..|specs| - 1]) + SectorBits(specs[|specs| - 1])
  }

  /** Where those sectors stand. */
  function Laid(specs: seq<SectorSpec>): (sectors: map<nat, SectorSpec>) {
    if specs == [] then map[]
    else Laid(specs[..|specs| - 1])[(|specs| - 1) * SECTOR_BITS := specs[|specs| - 1]]
  }

  lemma {:induction false} LaidAt(specs: seq<SectorSpec>, q: nat)
    requires q in Laid(specs)
    ensures exists i :: 0 <= i < |specs| && q == i * SECTOR_BITS && Laid(specs)[q] == specs[i]
  {
    var last := |specs| - 1;
    if q == last * SECTOR_BITS {
      assert Laid(specs)[q] == specs[last];
    } else {
      LaidAt(specs[..last], q);
      var i :| 0 <= i < last && q == i * SECTOR_BITS && Laid(specs[..last])[q] == specs[..last][i];
      assert Laid(specs)[q] == specs[i];
    }
  }

  lemma {:induction false} LaidCount(specs: seq<SectorSpec>)
    ensures |Laid(specs)| == |specs|
  {
    if specs != [] {
      var front := specs[..|specs| - 1];
      LaidCount(front);
      if |front| * SECTOR_BITS in Laid(front) {
        LaidAt(front, |front| * SECTOR_BITS);
      }
      assert Laid(specs).Keys == Laid(front).Keys + {|front| * SECTOR_BITS};
      assert |Laid(specs)| == |Laid(specs).Keys| && |Laid(front)| == |Laid(front).Keys|;
    }
  }

  lemma WindowIsSlice(ring: seq<bool>, q: nat, len: nat)
    requires |ring| > 0 && q + len <= |ring|
    ensures Window(ring, q, len) == ring[q..q + len]
  {
    forall i: nat | i < len
      ensures Window(ring, q, len)[i] == ring[q + i]
    {
      ModUnique(q + i, 0, q + i, |ring|);
    }
  }

  /** Sectors laid one after another, with anything behind them, stand where laid. */
  lemma {:induction false} LaidStand(specs: seq<SectorSpec>, rest: seq<bool>, q: nat)
    requires AllWritable(specs) && q in Laid(specs)
    ensures var data := Sequence(specs) + rest;
      |data| > 0 && q < |data| && Stands(data, q, Laid(specs)[q]) && Amiga(Laid(specs)[q])
  {
    var last := |specs| - 1;
    var front := specs[..last];
    var data, code := Sequence(specs) + rest, SectorBits(specs[last]);
    assert data == Sequence(front) + (code + rest);
    if q == last * SECTOR_BITS {
      WindowIsSlice(data, q, SECTOR_BITS);
      assert data[q..q + SECTOR_BITS] == code;
    } else {
      LaidStand(front, code + rest, q);
    }
  }

  lemma LaidIsTrack(specs: seq<SectorSpec>, gap: seq<bool>)
    requires AllWritable(specs) && specs != []
    ensures Track(Sequence(specs) + gap, Laid(specs))
  {
    forall q | q in Laid(specs)
      ensures q < |Sequence(specs) + gap| && Stands(Sequence(specs) + gap, q, Laid(specs)[q]) && Amiga(Laid(specs)[q])
    {
      LaidStand(specs, gap, q);
    }
  }

  /** Any complete list of distinct sectors, laid out in any order with any gap,
      makes a clean track of exactly those sectors. */
  lemma CompleteListIsClean(specs: seq<SectorSpec>, gap: seq<bool>)
    requires AllWritable(specs) && specs != []
    requires |specs| == FullTrack(2 * |Sequence(specs) + gap|)
    requires forall i, j :: 0 <= i < j < |specs| ==> specs[i].number as nat != specs[j].number as nat
    ensures var ring := TrackRing(Sequence(specs) + gap, Laid(specs));
      && ScanOf(Pack(ring), |ring|) == CleanAmigaDos(|specs|)
      && forall number :: number in GoodSectors(Marks(ring, |ring|)) ==>
           exists i :: 0 <= i < |specs| && specs[i].number as nat == number
  {
    var data, sectors := Sequence(specs) + gap, Laid(specs);
    var ring := TrackRing(data, sectors);
    LaidIsTrack(specs, gap);
    LaidCount(specs);
    forall q, r | q in sectors && r in sectors && NumberAt(sectors, q) == NumberAt(sectors, r)
      ensures q == r
    {
      LaidAt(specs, q);
      LaidAt(specs, r);
    }
    DistinctSectorsAreClean(data, sectors);
    ScanFindsTheSectors(data, sectors);
    UnpackPack(ring);
    forall number | number in Numbers(sectors)
      ensures exists i :: 0 <= i < |specs| && specs[i].number as nat == number
    {
      var q :| q in sectors && sectors[q].number as nat == number;
      LaidAt(specs, q);
    }
  }

  // ----- a clean track without the sectors of its density -----

  function Blank(number: bv32): SectorSpec {
    SectorSpec(0xff, 40, number, 1, seq(LABEL_BITS, _ => false), seq(DATA_BITS, _ => false))
  }

  const MISNUMBERED: seq<SectorSpec> :=
    [Blank(11), Blank(12), Blank(13), Blank(14), Blank(15), Blank(16), Blank(17), Blank(18), Blank(19), Blank(20), Blank(21)]

  lemma MisnumberedAre(i: nat)
    requires i < 11
    ensures MISNUMBERED[i].number as nat == i + 11 && Writable(MISNUMBERED[i]) && Amiga(MISNUMBERED[i])
  {
  }

  /** A double-density track that scans clean although it holds none of the sectors
      0 to 10. */
  lemma MisnumberedIsClean() returns (words: seq<bv16>, bitLen: nat)
    ensures bitLen <= |words| * 16 && 64 <= bitLen <= 150_000
    ensures ScanOf(words, bitLen) == CleanAmigaDos(11)
    ensures forall number :: number in GoodSectors(Marks(Unpack(words, bitLen), bitLen)) ==> number > 10
  {
    forall i: nat | i < 11
      ensures MISNUMBERED[i].number as nat == i + 11 && Writable(MISNUMBERED[i]) && Amiga(MISNUMBERED[i])
    {
      MisnumberedAre(i);
    }
    var ring := TrackRing(Sequence(MISNUMBERED) + [], Laid(MISNUMBERED));
    words, bitLen := Pack(ring), |ring|;
    CompleteListIsClean(MISNUMBERED, []);
    UnpackPack(ring);
  }

  lemma {:induction false} BelowCount(s: set<nat>, n: nat)
    requires forall x :: x in s ==> x < n
    ensures |s| <= n && (|s| == n ==> forall x: nat :: x < n ==> x in s)
    decreases n
  {
    if n == 0 {
      assert s == {};
    } else {
      BelowCount(s - {n - 1}, n - 1);
      if n - 1 in s {
        assert |s| == |s - {n - 1}| + 1;
        forall x: nat | x < n && |s| == n
          ensures x in s
        {
          assert x == n - 1 || x in s - {n - 1};
        }
      } else {
        assert s == s - {n - 1};
      }
    }
  }

  /** What a clean verdict is worth. At high density it means sectors 0 to 21, all
      of them. At double density it means sectors 0 to 10 exactly when no good
      sector is numbered 11 or above. */
  lemma CleanIsCompleteExactly(ring: seq<bool>)
    requires |ring| >= 64 && ScanRing(ring).CleanAmigaDos?
    ensures var good := GoodSectors(Marks(ring, |ring|));
      && (|ring| > 150_000 ==> forall number: nat :: number in good <==> number < 22)
      && (|ring| <= 150_000 ==>
            ((forall number: nat :: number in good <==> number < 11)
             <==> (forall number: nat :: number in good ==> number < 11)))
  {
    var good := GoodSectors(Marks(ring, |ring|));
    OnlySyncsStart(ring);
    BelowCount(good, 22);
    if forall number: nat :: number in good ==> number < 11 {
      BelowCount(good, 11);
    }
  }
}
