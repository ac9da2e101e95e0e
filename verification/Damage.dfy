/** What damage to a written track does to the scan: no change confined to one long of
    a sector's header or data goes unnoticed. */
module Damage {
  import opened Common
  import opened TrackBits
  import opened Scan
  import opened Mfm
  import opened AmigaTrack

  // ----- one long of a sector -----

  /** The cells of a sector from its first mark on. */
  const SECTOR_CELLS: nat := 8_672

  /** The cell at an offset past a position of a ring. */
  predicate CellPast(ring: seq<bool>, position: nat, offset: nat)
    requires |ring| > 0
  {
    ring[(position + offset) % |ring|]
  }

  /** The rings read alike at every offset of a sector but those of the long at `at`. */
  predicate AlikeBut(one: seq<bool>, other: seq<bool>, sync: nat, at: nat)
    requires |one| == |other| > 0
  {
    forall offset: nat | offset < SECTOR_CELLS && !(at <= offset < at + 32) ::
      CellPast(one, sync, offset) == CellPast(other, sync, offset)
  }

  /** The data bits of the `k`th long after the marks of a sector are not the same. */
  predicate LongDiffers(one: seq<bool>, other: seq<bool>, sync: nat, k: nat)
    requires |one| > 0 && |other| > 0
  {
    DataBits(one, sync + 32 + 32 * k) != DataBits(other, sync + 32 + 32 * k)
  }

  lemma SameLong(one: seq<bool>, other: seq<bool>, sync: nat, at: nat, from: nat)
    requires |one| == |other| > 0 && AlikeBut(one, other, sync, at)
    requires from + 32 <= SECTOR_CELLS && (from + 32 <= at || at + 32 <= from)
    ensures LongAt(one, sync + from) == LongAt(other, sync + from)
  {
    var here, there := Window(one, sync + from, 32), Window(other, sync + from, 32);
    forall i: nat | i < 32
      ensures here[i] == there[i]
    {
      assert sync + from + i == sync + (from + i);
      assert CellPast(one, sync, from + i) == CellPast(other, sync, from + i);
    }
    assert here == there;
  }

  lemma SameLongs(one: seq<bool>, other: seq<bool>, sync: nat, at: nat, from: nat, count: nat)
    requires |one| == |other| > 0 && AlikeBut(one, other, sync, at)
    requires from + 32 * count <= SECTOR_CELLS && (from + 32 * count <= at || at + 32 <= from)
    ensures MaskedLongs(one, sync + from, count) == MaskedLongs(other, sync + from, count)
  {
    var here, there := MaskedLongs(one, sync + from, count), MaskedLongs(other, sync + from, count);
    forall i: nat | i < count
      ensures here[i] == there[i]
    {
      LongsAt(one, sync + from, count, i);
      LongsAt(other, sync + from, count, i);
      SameLong(one, other, sync, at, from + i * 32);
      assert sync + from + i * 32 == sync + (from + i * 32);
    }
    assert here == there;
  }

  lemma XorCancels(x: bv32, y: bv32, c: bv32)
    ensures x ^ c == y ^ c <==> x == y
    ensures c ^ x == c ^ y <==> x == y
  {
  }

  /** Longs that differ in exactly one place have different checksums. */
  lemma {:induction false} XorDiffers(a: seq<bv32>, b: seq<bv32>, k: nat)
    requires k < |a| == |b|
    requires forall i: nat | i < |a| && i != k :: a[i] == b[i]
    requires a[k] != b[k]
    ensures Xor(a) != Xor(b)
    decreases |a|
  {
    var last := |a| - 1;
    if k == last {
      assert a[..last] == b[..last];
      XorCancels(a[last], b[last], Xor(a[..last]));
    } else {
      XorDiffers(a[..last], b[..last], k);
      XorCancels(Xor(a[..last]), Xor(b[..last]), a[last]);
    }
  }

  /** Damage to the `k`th of several longs spoils their sum. */
  lemma SumDiffers(one: seq<bool>, other: seq<bool>, sync: nat, from: nat, count: nat, k: nat)
    requires |one| == |other| > 0 && k < count && from + 32 * count <= SECTOR_CELLS
    requires AlikeBut(one, other, sync, from + 32 * k)
    requires DataBits(one, sync + from + 32 * k) != DataBits(other, sync + from + 32 * k)
    ensures Xor(MaskedLongs(one, sync + from, count)) != Xor(MaskedLongs(other, sync + from, count))
  {
    var here, there := MaskedLongs(one, sync + from, count), MaskedLongs(other, sync + from, count);
    forall i: nat | i < count
      ensures (here[i] == there[i]) <==> i != k
    {
      LongsAt(one, sync + from, count, i);
      LongsAt(other, sync + from, count, i);
      assert sync + from + i * 32 == sync + (from + i * 32);
      if i != k {
        SameLong(one, other, sync, from + 32 * k, from + i * 32);
      }
    }
    XorDiffers(here, there, k);
  }

  /** What is stored in two longs is not the same if the data bits of either differ. */
  lemma StoredDiffers(a: bv32, b: bv32, c: bv32, d: bv32)
    ensures Deinterleave(a, b) == Deinterleave(c, d) <==> a & MASK == c & MASK && b & MASK == d & MASK
  {
    HalvesStored(a, b);
    HalvesStored(c, d);
    if a & MASK == c & MASK && b & MASK == d & MASK {
      SameStored(a & MASK, b & MASK, a, b);
      SameStored(a & MASK, b & MASK, c, d);
    }
  }

  lemma HalvesStored(odd: bv32, even: bv32)
    ensures (Deinterleave(odd, even) >> 1) & MASK == odd & MASK
    ensures Deinterleave(odd, even) & MASK == even & MASK
  {
  }

  lemma SameStored(x: bv32, y: bv32, odd: bv32, even: bv32)
    requires odd & MASK == x && even & MASK == y
    ensures Deinterleave(odd, even) == Rejoined(x, y)
  {
  }

  /** A stored checksum is spoilt by damage to either of its longs, and by no other. */
  lemma StoredSpoilt(one: seq<bool>, other: seq<bool>, sync: nat, at: nat, from: nat)
    requires |one| == |other| > 0 && AlikeBut(one, other, sync, at)
    requires from + 64 <= SECTOR_CELLS && (at == from || at == from + 32 || at + 32 <= from || from + 64 <= at)
    requires DataBits(one, sync + at) != DataBits(other, sync + at)
    ensures (Deinterleave(LongAt(one, sync + from), LongAt(one, sync + from + 32))
             == Deinterleave(LongAt(other, sync + from), LongAt(other, sync + from + 32)))
         <==> at != from && at != from + 32
  {
    StoredDiffers(LongAt(one, sync + from), LongAt(one, sync + from + 32),
                  LongAt(other, sync + from), LongAt(other, sync + from + 32));
    if at != from {
      SameLong(one, other, sync, at, from);
    }
    if at != from + 32 {
      SameLong(one, other, sync, at, from + 32);
    }
    assert sync + from + 32 == sync + (from + 32);
  }

  lemma HeaderSumIs(ring: seq<bool>, body: nat)
    requires |ring| > 0
    ensures HeaderChecksum(ring, body) == Xor(MaskedLongs(ring, body, 2)) ^ Xor(MaskedLongs(ring, body + 64, 8))
  {
    var two := MaskedLongs(ring, body, 2);
    LongsAt(ring, body, 2, 0);
    LongsAt(ring, body, 2, 1);
    assert two == [DataBits(ring, body), DataBits(ring, body + 32)];
    SumOfTwo(DataBits(ring, body), DataBits(ring, body + 32));
  }

  lemma SumOfTwo(a: bv32, b: bv32)
    ensures Xor([a, b]) == a ^ b
  {
    XorPush([], a);
    XorPush([a], b);
    assert [] + [a] == [a] && [a] + [b] == [a, b];
    NothingXors(a);
  }

  lemma NothingXors(a: bv32)
    ensures 0 ^ a == a
  {
  }

  /** Of two terms of a sum only one is touched. */
  lemma OneTerm(a: bv32, b: bv32, c: bv32, d: bv32)
    requires a == c || b == d
    ensures a ^ b == c ^ d <==> a == c && b == d
  {
    if a == c {
      XorCancels(b, d, a);
    } else {
      XorCancels(a, c, b);
    }
  }

  /** The two terms of the sum over a header: of its info, and of its label. */
  lemma TermsSpoilt(one: seq<bool>, other: seq<bool>, sync: nat, h: nat)
    requires |one| == |other| > 0 && h < 12
    requires AlikeBut(one, other, sync, 32 + 32 * h)
    requires DataBits(one, sync + 32 + 32 * h) != DataBits(other, sync + 32 + 32 * h)
    ensures Xor(MaskedLongs(one, sync + 32, 2)) == Xor(MaskedLongs(other, sync + 32, 2)) <==> h >= 2
    ensures Xor(MaskedLongs(one, sync + 96, 8)) == Xor(MaskedLongs(other, sync + 96, 8)) <==> h < 2 || h >= 10
  {
    var at := 32 + 32 * h;
    if h < 2 {
      SumDiffers(one, other, sync, 32, 2, h);
      SameLongs(one, other, sync, at, 96, 8);
    } else {
      SameLongs(one, other, sync, at, 32, 2);
      if h < 10 {
        LabelSpoilt(one, other, sync, h - 2);
      } else {
        SameLongs(one, other, sync, at, 96, 8);
      }
    }
  }

  lemma LabelSpoilt(one: seq<bool>, other: seq<bool>, sync: nat, k: nat)
    requires |one| == |other| > 0 && k < 8
    requires AlikeBut(one, other, sync, 32 + 32 * (k + 2))
    requires DataBits(one, sync + 32 + 32 * (k + 2)) != DataBits(other, sync + 32 + 32 * (k + 2))
    ensures Xor(MaskedLongs(one, sync + 96, 8)) != Xor(MaskedLongs(other, sync + 96, 8))
  {
    assert 96 + 32 * k == 32 + 32 * (k + 2) && sync + 96 + 32 * k == sync + 32 + 32 * (k + 2);
    SumDiffers(one, other, sync, 96, 8, k);
  }

  /** The sum over a header is spoilt by damage to one of the ten longs it is over. */
  lemma HeaderSumSpoilt(one: seq<bool>, other: seq<bool>, sync: nat, h: nat)
    requires |one| == |other| > 0 && h < 12
    requires AlikeBut(one, other, sync, 32 + 32 * h)
    requires DataBits(one, sync + 32 + 32 * h) != DataBits(other, sync + 32 + 32 * h)
    ensures HeaderChecksum(one, sync + 32) == HeaderChecksum(other, sync + 32) <==> h >= 10
  {
    HeaderSumIs(one, sync + 32);
    HeaderSumIs(other, sync + 32);
    TermsSpoilt(one, other, sync, h);
    assert sync + 96 == sync + 32 + 64;
    OneTerm(Xor(MaskedLongs(one, sync + 32, 2)), Xor(MaskedLongs(one, sync + 96, 8)),
            Xor(MaskedLongs(other, sync + 32, 2)), Xor(MaskedLongs(other, sync + 96, 8)));
  }

  /** Damage confined to one of the twelve longs of a header -- its info, its label or
      its checksum -- however many of its data bits it touches, leaves no header. */
  lemma HeaderDamageDetected(one: seq<bool>, other: seq<bool>, sync: nat, h: nat)
    requires |one| == |other| > 0 && h < 12
    requires AlikeBut(one, other, sync, 32 + 32 * h)
    requires DataBits(one, sync + 32 + 32 * h) != DataBits(other, sync + 32 + 32 * h)
    requires SectorAt(one, sync).Header?
    ensures SectorAt(other, sync) == NoHeader
  {
    HeaderSumSpoilt(one, other, sync, h);
    StoredSpoilt(one, other, sync, 32 + 32 * h, 352);
    assert sync + 32 + 320 == sync + 352 && sync + 32 + 352 == sync + 352 + 32;
  }

  lemma SameHeader(one: seq<bool>, other: seq<bool>, sync: nat, at: nat)
    requires |one| == |other| > 0 && AlikeBut(one, other, sync, at) && at >= 416
    ensures var body := sync + 32;
      && LongAt(one, body) == LongAt(other, body)
      && LongAt(one, body + 32) == LongAt(other, body + 32)
      && HeaderVerifies(one, body) == HeaderVerifies(other, body)
  {
    var body := sync + 32;
    SameLong(one, other, sync, at, 32);
    SameLong(one, other, sync, at, 64);
    SameLong(one, other, sync, at, 352);
    SameLong(one, other, sync, at, 384);
    SameLongs(one, other, sync, at, 96, 8);
    assert HeaderChecksum(one, body) == HeaderChecksum(other, body);
  }

  lemma DataSpoilt(one: seq<bool>, other: seq<bool>, sync: nat, k: nat)
    requires |one| == |other| > 0 && k < 258
    requires AlikeBut(one, other, sync, 416 + 32 * k)
    requires DataBits(one, sync + 416 + 32 * k) != DataBits(other, sync + 416 + 32 * k)
    requires DataVerifies(one, sync + 32)
    ensures !DataVerifies(other, sync + 32)
  {
    var at, body := 416 + 32 * k, sync + 32;
    StoredSpoilt(one, other, sync, at, 416);
    if k < 2 {
      SameLongs(one, other, sync, at, 480, 256);
    } else {
      assert 480 + 32 * (k - 2) == at;
      SumDiffers(one, other, sync, 480, 256, k - 2);
    }
    assert body + 448 == sync + 480 && body + 384 == sync + 416 && body + 416 == sync + 416 + 32;
  }

  /** Damage confined to one long of a sector's data, or of the checksum over it, turns
      an intact sector into a damaged one of the same number. */
  lemma DataDamageDetected(one: seq<bool>, other: seq<bool>, sync: nat, k: nat, number: nat)
    requires |one| == |other| > 0 && k < 258
    requires AlikeBut(one, other, sync, 416 + 32 * k)
    requires DataBits(one, sync + 416 + 32 * k) != DataBits(other, sync + 416 + 32 * k)
    requires SectorAt(one, sync) == Header(number, true)
    ensures SectorAt(other, sync) == Header(number, false)
  {
    SameHeader(one, other, sync, 416 + 32 * k);
    DataSpoilt(one, other, sync, k);
  }

  /** A sector all of whose cells are as they were reads as it did. */
  lemma UntouchedSector(one: seq<bool>, other: seq<bool>, sync: nat)
    requires |one| == |other| > 0 && AlikeBut(one, other, sync, SECTOR_CELLS)
    ensures SectorAt(one, sync) == SectorAt(other, sync)
  {
    SameHeader(one, other, sync, SECTOR_CELLS);
    SameLong(one, other, sync, SECTOR_CELLS, 416);
    SameLong(one, other, sync, SECTOR_CELLS, 448);
    SameLongs(one, other, sync, SECTOR_CELLS, 480, 256);
    assert sync + 32 + 448 == sync + 480 && sync + 32 + 384 == sync + 416 && sync + 32 + 416 == sync + 448;
    assert DataVerifies(one, sync + 32) == DataVerifies(other, sync + 32);
  }

  // ----- a damaged sector of a full track -----

  /** A complete list of distinct sectors, to be laid out with this gap behind it. */
  predicate FullList(specs: seq<SectorSpec>, gap: seq<bool>) {
    && AllWritable(specs) && specs != []
    && |specs| == FullTrack(2 * |Sequence(specs) + gap|)
    && forall i, j :: 0 <= i < j < |specs| ==> specs[i].number as nat != specs[j].number as nat
  }

  function LaidRing(specs: seq<SectorSpec>, gap: seq<bool>): (ring: seq<bool>)
    requires AllWritable(specs) && specs != []
    ensures |ring| == 2 * (|specs| * SECTOR_BITS + |gap|)
  {
    TrackRing(Sequence(specs) + gap, Laid(specs))
  }

  /** The rings differ in the 32 cells from `from` at most, and have the same sync words. */
  ghost predicate Scarred(ring: seq<bool>, other: seq<bool>, from: nat) {
    && |other| == |ring| >= 64
    && (forall c :: 0 <= c < |ring| && !(from <= c < from + 32) ==> ring[c] == other[c])
    && Syncs(other) == Syncs(ring)
  }

  lemma SyncsStart(ring: seq<bool>, other: seq<bool>, p: nat)
    requires |other| == |ring| >= 64 && Syncs(other) == Syncs(ring) && p < |ring|
    ensures StartsSector(other, p) == StartsSector(ring, p)
  {
    var n := |ring|;
    assert p in Syncs(ring) <==> SyncAt(ring, p);
    assert p in Syncs(other) <==> SyncAt(other, p);
    var after, before := (p + 16) % n, (p + n - 16) % n;
    assert after in Syncs(ring) <==> SyncAt(ring, after);
    assert after in Syncs(other) <==> SyncAt(other, after);
    assert before in Syncs(ring) <==> SyncAt(ring, before);
    assert before in Syncs(other) <==> SyncAt(other, before);
  }

  /** Where a long of the `i`th sector stands, as seen from the `j`th. */
  lemma SlotOffset(i: nat, j: nat, at: nat, offset: nat)
    requires 32 <= at && at + 32 <= SECTOR_CELLS && offset < SECTOR_CELLS
    ensures SECTOR_CELLS * i + at <= SECTOR_CELLS * j + offset < SECTOR_CELLS * i + at + 32
         <==> i == j && at <= offset < at + 32
  {
    if i < j {
      assert SECTOR_CELLS * j >= SECTOR_CELLS * (i + 1);
    } else if j < i {
      assert SECTOR_CELLS * i >= SECTOR_CELLS * (j + 1);
    }
  }

  lemma SlotFits(j: nat, n: nat, offset: nat)
    requires j < n && offset < SECTOR_CELLS
    ensures SECTOR_CELLS * j + offset < 2 * (n * SECTOR_BITS)
  {
    assert SECTOR_CELLS * (j + 1) <= SECTOR_CELLS * n;
    assert 2 * (n * SECTOR_BITS) == n * SECTOR_CELLS;
  }

  lemma ScarIsApart(specs: seq<SectorSpec>, gap: seq<bool>, other: seq<bool>, i: nat, j: nat, at: nat)
    requires AllWritable(specs) && specs != [] && i < |specs| && j < |specs|
    requires 32 <= at && at + 32 <= SECTOR_CELLS
    requires Scarred(LaidRing(specs, gap), other, SECTOR_CELLS * i + at)
    ensures AlikeBut(LaidRing(specs, gap), other, SECTOR_CELLS * j, if i == j then at else SECTOR_CELLS)
  {
    var ring := LaidRing(specs, gap);
    forall offset: nat | offset < SECTOR_CELLS && !(i == j && at <= offset < at + 32)
      ensures CellPast(ring, SECTOR_CELLS * j, offset) == CellPast(other, SECTOR_CELLS * j, offset)
    {
      SlotOffset(i, j, at, offset);
      SlotFits(j, |specs|, offset);
      ModUnique(SECTOR_CELLS * j + offset, 0, SECTOR_CELLS * j + offset, |ring|);
    }
  }

  /** Every sector but the scarred one is found as it was written. */
  lemma OtherMarks(specs: seq<SectorSpec>, gap: seq<bool>, other: seq<bool>, i: nat, scarred: nat, at: nat, p: nat)
    requires AllWritable(specs) && specs != [] && i < |specs| && scarred == SECTOR_CELLS * i
    requires 32 <= at && at + 32 <= SECTOR_CELLS
    requires Scarred(LaidRing(specs, gap), other, scarred + at)
    requires p < |other| && p != scarred
    ensures MarkAt(other, p) == SectorFrom(Laid(specs), p)
  {
    var data, ring := Sequence(specs) + gap, LaidRing(specs, gap);
    LaidIsTrack(specs, gap);
    MarkOfTrack(data, Laid(specs), p);
    MarksAt(ring, |ring|, p);
    SyncsStart(ring, other, p);
    StartsAreTheSectors(data, Laid(specs), p);
    if StartsSector(ring, p) {
      LaidAt(specs, p / 2);
      var j: nat :| j < |specs| && p / 2 == j * SECTOR_BITS && Laid(specs)[p / 2] == specs[j];
      assert p == SECTOR_CELLS * j;
      ScarIsApart(specs, gap, other, i, j, at);
      UntouchedSector(ring, other, p);
    }
  }

  lemma {:induction false} LaidHas(specs: seq<SectorSpec>, i: nat)
    requires i < |specs|
    ensures i * SECTOR_BITS in Laid(specs) && Laid(specs)[i * SECTOR_BITS] == specs[i]
  {
    if i < |specs| - 1 {
      LaidHas(specs[..|specs| - 1], i);
    }
  }

  lemma SectorOfTrack(data: seq<bool>, sectors: map<nat, SectorSpec>, q: nat)
    requires Track(data, sectors) && q in sectors
    ensures StartsSector(TrackRing(data, sectors), 2 * q)
    ensures SectorAt(TrackRing(data, sectors), 2 * q) == Header(sectors[q].number as nat, true)
  {
    assert 2 * q < 2 * |data| && 2 * q % 2 == 0 && 2 * q / 2 == q;
    StartsAreTheSectors(data, sectors, 2 * q);
    StandingSector(data, sectors, q);
  }

  lemma StandingSector(data: seq<bool>, sectors: map<nat, SectorSpec>, q: nat)
    requires Track(data, sectors) && q in sectors
    ensures SectorAt(TrackRing(data, sectors), 2 * q) == Header(sectors[q].number as nat, true)
  {
    SectorReads(data, Quiet(|data|, MarksOf(|data|, sectors)), q, sectors[q]);
  }

  /** The `i`th sector as it was laid out. */
  lemma LaidSector(specs: seq<SectorSpec>, gap: seq<bool>, i: nat)
    requires AllWritable(specs) && specs != [] && i < |specs|
    ensures SECTOR_CELLS * i < |LaidRing(specs, gap)|
    ensures StartsSector(LaidRing(specs, gap), SECTOR_CELLS * i)
    ensures SectorAt(LaidRing(specs, gap), SECTOR_CELLS * i) == Header(specs[i].number as nat, true)
  {
    var q := i * SECTOR_BITS;
    SlotFits(i, |specs|, 0);
    LaidIsTrack(specs, gap);
    LaidHas(specs, i);
    assert SECTOR_CELLS * i == 2 * q;
    SectorOfTrack(Sequence(specs) + gap, Laid(specs), q);
  }

  /** What is left of a sector after damage to its `k`th long: nothing, if that is one
      of its header, and otherwise its header with data that is not intact. */
  lemma LongDamaged(one: seq<bool>, other: seq<bool>, p: nat, k: nat, number: nat)
    requires |one| == |other| > 0 && k < 270
    requires AlikeBut(one, other, p, 32 + 32 * k)
    requires LongDiffers(one, other, p, k)
    requires SectorAt(one, p) == Header(number, true)
    ensures SectorAt(other, p) == if k < 12 then NoHeader else Header(number, false)
  {
    if k < 12 {
      HeaderDamageDetected(one, other, p, k);
    } else {
      assert 416 + 32 * (k - 12) == 32 + 32 * k;
      assert p + 416 + 32 * (k - 12) == p + 32 + 32 * k;
      DataDamageDetected(one, other, p, k - 12, number);
    }
  }

  lemma ScarredMark(specs: seq<SectorSpec>, gap: seq<bool>, other: seq<bool>, i: nat, k: nat, p: nat)
    requires AllWritable(specs) && specs != [] && i < |specs| && k < 270 && p == SECTOR_CELLS * i
    requires Scarred(LaidRing(specs, gap), other, p + (32 + 32 * k))
    requires LongDiffers(LaidRing(specs, gap), other, p, k)
    ensures p < |other|
    ensures MarkAt(other, p) == if k < 12 then NoHeader else Header(specs[i].number as nat, false)
  {
    LaidSector(specs, gap, i);
    ScarIsApart(specs, gap, other, i, i, 32 + 32 * k);
    DamagedMark(LaidRing(specs, gap), other, p, k, specs[i].number as nat);
  }

  lemma DamagedMark(one: seq<bool>, other: seq<bool>, p: nat, k: nat, number: nat)
    requires |one| == |other| >= 64 && k < 270 && p < |one|
    requires AlikeBut(one, other, p, 32 + 32 * k) && Syncs(other) == Syncs(one)
    requires LongDiffers(one, other, p, k)
    requires StartsSector(one, p) && SectorAt(one, p) == Header(number, true)
    ensures MarkAt(other, p) == if k < 12 then NoHeader else Header(number, false)
  {
    SyncsStart(one, other, p);
    LongDamaged(one, other, p, k, number);
  }

  /** Marks as written, but for a sector that is gone or not intact. */
  ghost predicate AllButOne(marks: seq<Sector>, sectors: map<nat, SectorSpec>, q: nat) {
    && q in sectors && (forall r :: r in sectors ==> 2 * r < |marks|)
    && (marks[2 * q].NoHeader? || !marks[2 * q].intact)
    && forall p: nat :: p < |marks| && p != 2 * q ==> marks[p] == SectorFrom(sectors, p)
  }

  lemma LeftIsGood(marks: seq<Sector>, sectors: map<nat, SectorSpec>, q: nat, r: nat)
    requires AllButOne(marks, sectors, q) && r in sectors && r != q
    ensures 2 * r < |marks| && marks[2 * r] == Header(sectors[r].number as nat, true)
  {
    assert marks[2 * r] == SectorFrom(sectors, 2 * r);
  }

  lemma GoodIsLeft(marks: seq<Sector>, sectors: map<nat, SectorSpec>, q: nat, p: nat)
    requires AllButOne(marks, sectors, q) && p < |marks| && marks[p].Header? && marks[p].intact
    ensures p / 2 in sectors && p / 2 != q && sectors[p / 2].number as nat == marks[p].number
  {
    assert marks[p] == SectorFrom(sectors, p);
    assert p == 2 * (p / 2);
  }

  lemma GoodAreLeft(marks: seq<Sector>, sectors: map<nat, SectorSpec>, q: nat)
    requires AllButOne(marks, sectors, q)
    ensures GoodSectors(marks) == Numbers(sectors - {q})
  {
    var rest := sectors - {q};
    forall number | number in Numbers(rest)
      ensures number in GoodSectors(marks)
    {
      var r :| r in rest && rest[r].number as nat == number;
      LeftIsGood(marks, sectors, q, r);
    }
    forall number | number in GoodSectors(marks)
      ensures number in Numbers(rest)
    {
      var p: nat :| p < |marks| && marks[p].Header? && marks[p].intact && marks[p].number == number;
      GoodIsLeft(marks, sectors, q, p);
      assert p / 2 in rest && rest[p / 2].number as nat == number;
    }
  }

  lemma {:induction false} NoFewer(a: set<nat>, b: set<nat>)
    requires a <= b
    ensures |a| <= |b|
  {
    if a != {} {
      var x :| x in a;
      NoFewer(a - {x}, b - {x});
    }
  }

  lemma HeadersAreLeft(marks: seq<Sector>, sectors: map<nat, SectorSpec>, q: nat)
    requires AllButOne(marks, sectors, q)
    ensures |Headers(marks)| >= |sectors| - 1
  {
    var left := sectors.Keys - {q};
    forall p | p in Positions(left)
      ensures p in Headers(marks)
    {
      var r :| r in left && p == 2 * r;
      LeftIsGood(marks, sectors, q, r);
    }
    NoFewer(Positions(left), Headers(marks));
    PositionsCount(left);
    assert |left| == |sectors.Keys| - 1 && |sectors| == |sectors.Keys|;
  }

  lemma NumbersLeft(specs: seq<SectorSpec>, gap: seq<bool>, i: nat)
    requires FullList(specs, gap) && i < |specs|
    ensures i * SECTOR_BITS in Laid(specs)
    ensures |Numbers(Laid(specs) - {i * SECTOR_BITS})| == |specs| - 1
  {
    var sectors, q := Laid(specs), i * SECTOR_BITS;
    LaidHas(specs, i);
    LaidCount(specs);
    var rest := sectors - {q};
    forall r, t | r in rest && t in rest && NumberAt(rest, r) == NumberAt(rest, t)
      ensures r == t
    {
      LaidAt(specs, r);
      LaidAt(specs, t);
    }
    DistinctNumbers(rest);
    assert rest.Keys == sectors.Keys - {q} && |rest| == |rest.Keys| && |sectors| == |sectors.Keys|;
  }

  /** The scan of a scarred track: what was written, but for the one sector. */
  lemma ScarredMarks(specs: seq<SectorSpec>, gap: seq<bool>, other: seq<bool>, i: nat, k: nat, q: nat)
    requires AllWritable(specs) && specs != [] && i < |specs| && k < 270 && q == i * SECTOR_BITS
    requires Scarred(LaidRing(specs, gap), other, 2 * q + (32 + 32 * k))
    requires LongDiffers(LaidRing(specs, gap), other, 2 * q, k)
    ensures AllButOne(Marks(other, |other|), Laid(specs), q)
  {
    MarkThere(specs, gap, other, i, k, q);
    MarksElsewhere(specs, gap, other, i, k, 2 * q);
    LaidWithin(specs, gap);
    Gathered(Marks(other, |other|), Laid(specs), q);
  }

  lemma Gathered(marks: seq<Sector>, sectors: map<nat, SectorSpec>, q: nat)
    requires q in sectors && forall r :: r in sectors ==> 2 * r < |marks|
    requires marks[2 * q].NoHeader? || !marks[2 * q].intact
    requires forall p: nat :: p < |marks| && p != 2 * q ==> marks[p] == SectorFrom(sectors, p)
    ensures AllButOne(marks, sectors, q)
  {
  }

  lemma MarkThere(specs: seq<SectorSpec>, gap: seq<bool>, other: seq<bool>, i: nat, k: nat, q: nat)
    requires AllWritable(specs) && specs != [] && i < |specs| && k < 270 && q == i * SECTOR_BITS
    requires Scarred(LaidRing(specs, gap), other, 2 * q + (32 + 32 * k))
    requires LongDiffers(LaidRing(specs, gap), other, 2 * q, k)
    ensures q in Laid(specs) && 2 * q < |other|
    ensures var mark := Marks(other, |other|)[2 * q]; mark.NoHeader? || !mark.intact
  {
    LaidHas(specs, i);
    ScarredMark(specs, gap, other, i, k, 2 * q);
    MarksAt(other, |other|, 2 * q);
  }

  lemma LaidWithin(specs: seq<SectorSpec>, gap: seq<bool>)
    requires AllWritable(specs) && specs != []
    ensures forall r :: r in Laid(specs) ==> 2 * r < |LaidRing(specs, gap)|
  {
    LaidIsTrack(specs, gap);
  }

  lemma MarksElsewhere(specs: seq<SectorSpec>, gap: seq<bool>, other: seq<bool>, i: nat, k: nat, scarred: nat)
    requires AllWritable(specs) && specs != [] && i < |specs| && k < 270 && scarred == SECTOR_CELLS * i
    requires Scarred(LaidRing(specs, gap), other, scarred + (32 + 32 * k))
    ensures forall p: nat :: p < |other| && p != scarred ==> Marks(other, |other|)[p] == SectorFrom(Laid(specs), p)
  {
    forall p: nat | p < |other| && p != scarred
      ensures Marks(other, |other|)[p] == SectorFrom(Laid(specs), p)
    {
      MarkElsewhere(specs, gap, other, i, k, scarred, p);
    }
  }

  lemma MarkElsewhere(specs: seq<SectorSpec>, gap: seq<bool>, other: seq<bool>, i: nat, k: nat, scarred: nat, p: nat)
    requires AllWritable(specs) && specs != [] && i < |specs| && k < 270 && scarred == SECTOR_CELLS * i
    requires Scarred(LaidRing(specs, gap), other, scarred + (32 + 32 * k))
    requires p < |other| && p != scarred
    ensures Marks(other, |other|)[p] == SectorFrom(Laid(specs), p)
  {
    OtherMarks(specs, gap, other, i, scarred, 32 + 32 * k, p);
    MarksAt(other, |other|, p);
  }

  lemma OneShort(ring: seq<bool>, sectors: map<nat, SectorSpec>, q: nat, full: nat)
    requires |ring| >= 64 && full == FullTrack(|ring|) && |sectors| == full
    requires AllButOne(Marks(ring, |ring|), sectors, q) && |Numbers(sectors - {q})| == full - 1
    ensures ScanRing(ring) == DamagedAmigaDos(full - 1, full)
  {
    GoodAreLeft(Marks(ring, |ring|), sectors, q);
    HeadersAreLeft(Marks(ring, |ring|), sectors, q);
  }

  /** A full track with one scarred long, of a header or of data, that makes or unmakes
      no sync word, is damaged: one sector short of full. */
  lemma ScarredTrackIsDamaged(specs: seq<SectorSpec>, gap: seq<bool>, other: seq<bool>, i: nat, k: nat, start: nat)
    requires FullList(specs, gap) && i < |specs| && k < 270 && start == 2 * (i * SECTOR_BITS)
    requires Scarred(LaidRing(specs, gap), other, start + (32 + 32 * k))
    requires LongDiffers(LaidRing(specs, gap), other, start, k)
    ensures ScanOf(Pack(other), |other|) == DamagedAmigaDos(|specs| - 1, |specs|)
  {
    NumbersLeft(specs, gap, i);
    ScarredMarks(specs, gap, other, i, k, i * SECTOR_BITS);
    LaidCount(specs);
    OneShort(other, Laid(specs), i * SECTOR_BITS, |specs|);
    UnpackPack(other);
  }

  // ----- one bad cell -----

  /** The data cell of bit `j` read the other way. */
  function Flipped(ring: seq<bool>, j: nat): (other: seq<bool>)
    requires 2 * j + 1 < |ring|
    ensures |other| == |ring|
  {
    ring[2 * j + 1 := !ring[2 * j + 1]]
  }

  /** The cells of a ring with one data cell flipped, however far round. */
  lemma FlippedCells(data: seq<bool>, quiet: set<nat>, j: nat, k: nat)
    requires |data| > 0 && j < |data|
    ensures var other := Flipped(MfmRing(data, quiet), j);
      && other[(2 * k) % |other|] == Clock(data, quiet, k)
      && other[(2 * k + 1) % |other|] == (data[k % |data|] != (k % |data| == j))
  {
    CellsOfBit(data, quiet, k);
    EvenMod(k, |data|);
  }

  lemma FlippedEven(data: seq<bool>, quiet: set<nat>, j: nat, k: nat, i: nat)
    requires |data| > 0 && j < |data| && i < 8
    ensures var window := Window(Flipped(MfmRing(data, quiet), j), 2 * k, 16);
      && window[2 * i] == Clock(data, quiet, k + i)
      && window[2 * i + 1] == (data[(k + i) % |data|] != ((k + i) % |data| == j))
  {
    FlippedCells(data, quiet, j, k + i);
    assert 2 * k + 2 * i == 2 * (k + i) && 2 * k + (2 * i + 1) == 2 * (k + i) + 1;
  }

  lemma FlippedOdd(data: seq<bool>, quiet: set<nat>, j: nat, k: nat, i: nat)
    requires |data| > 0 && j < |data| && i < 8
    ensures var window := Window(Flipped(MfmRing(data, quiet), j), 2 * k + 1, 16);
      && window[2 * i] == (data[(k + i) % |data|] != ((k + i) % |data| == j))
      && window[2 * i + 1] == Clock(data, quiet, k + i + 1)
  {
    FlippedCells(data, quiet, j, k + i);
    FlippedCells(data, quiet, j, k + i + 1);
    assert 2 * k + 1 + 2 * i == 2 * (k + i) + 1 && 2 * k + 1 + (2 * i + 1) == 2 * (k + i + 1);
  }

  /** How far round the ring from `q` to `j` it is. */
  function Ahead(m: nat, q: nat, j: nat): (distance: nat)
    requires q < m
  {
    (j + m - q) % m
  }

  lemma AheadIs(m: nat, q: nat, j: nat, i: nat)
    requires q < m && i < m && (q + i) % m == j
    ensures Ahead(m, q, j) == i
  {
    AddModMod(q + i, m - q, m);
    AddPeriod(i, m);
    ModUnique(i, 0, i, m);
    assert q + i + (m - q) == i + m && j + (m - q) == j + m - q;
  }

  /** The bit is in no mark, and after it, should it be the first behind one, no bit of
      another mark could be taken to begin. */
  predicate Clear(data: seq<bool>, marks: set<nat>, j: nat) {
    && |data| >= 32 && j < |data|
    && forall q :: q in marks ==>
         q < |data| && Ahead(|data|, q, j) >= 8 && (Ahead(|data|, q, j) == 8 ==> data[(q + 10) % |data|])
  }

  /** A sync word in step with the data stands at a mark still. */
  lemma FlippedInStep(data: seq<bool>, marks: set<nat>, j: nat, k: nat)
    requires Marked(data, marks) && j < |data|
    requires SyncAt(Flipped(MarkedRing(data, marks), j), 2 * k)
    ensures k % |data| in marks
  {
    var quiet := Quiet(|data|, marks);
    SyncAtIs(Flipped(MarkedRing(data, marks), j), 2 * k);
    FlippedEven(data, quiet, j, k, 4);
    FlippedEven(data, quiet, j, k, 5);
    FlippedEven(data, quiet, j, k, 6);
    assert SYNC_CELLS[8] && !SYNC_CELLS[10] && SYNC_CELLS[12];
    ClockBetween(data, quiet, k + 3);
    ClockBetween(data, quiet, k + 4);
    ClockBetween(data, quiet, k + 5);
    QuietIs(data, marks, k, 5);
    var q :| q in marks && (q + 0) % |data| == k % |data|;
    ModUnique(q, 0, q, |data|);
  }

  lemma FlippedWindow(data: seq<bool>, marks: set<nat>, j: nat, k: nat)
    requires Clear(data, marks, j) && k in marks && k < |data|
    ensures Window(Flipped(MarkedRing(data, marks), j), 2 * k, 16) == Window(MarkedRing(data, marks), 2 * k, 16)
  {
    var quiet := Quiet(|data|, marks);
    var flipped, window := Window(Flipped(MarkedRing(data, marks), j), 2 * k, 16), Window(MarkedRing(data, marks), 2 * k, 16);
    forall i: nat | i < 16
      ensures flipped[i] == window[i]
    {
      FlippedEven(data, quiet, j, k, i / 2);
      EvenWindow(data, quiet, k, i / 2);
      if (k + i / 2) % |data| == j {
        AheadIs(|data|, k, j, i / 2);
      }
      assert i == 2 * (i / 2) || i == 2 * (i / 2) + 1;
    }
  }

  /** The clocks a sync word out of step with the data would need. */
  lemma OutOfStepClocks(data: seq<bool>, quiet: set<nat>, j: nat, k: nat)
    requires |data| > 0 && j < |data|
    requires Window(Flipped(MfmRing(data, quiet), j), 2 * k + 1, 16) == SYNC_CELLS
    ensures Clock(data, quiet, k + 1) && !Clock(data, quiet, k + 2) && Clock(data, quiet, k + 3)
  {
    FlippedOdd(data, quiet, j, k, 0);
    FlippedOdd(data, quiet, j, k, 1);
    FlippedOdd(data, quiet, j, k, 2);
    assert SYNC_CELLS[1] && !SYNC_CELLS[3] && SYNC_CELLS[5];
  }

  lemma OutOfStepZeros(data: seq<bool>, quiet: set<nat>, j: nat, k: nat)
    requires |data| > 0 && j < |data|
    requires Window(Flipped(MfmRing(data, quiet), j), 2 * k + 1, 16) == SYNC_CELLS
    ensures data[(k + 5) % |data|] == ((k + 5) % |data| == j)
    ensures data[(k + 7) % |data|] == ((k + 7) % |data| == j)
  {
    FlippedOdd(data, quiet, j, k, 5);
    FlippedOdd(data, quiet, j, k, 7);
    assert !SYNC_CELLS[10] && !SYNC_CELLS[14];
  }

  lemma ClocksNeedQuiet(data: seq<bool>, quiet: set<nat>, k: nat)
    requires |data| > 0
    requires Clock(data, quiet, k + 1) && !Clock(data, quiet, k + 2) && Clock(data, quiet, k + 3)
    ensures (k + 2) % |data| in quiet
  {
    ClockBetween(data, quiet, k);
    ClockBetween(data, quiet, k + 1);
    ClockBetween(data, quiet, k + 2);
  }

  lemma StepsAfter(q: nat, k: nat, m: nat)
    requires m > 0 && (q + 3) % m == k % m
    ensures (q + 8) % m == (k + 5) % m && (q + 10) % m == (k + 7) % m
  {
    AddModMod(q + 3, 5, m);
    AddModMod(k, 5, m);
    AddModMod(q + 3, 7, m);
    AddModMod(k, 7, m);
  }

  lemma StepsApart(q: nat, m: nat)
    requires m >= 32 && q < m
    ensures (q + 8) % m != (q + 10) % m
  {
    if (q + 8) % m == (q + 10) % m {
      AheadIs(m, q, (q + 8) % m, 8);
      AheadIs(m, q, (q + 8) % m, 10);
    }
  }

  /** Out of step with the data there is none still. */
  lemma FlippedOutOfStep(data: seq<bool>, marks: set<nat>, j: nat, k: nat)
    requires Marked(data, marks) && Clear(data, marks, j)
    ensures !SyncAt(Flipped(MarkedRing(data, marks), j), 2 * k + 1)
  {
    if SyncAt(Flipped(MarkedRing(data, marks), j), 2 * k + 1) {
      var quiet := Quiet(|data|, marks);
      SyncAtIs(Flipped(MarkedRing(data, marks), j), 2 * k + 1);
      OutOfStepClocks(data, quiet, j, k);
      OutOfStepZeros(data, quiet, j, k);
      ClocksNeedQuiet(data, quiet, k);
      QuietIs(data, marks, k, 2);
      var q :| q in marks && (q + 3) % |data| == k % |data|;
      OnesAfterMark(data, marks, j, k, q);
    }
  }

  /** Behind a mark whose one is flipped a one stands still. */
  lemma OnesAfterMark(data: seq<bool>, marks: set<nat>, j: nat, k: nat, q: nat)
    requires Marked(data, marks) && Clear(data, marks, j)
    requires q in marks && (q + 3) % |data| == k % |data|
    requires data[(k + 5) % |data|] == ((k + 5) % |data| == j)
    ensures data[(k + 7) % |data|] && (k + 7) % |data| != j
  {
    AfterMark(data, marks, q, k);
    StepsAfter(q, k, |data|);
    StepsApart(q, |data|);
    AheadIs(|data|, q, j, 8);
  }

  /** Reading one data cell clear of the marks the other way makes or unmakes no sync
      word: a sync word is told by the clock it leaves out. */
  lemma FlippedSyncs(data: seq<bool>, marks: set<nat>, j: nat)
    requires Marked(data, marks) && Clear(data, marks, j)
    ensures Syncs(Flipped(MarkedRing(data, marks), j)) == Syncs(MarkedRing(data, marks))
  {
    var ring, other := MarkedRing(data, marks), Flipped(MarkedRing(data, marks), j);
    forall p: nat | p < |ring|
      ensures SyncAt(other, p) <==> SyncAt(ring, p)
    {
      FlippedSync(data, marks, j, p);
    }
  }

  lemma FlippedSync(data: seq<bool>, marks: set<nat>, j: nat, p: nat)
    requires Marked(data, marks) && Clear(data, marks, j) && p < 2 * |data|
    ensures SyncAt(Flipped(MarkedRing(data, marks), j), p) <==> SyncAt(MarkedRing(data, marks), p)
  {
    var k := p / 2;
    SyncsAreTheMarks(data, marks, p);
    if p % 2 == 1 {
      assert p == 2 * k + 1;
      FlippedOutOfStep(data, marks, j, k);
    } else {
      assert p == 2 * k;
      ModUnique(k, 0, k, |data|);
      if SyncAt(Flipped(MarkedRing(data, marks), j), p) {
        FlippedInStep(data, marks, j, k);
      }
      if k in marks {
        FlippedWindow(data, marks, j, k);
      }
    }
  }

  /** The data cells among a stretch of cells. */
  function Odds(cells: seq<bool>): (bits: seq<bool>)
    ensures |bits| == |cells| / 2
  {
    seq(|cells| / 2, i requires 0 <= i < |cells| / 2 => cells[2 * i + 1])
  }

  /** Masking keeps the data cells, whatever the clocks. */
  lemma {:induction false} OddsHeld(cells: seq<bool>)
    requires |cells| % 2 == 0
    ensures Hold(cells, Odds(cells))
    decreases |cells|
  {
    if cells == [] {
      assert Odds(cells) == [];
      NothingMasked();
    } else {
      var n := |cells| - 2;
      OddsHeld(cells[..n]);
      MaskedStep(cells[..n], Odds(cells[..n]), cells[n], cells[n + 1]);
      assert cells == cells[..n] + [cells[n], cells[n + 1]];
      assert Odds(cells) == Odds(cells[..n]) + [cells[n + 1]];
    }
  }

  /** One in one of `n` bits. */
  function OneHot(n: nat, b: nat): (bits: seq<bool>)
    ensures |bits| == n
  {
    seq(n, i => i == b)
  }

  function Hot(n: nat): bv32 {
    if n == 0 then 1 else Hot(n - 1) << 2
  }

  lemma HotTable(n: nat)
    requires n < 16
    ensures Hot(n) != 0
  {
    assert Hot(3) == 0x40;
    assert Hot(6) == 0x1000;
    assert Hot(9) == 0x4_0000;
    assert Hot(12) == 0x100_0000;
    assert Hot(15) == 0x4000_0000;
  }

  predicate IsHot(bits: seq<bool>, n: nat) {
    Spread(bits) == Hot(n)
  }

  lemma HotPush(bits: seq<bool>, n: nat)
    requires IsHot(bits, n)
    ensures IsHot(bits + [false], n + 1)
  {
    SpreadPush(bits, false);
  }

  lemma HotFirst(zeros: seq<bool>)
    requires Spread(zeros) == 0
    ensures IsHot(zeros + [true], 0)
  {
    SpreadPush(zeros, true);
  }

  lemma {:induction false} SpreadOneHot(n: nat, b: nat)
    requires b < n
    ensures IsHot(OneHot(n, b), n - 1 - b)
  {
    if b == n - 1 {
      SpreadZeros(b);
      assert OneHot(n, b) == seq(b, _ => false) + [true];
      HotFirst(seq(b, _ => false));
    } else {
      SpreadOneHot(n - 1, b);
      assert OneHot(n, b) == OneHot(n - 1, b) + [false];
      HotPush(OneHot(n - 1, b), n - 2 - b);
    }
  }

  lemma XorOfSame(x: bv32, y: bv32)
    ensures x ^ y != 0 ==> x != y
  {
  }

  /** Sixteen data bits of which one is flipped spread to another value. */
  lemma FlippedSpread(bits: seq<bool>, b: nat)
    requires b < |bits| == 16
    ensures Spread(bits[b := !bits[b]]) != Spread(bits)
  {
    var other := bits[b := !bits[b]];
    assert XorBits(other, bits) == OneHot(16, b);
    SpreadXor(other, bits);
    SpreadOneHot(16, b);
    HotTable(15 - b);
    XorOfSame(Spread(other), Spread(bits));
  }

  lemma OddsFlipped(cells: seq<bool>, b: nat)
    requires 2 * b + 1 < |cells| && |cells| % 2 == 0
    ensures Odds(cells[2 * b + 1 := !cells[2 * b + 1]]) == Odds(cells)[b := !Odds(cells)[b]]
  {
  }

  lemma HeldApart(one: seq<bool>, other: seq<bool>, x: seq<bool>, y: seq<bool>)
    requires Hold(one, x) && Hold(other, y) && Spread(y) != Spread(x)
    ensures Long(one) & MASK != Long(other) & MASK
  {
  }

  lemma FlippedMasked(cells: seq<bool>, b: nat)
    requires b < 16 && |cells| == 32
    ensures Long(cells) & MASK != Long(cells[2 * b + 1 := !cells[2 * b + 1]]) & MASK
  {
    var other := cells[2 * b + 1 := !cells[2 * b + 1]];
    OddsHeld(cells);
    OddsHeld(other);
    OddsFlipped(cells, b);
    FlippedSpread(Odds(cells), b);
    HeldApart(cells, other, Odds(cells), Odds(other));
  }

  lemma WindowFlipped(ring: seq<bool>, start: nat, b: nat)
    requires start % 2 == 0 && start + 32 <= |ring| && b < 16
    ensures var here := Window(ring, start, 32);
      Window(Flipped(ring, start / 2 + b), start, 32) == here[2 * b + 1 := !here[2 * b + 1]]
  {
    var other := Flipped(ring, start / 2 + b);
    WindowIsSlice(ring, start, 32);
    WindowIsSlice(other, start, 32);
  }

  lemma FlippedLong(ring: seq<bool>, start: nat, b: nat)
    requires start % 2 == 0 && start + 32 <= |ring| && b < 16
    ensures DataBits(ring, start) != DataBits(Flipped(ring, start / 2 + b), start)
  {
    WindowFlipped(ring, start, b);
    FlippedMasked(Window(ring, start, 32), b);
  }

  lemma AheadOf(m: nat, q: nat, j: nat)
    requires q < m && j < m
    ensures Ahead(m, q, j) == if j >= q then j - q else j + m - q
  {
    if j >= q {
      AddPeriod(j - q, m);
      ModUnique(j - q, 0, j - q, m);
    } else {
      ModUnique(j + m - q, 0, j + m - q, m);
    }
  }

  /** How far bit `b` of the `i`th sector is ahead of bit `c` of the `h`th, all of them
      on a ring of `n` sectors or more. */
  lemma AheadOfSlot(m: nat, n: nat, h: nat, c: nat, i: nat, b: nat)
    requires h < n && i < n && c <= 8 && 16 <= b < SECTOR_BITS && n * SECTOR_BITS <= m
    ensures h * SECTOR_BITS + c < m && i * SECTOR_BITS + b < m
    ensures var distance := Ahead(m, h * SECTOR_BITS + c, i * SECTOR_BITS + b);
      distance >= 8 && (distance == 8 ==> h == i && c == 8 && b == 16)
  {
    BitFits(h, n, c);
    BitFits(i, n, b);
    AheadOf(m, h * SECTOR_BITS + c, i * SECTOR_BITS + b);
    if h < i {
      assert (h + 1) * SECTOR_BITS <= i * SECTOR_BITS;
    } else if i < h {
      assert (i + 1) * SECTOR_BITS <= h * SECTOR_BITS;
      assert (h + 1) * SECTOR_BITS <= n * SECTOR_BITS;
    }
  }

  lemma InfoBegins(specs: seq<SectorSpec>, gap: seq<bool>, q: nat)
    requires AllWritable(specs) && specs != [] && q in Laid(specs)
    ensures var data := Sequence(specs) + gap; |data| > 0 && data[(q + 18) % |data|]
  {
    LaidIsTrack(specs, gap);
    SectorBegins(Sequence(specs) + gap, q, Laid(specs)[q]);
  }

  /** The marks on a ring of laid sectors: two for each. */
  lemma LaidMark(specs: seq<SectorSpec>, gap: seq<bool>, r: nat) returns (h: nat, c: nat)
    requires AllWritable(specs) && specs != [] && r in MarksOf(|Sequence(specs) + gap|, Laid(specs))
    ensures h < |specs| && (c == 0 || c == 8) && r == h * SECTOR_BITS + c && h * SECTOR_BITS in Laid(specs)
  {
    var m, sectors := |Sequence(specs) + gap|, Laid(specs);
    var q :| q in sectors && (r == q || r == (q + 8) % m);
    LaidAt(specs, q);
    h :| 0 <= h < |specs| && q == h * SECTOR_BITS && sectors[q] == specs[h];
    BitFits(h, |specs|, 8);
    ModUnique(q + 8, 0, q + 8, m);
    c := if r == q then 0 else 8;
  }

  lemma MarkBehind(specs: seq<SectorSpec>, gap: seq<bool>, i: nat, b: nat, j: nat, r: nat)
    requires AllWritable(specs) && specs != [] && i < |specs| && 16 <= b < SECTOR_BITS && j == i * SECTOR_BITS + b
    requires r in MarksOf(|Sequence(specs) + gap|, Laid(specs))
    ensures var data := Sequence(specs) + gap;
      r < |data| && Ahead(|data|, r, j) >= 8 && (Ahead(|data|, r, j) == 8 ==> data[(r + 10) % |data|])
  {
    var h, c := LaidMark(specs, gap, r);
    AheadOfSlot(|Sequence(specs) + gap|, |specs|, h, c, i, b);
    InfoBegins(specs, gap, h * SECTOR_BITS);
    assert c == 8 ==> r + 10 == h * SECTOR_BITS + 18;
  }

  /** A bit of a sector's header or data is clear of every mark of the track. */
  lemma LaidBitIsClear(specs: seq<SectorSpec>, gap: seq<bool>, i: nat, b: nat, j: nat)
    requires AllWritable(specs) && specs != [] && i < |specs| && 16 <= b < SECTOR_BITS && j == i * SECTOR_BITS + b
    ensures var data := Sequence(specs) + gap; Clear(data, MarksOf(|data|, Laid(specs)), j)
  {
    var data := Sequence(specs) + gap;
    BitFits(i, |specs|, b);
    forall r | r in MarksOf(|data|, Laid(specs))
      ensures r < |data| && Ahead(|data|, r, j) >= 8 && (Ahead(|data|, r, j) == 8 ==> data[(r + 10) % |data|])
    {
      MarkBehind(specs, gap, i, b, j, r);
    }
  }

  lemma BitFits(i: nat, n: nat, b: nat)
    requires i < n && b < SECTOR_BITS
    ensures i * SECTOR_BITS + b < n * SECTOR_BITS
  {
    assert (i + 1) * SECTOR_BITS <= n * SECTOR_BITS;
  }

  lemma BadCell(ring: seq<bool>, q: nat, k: nat, c: nat)
    requires c < 16 && 2 * q + 64 + 32 * k <= |ring| && |ring| >= 64
    requires Syncs(Flipped(ring, q + 16 + 16 * k + c)) == Syncs(ring)
    ensures Scarred(ring, Flipped(ring, q + 16 + 16 * k + c), 2 * q + (32 + 32 * k))
    ensures LongDiffers(ring, Flipped(ring, q + 16 + 16 * k + c), 2 * q, k)
  {
    FlippedLong(ring, 2 * q + 32 + 32 * k, c);
    assert (2 * q + 32 + 32 * k) / 2 + c == q + 16 + 16 * k + c;
  }

  lemma LaidSyncs(specs: seq<SectorSpec>, gap: seq<bool>, i: nat, b: nat, j: nat)
    requires AllWritable(specs) && specs != [] && i < |specs| && 16 <= b < SECTOR_BITS && j == i * SECTOR_BITS + b
    ensures j < |Sequence(specs) + gap|
    ensures Syncs(Flipped(LaidRing(specs, gap), j)) == Syncs(LaidRing(specs, gap))
  {
    var data := Sequence(specs) + gap;
    var marks := MarksOf(|data|, Laid(specs));
    LaidBitIsClear(specs, gap, i, b, j);
    LaidIsMarked(specs, gap);
    FlippedSyncs(data, marks, j);
  }

  lemma LaidIsMarked(specs: seq<SectorSpec>, gap: seq<bool>)
    requires AllWritable(specs) && specs != []
    ensures var data := Sequence(specs) + gap;
      && Marked(data, MarksOf(|data|, Laid(specs)))
      && LaidRing(specs, gap) == MarkedRing(data, MarksOf(|data|, Laid(specs)))
  {
    LaidIsTrack(specs, gap);
    TrackIsMarked(Sequence(specs) + gap, Laid(specs));
  }

  /** One bad cell in any header, data or checksum of a full track -- a data cell that
      reads the other way, `c` bits into the `k`th long of the `i`th sector -- and the
      track scans as damaged, one sector short. */
  lemma OneBadCell(specs: seq<SectorSpec>, gap: seq<bool>, i: nat, k: nat, c: nat, start: nat)
    requires FullList(specs, gap) && i < |specs| && k < 270 && c < 16 && start == i * SECTOR_BITS
    ensures start + 16 + 16 * k + c < |Sequence(specs) + gap|
    ensures var other := Flipped(LaidRing(specs, gap), start + 16 + 16 * k + c);
      ScanOf(Pack(other), |other|) == DamagedAmigaDos(|specs| - 1, |specs|)
  {
    LaidSyncs(specs, gap, i, 16 + 16 * k + c, start + 16 + 16 * k + c);
    BitFits(i, |specs|, 16 + 16 * k + 15);
    BadCell(LaidRing(specs, gap), start, k, c);
    ScarredTrackIsDamaged(specs, gap, Flipped(LaidRing(specs, gap), start + 16 + 16 * k + c), i, k, 2 * start);
  }

  // ----- a mark on its own -----

  lemma MarkHere(data: seq<bool>, marks: set<nat>, k: nat)
    requires Marked(data, marks)
    ensures SyncAt(MarkedRing(data, marks), (2 * k) % (2 * |data|)) <==> k % |data| in marks
  {
    EvenMod(k, |data|);
    SyncsAreTheMarks(data, marks, (2 * k) % (2 * |data|));
  }

  /** Wherever a header is read from a ring of MFM data, however it came there, two marks
      in a row stand before it, and none before those. */
  lemma HeadersFollowTwoMarks(data: seq<bool>, marks: set<nat>, p: nat)
    requires Marked(data, marks) && |data| >= 32 && p < 2 * |data|
    requires MarkAt(MarkedRing(data, marks), p).Header?
    ensures var m, q := |data|, p / 2;
      p == 2 * q && q in marks && (q + 8) % m in marks && (q + m - 8) % m !in marks
  {
    var m, q := |data|, p / 2;
    SyncsAreTheMarks(data, marks, p);
    assert p + 16 == 2 * (q + 8) && p + 2 * m - 16 == 2 * (q + m - 8);
    MarkHere(data, marks, q + 8);
    MarkHere(data, marks, q + m - 8);
  }
}
