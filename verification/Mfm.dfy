/** MFM rings as they are written: data bits with their clocks, of which only those
    of the sync marks are left out; where the scan finds sync words in them, and
    what it reads of their data. */
module Mfm {
  import opened Common
  import opened TrackBits
  import opened Scan

  // ----- MFM -----

  /** The clock cell before data bit `k` of a ring: set between two zeros, unless
      it is one of the suppressed ones. */
  predicate Clock(data: seq<bool>, quiet: set<nat>, k: nat)
    requires |data| > 0
  {
    !data[(k + |data| - 1) % |data|] && !data[k % |data|] && k % |data| !in quiet
  }

  /** The ring of cells of a ring of data bits: a clock and a data cell for each. */
  function MfmRing(data: seq<bool>, quiet: set<nat>): (ring: seq<bool>)
    requires |data| > 0
    ensures |ring| == 2 * |data|
  {
    seq(2 * |data|, i requires 0 <= i < 2 * |data| =>
      if i % 2 == 1 then data[i / 2] else Clock(data, quiet, i / 2))
  }

  lemma EvenMod(k: nat, m: nat)
    requires m > 0
    ensures (2 * k) % (2 * m) == 2 * (k % m)
    ensures (2 * k + 1) % (2 * m) == 2 * (k % m) + 1
  {
    var q := k / m;
    assert k == q * m + k % m;
    assert 2 * k == q * (2 * m) + 2 * (k % m);
    ModUnique(2 * k, q, 2 * (k % m), 2 * m);
    ModUnique(2 * k + 1, q, 2 * (k % m) + 1, 2 * m);
  }

  lemma ClockMod(data: seq<bool>, quiet: set<nat>, k: nat)
    requires |data| > 0
    ensures Clock(data, quiet, k % |data|) == Clock(data, quiet, k)
  {
    var m := |data|;
    AddModMod(k, m - 1, m);
    assert k % m + (m - 1) == k % m + m - 1 && k + (m - 1) == k + m - 1;
    ModUnique(k % m, 0, k % m, m);
  }

  /** The cells of the ring, however far round. */
  lemma CellsOfBit(data: seq<bool>, quiet: set<nat>, k: nat)
    requires |data| > 0
    ensures var ring := MfmRing(data, quiet);
      && ring[(2 * k) % |ring|] == Clock(data, quiet, k)
      && ring[(2 * k + 1) % |ring|] == data[k % |data|]
  {
    EvenMod(k, |data|);
    ClockMod(data, quiet, k);
  }

  // ----- where the sync marks are -----

  const SYNC_CELLS: seq<bool> := [
    false, true, false, false, false, true, false, false, true, false, false, false, true, false, false, true]

  /** The data bits of a sync mark. */
  const MARK: seq<bool> := [true, false, true, false, false, false, false, true]

  lemma SyncWordCells(i: nat)
    requires i < 16
    ensures BitOfWord(SYNC, i) == SYNC_CELLS[i]
  {
    MaskTable();
  }

  lemma SyncAtIs(ring: seq<bool>, p: nat)
    requires |ring| > 0
    ensures SyncAt(ring, p) <==> Window(ring, p, 16) == SYNC_CELLS
  {
    var window := Window(ring, p, 16);
    WordHolds(window);
    forall i: nat | i < 16
      ensures BitOfWord(Word(window), i) == window[i] && BitOfWord(SYNC, i) == SYNC_CELLS[i]
    {
      assert (seq(16, _ => false) + window)[16 + i] == window[i];
      SyncWordCells(i);
    }
    if window == SYNC_CELLS {
      WordExtensionality(Word(window), SYNC);
    }
  }

  /** The data bits where marks stand, each followed by a one, and the one clock
      each of them leaves out. */
  predicate Marked(data: seq<bool>, marks: set<nat>) {
    |data| > 0 && forall q :: q in marks ==>
      q < |data| && Window(data, q, 8) == MARK && data[(q + 8) % |data|]
  }

  function Quiet(m: nat, marks: set<nat>): (quiet: set<nat>)
    requires m > 0
  {
    set q | q in marks :: (q + 5) % m
  }

  lemma ModCancel(x: nat, y: nat, c: nat, m: nat)
    requires m > 0 && (x + c) % m == (y + c) % m
    ensures x % m == y % m
    decreases y > x
  {
    if y > x {
      ModCancel(y, x, c, m);
    } else {
      var q := (x + c) / m - (y + c) / m;
      assert x + c == ((x + c) / m) * m + (x + c) % m;
      assert y + c == ((y + c) / m) * m + (y + c) % m;
      assert x == y + q * m;
      assert (q + 1) * m == x - y + m;
      assert q >= 0;
      ModMultiple(y, q, m);
    }
  }

  /** The suppressed clock belongs to the mark five bits before it. */
  lemma QuietIs(data: seq<bool>, marks: set<nat>, k: nat, c: nat)
    requires Marked(data, marks) && c <= 5
    requires (k + c) % |data| in Quiet(|data|, marks)
    ensures exists q :: q in marks && (q + (5 - c)) % |data| == k % |data|
  {
    var q :| q in marks && (q + 5) % |data| == (k + c) % |data|;
    ModCancel(q + (5 - c), k, c, |data|);
  }

  lemma ClockBetween(data: seq<bool>, quiet: set<nat>, k: nat)
    requires |data| > 0
    ensures Clock(data, quiet, k + 1)
         == (!data[k % |data|] && !data[(k + 1) % |data|] && (k + 1) % |data| !in quiet)
  {
    AddPeriod(k, |data|);
  }

  lemma EvenWindow(data: seq<bool>, quiet: set<nat>, k: nat, i: nat)
    requires |data| > 0 && i < 8
    ensures var window := Window(MfmRing(data, quiet), 2 * k, 16);
      window[2 * i] == Clock(data, quiet, k + i) && window[2 * i + 1] == data[(k + i) % |data|]
  {
    CellsOfBit(data, quiet, k + i);
    assert 2 * k + 2 * i == 2 * (k + i) && 2 * k + (2 * i + 1) == 2 * (k + i) + 1;
  }

  lemma OddWindow(data: seq<bool>, quiet: set<nat>, k: nat, i: nat)
    requires |data| > 0 && i < 8
    ensures var window := Window(MfmRing(data, quiet), 2 * k + 1, 16);
      window[2 * i] == data[(k + i) % |data|] && window[2 * i + 1] == Clock(data, quiet, k + i + 1)
  {
    CellsOfBit(data, quiet, k + i);
    CellsOfBit(data, quiet, k + i + 1);
    assert 2 * k + 1 + 2 * i == 2 * (k + i) + 1 && 2 * k + 1 + (2 * i + 1) == 2 * (k + i + 1);
  }

  /** The ring of marked data. */
  function MarkedRing(data: seq<bool>, marks: set<nat>): (ring: seq<bool>)
    requires |data| > 0
    ensures |ring| == 2 * |data|
  {
    MfmRing(data, Quiet(|data|, marks))
  }

  /** A sync word in step with the data is one of the marks: nothing else leaves
      its clock out. */
  lemma SyncInStep(data: seq<bool>, marks: set<nat>, k: nat)
    requires Marked(data, marks)
    requires SyncAt(MarkedRing(data, marks), 2 * k)
    ensures k % |data| in marks
  {
    var m, quiet := |data|, Quiet(|data|, marks);
    SyncAtIs(MarkedRing(data, marks), 2 * k);
    EvenWindow(data, quiet, k, 4);
    EvenWindow(data, quiet, k, 5);
    ClockBetween(data, quiet, k + 4);
    assert SYNC_CELLS[9] == false && SYNC_CELLS[10] == false && SYNC_CELLS[11] == false;
    QuietIs(data, marks, k, 5);
    var q :| q in marks && (q + 0) % m == k % m;
    ModUnique(q, 0, q, m);
  }

  lemma OutOfStepBits(data: seq<bool>, quiet: set<nat>, k: nat)
    requires |data| > 0 && Window(MfmRing(data, quiet), 2 * k + 1, 16) == SYNC_CELLS
    ensures !data[(k + 1) % |data|] && !data[(k + 2) % |data|] && !data[(k + 5) % |data|]
    ensures !Clock(data, quiet, k + 2)
  {
    OddWindow(data, quiet, k, 1);
    OddWindow(data, quiet, k, 2);
    OddWindow(data, quiet, k, 5);
    assert !SYNC_CELLS[2] && !SYNC_CELLS[3] && !SYNC_CELLS[4] && !SYNC_CELLS[10];
  }

  lemma OutOfStepCells(data: seq<bool>, marks: set<nat>, k: nat)
    requires |data| > 0 && SyncAt(MarkedRing(data, marks), 2 * k + 1)
    ensures (k + 2) % |data| in Quiet(|data|, marks) && !data[(k + 5) % |data|]
  {
    var quiet := Quiet(|data|, marks);
    SyncAtIs(MarkedRing(data, marks), 2 * k + 1);
    OutOfStepBits(data, quiet, k);
    ClockBetween(data, quiet, k + 1);
  }

  lemma AfterMark(data: seq<bool>, marks: set<nat>, q: nat, k: nat)
    requires Marked(data, marks) && q in marks && (q + 3) % |data| == k % |data|
    ensures data[(k + 5) % |data|]
  {
    AddModMod(q + 3, 5, |data|);
    AddModMod(k, 5, |data|);
    assert q + 3 + 5 == q + 8;
  }

  /** Out of step with the data there is none: the one place where the missing
      clock of a mark would fit is followed by a one. */
  lemma NoSyncOutOfStep(data: seq<bool>, marks: set<nat>, k: nat)
    requires Marked(data, marks)
    ensures !SyncAt(MarkedRing(data, marks), 2 * k + 1)
  {
    if SyncAt(MarkedRing(data, marks), 2 * k + 1) {
      OutOfStepCells(data, marks, k);
      QuietIs(data, marks, k, 2);
      var q :| q in marks && (q + 3) % |data| == k % |data|;
      AfterMark(data, marks, q, k);
    }
  }

  lemma MarkBit(data: seq<bool>, marks: set<nat>, q: nat, i: nat)
    requires Marked(data, marks) && q in marks && i < 8
    ensures data[(q + i) % |data|] == MARK[i]
  {
    assert Window(data, q, 8)[i] == data[(q + i) % |data|];
  }

  /** No mark begins one bit after another. */
  lemma MarksApart(data: seq<bool>, marks: set<nat>, q: nat, r: nat)
    requires Marked(data, marks) && q in marks && r in marks
    ensures (q + 1) % |data| != r % |data|
  {
    MarkBit(data, marks, q, 1);
    MarkBit(data, marks, r, 0);
  }

  /** No clock is missing from a mark but its own. */
  lemma MarkClock(data: seq<bool>, marks: set<nat>, q: nat, c: nat)
    requires Marked(data, marks) && q in marks && (c == 4 || c == 6)
    ensures (q + c) % |data| !in Quiet(|data|, marks)
  {
    forall r | r in marks
      ensures (r + 5) % |data| != (q + c) % |data|
    {
      if (r + 5) % |data| == (q + c) % |data| {
        if c == 4 {
          ModCancel(r + 1, q, 4, |data|);
          MarksApart(data, marks, r, q);
        } else {
          ModCancel(r, q + 1, 5, |data|);
          MarksApart(data, marks, q, r);
        }
      }
    }
  }

  lemma MarkCell(data: seq<bool>, marks: set<nat>, q: nat, i: nat)
    requires Marked(data, marks) && q in marks && i < 8
    ensures var window := Window(MarkedRing(data, marks), 2 * q, 16);
      window[2 * i] == SYNC_CELLS[2 * i] && window[2 * i + 1] == SYNC_CELLS[2 * i + 1]
  {
    var m, quiet := |data|, Quiet(|data|, marks);
    EvenWindow(data, quiet, q, i);
    assert Window(data, q, 8)[i] == data[(q + i) % m] == MARK[i];
    if i > 0 {
      ClockBetween(data, quiet, q + i - 1);
      assert Window(data, q, 8)[i - 1] == data[(q + i - 1) % m] == MARK[i - 1];
    }
    if i == 4 || i == 6 {
      MarkClock(data, marks, q, i);
    }
    if i == 5 {
      assert (q + 5) % m in quiet;
    }
  }

  lemma MarkIsSync(data: seq<bool>, marks: set<nat>, q: nat)
    requires Marked(data, marks) && q in marks
    ensures SyncAt(MarkedRing(data, marks), 2 * q)
  {
    var window := Window(MarkedRing(data, marks), 2 * q, 16);
    forall i: nat | i < 16
      ensures window[i] == SYNC_CELLS[i]
    {
      MarkCell(data, marks, q, i / 2);
      assert i == 2 * (i / 2) || i == 2 * (i / 2) + 1;
    }
    SyncAtIs(MarkedRing(data, marks), 2 * q);
  }

  /** Whatever data is written, the sync words of the ring are exactly its marks. */
  lemma SyncsAreTheMarks(data: seq<bool>, marks: set<nat>, p: nat)
    requires Marked(data, marks) && p < 2 * |data|
    ensures SyncAt(MarkedRing(data, marks), p) <==> p % 2 == 0 && p / 2 in marks
  {
    if p % 2 == 1 {
      NoSyncOutOfStep(data, marks, p / 2);
      assert p == 2 * (p / 2) + 1;
    } else {
      assert p == 2 * (p / 2);
      ModUnique(p / 2, 0, p / 2, |data|);
      if SyncAt(MarkedRing(data, marks), p) {
        SyncInStep(data, marks, p / 2);
      }
      if p / 2 in marks {
        MarkIsSync(data, marks, p / 2);
      }
    }
  }

  // ----- data bits as the scan reads them -----

  /** Data bits as a masked long holds them: one in every other bit. */
  function Spread(bits: seq<bool>): bv32 {
    if bits == [] then 0
    else (Spread(bits[..|bits| - 1]) << 2) | (if bits[|bits| - 1] then 1 else 0)
  }

  lemma MaskTwo(x: bv32, clock: bool, bit: bool)
    ensures ((((x << 1) | (if clock then 1 else 0)) << 1) | (if bit then 1 else 0)) & MASK
         == ((x & MASK) << 2) | (if bit then 1 else 0)
  {
  }

  lemma LongTwo(cells: seq<bool>, clock: bool, bit: bool)
    ensures Long(cells + [clock, bit]) & MASK == ((Long(cells) & MASK) << 2) | (if bit then 1 else 0)
  {
    var all := cells + [clock, bit];
    assert all[..|all| - 1] == cells + [clock];
    assert (cells + [clock])[..|cells|] == cells;
    MaskTwo(Long(cells), clock, bit);
  }

  lemma SpreadPush(bits: seq<bool>, bit: bool)
    ensures Spread(bits + [bit]) == (Spread(bits) << 2) | (if bit then 1 else 0)
  {
    assert (bits + [bit])[..|bits|] == bits;
  }

  /** The cells, masked, hold these data bits. */
  predicate Hold(cells: seq<bool>, bits: seq<bool>) {
    Long(cells) & MASK == Spread(bits)
  }

  lemma MaskedStep(cells: seq<bool>, bits: seq<bool>, clock: bool, bit: bool)
    requires Hold(cells, bits)
    ensures Hold(cells + [clock, bit], bits + [bit])
  {
    LongTwo(cells, clock, bit);
    SpreadPush(bits, bit);
  }

  lemma NothingMasked()
    ensures Hold([], [])
  {
  }

  lemma WindowSplits(ring: seq<bool>, k: nat, a: nat, b: nat)
    requires |ring| > 0
    ensures Window(ring, k, a + b) == Window(ring, k, a) + Window(ring, k + a, b)
  {
  }

  lemma WindowOfTwo(data: seq<bool>, quiet: set<nat>, k: nat)
    requires |data| > 0
    ensures Window(MfmRing(data, quiet), 2 * k, 2) == [Clock(data, quiet, k), data[k % |data|]]
  {
    CellsOfBit(data, quiet, k);
  }

  lemma OneBitMore(data: seq<bool>, quiet: set<nat>, k: nat, last: nat)
    requires |data| > 0
    ensures Window(MfmRing(data, quiet), 2 * k, 2 * (last + 1))
         == Window(MfmRing(data, quiet), 2 * k, 2 * last) + [Clock(data, quiet, k + last), data[(k + last) % |data|]]
    ensures Window(data, k, last + 1) == Window(data, k, last) + [data[(k + last) % |data|]]
  {
    WindowSplits(MfmRing(data, quiet), 2 * k, 2 * last, 2);
    WindowOfTwo(data, quiet, k + last);
    assert 2 * k + 2 * last == 2 * (k + last) && 2 * last + 2 == 2 * (last + 1);
  }

  lemma {:induction false} MaskedCells(data: seq<bool>, quiet: set<nat>, k: nat, count: nat)
    requires |data| > 0
    ensures Hold(Window(MfmRing(data, quiet), 2 * k, 2 * count), Window(data, k, count))
    decreases count
  {
    var ring := MfmRing(data, quiet);
    if count == 0 {
      assert Window(ring, 2 * k, 2 * count) == [] && Window(data, k, count) == [];
      NothingMasked();
    } else {
      var last := count - 1;
      MaskedCells(data, quiet, k, last);
      OneBitMore(data, quiet, k, last);
      MaskedStep(Window(ring, 2 * k, 2 * last), Window(data, k, last),
                 Clock(data, quiet, k + last), data[(k + last) % |data|]);
    }
  }

  /** A long of the ring, masked, is sixteen of its data bits. */
  lemma MaskedLong(data: seq<bool>, quiet: set<nat>, k: nat)
    requires |data| > 0
    ensures DataBits(MfmRing(data, quiet), 2 * k) == Spread(Window(data, k, 16))
  {
    MaskedCells(data, quiet, k, 16);
  }

  // ----- checksums -----

  function XorBits(a: seq<bool>, b: seq<bool>): (bits: seq<bool>)
    requires |a| == |b|
    ensures |bits| == |a|
  {
    seq(|a|, i requires 0 <= i < |a| => a[i] != b[i])
  }

  function Zeros16(): (bits: seq<bool>)
    ensures |bits| == 16
  {
    seq(16, _ => false)
  }

  /** The exclusive or of the groups of sixteen that a stretch of data bits falls into. */
  function XorGroups(bits: seq<bool>): (sum: seq<bool>)
    ensures |sum| == 16
  {
    if |bits| < 16 then Zeros16() else XorBits(XorGroups(bits[..|bits| - 16]), bits[|bits| - 16..])
  }

  lemma XorTwo(x: bv32, y: bv32, a: bool, b: bool)
    ensures ((x << 2) | (if a then 1 else 0)) ^ ((y << 2) | (if b then 1 else 0))
         == ((x ^ y) << 2) | (if a != b then 1 else 0)
  {
  }

  predicate XorSpreads(a: seq<bool>, b: seq<bool>)
    requires |a| == |b|
  {
    Spread(XorBits(a, b)) == Spread(a) ^ Spread(b)
  }

  lemma NothingXored()
    ensures XorSpreads([], [])
  {
  }

  lemma SpreadXorStep(a: seq<bool>, b: seq<bool>, x: bool, y: bool)
    requires |a| == |b| && XorSpreads(a, b)
    ensures XorSpreads(a + [x], b + [y])
  {
    SpreadPush(a, x);
    SpreadPush(b, y);
    SpreadPush(XorBits(a, b), x != y);
    assert XorBits(a + [x], b + [y]) == XorBits(a, b) + [x != y];
    XorTwo(Spread(a), Spread(b), x, y);
  }

  lemma {:induction false} XorSpreadsAll(a: seq<bool>, b: seq<bool>)
    requires |a| == |b|
    ensures XorSpreads(a, b)
    decreases |a|
  {
    if a == [] {
      NothingXored();
    } else {
      var c, d, x, y := a[..|a| - 1], b[..|a| - 1], a[|a| - 1], b[|a| - 1];
      XorSpreadsAll(c, d);
      SpreadXorStep(c, d, x, y);
      assert a == c + [x] && b == d + [y];
    }
  }

  lemma SpreadXor(a: seq<bool>, b: seq<bool>)
    requires |a| == |b|
    ensures Spread(XorBits(a, b)) == Spread(a) ^ Spread(b)
  {
    XorSpreadsAll(a, b);
  }

  lemma {:induction false} SpreadZeros(n: nat)
    ensures Spread(seq(n, _ => false)) == 0
  {
    if n > 0 {
      SpreadZeros(n - 1);
      assert seq(n, _ => false)[..n - 1] == seq(n - 1, _ => false);
    }
  }

  lemma XorPush(longs: seq<bv32>, long: bv32)
    ensures Xor(longs + [long]) == Xor(longs) ^ long
  {
    assert (longs + [long])[..|longs|] == longs;
  }

  lemma GroupsPush(bits: seq<bool>, group: seq<bool>)
    requires |group| == 16
    ensures XorGroups(bits + group) == XorBits(XorGroups(bits), group)
  {
    var all := bits + group;
    assert all[..|all| - 16] == bits && all[|all| - 16..] == group;
  }

  /** One more long of the ring is one more group of its data. */
  lemma OneLongMore(data: seq<bool>, quiet: set<nat>, k: nat, last: nat)
    requires |data| > 0
    ensures var ring := MfmRing(data, quiet);
      MaskedLongs(ring, 2 * k, last + 1)
      == MaskedLongs(ring, 2 * k, last) + [Spread(Window(data, k + 16 * last, 16))]
    ensures Window(data, k, 16 * (last + 1)) == Window(data, k, 16 * last) + Window(data, k + 16 * last, 16)
  {
    MaskedLong(data, quiet, k + 16 * last);
    assert 2 * k + last * 32 == 2 * (k + 16 * last);
    WindowSplits(data, k, 16 * last, 16);
    assert 16 * last + 16 == 16 * (last + 1);
  }

  /** The longs add up to what the groups do. */
  predicate AddUp(longs: seq<bv32>, bits: seq<bool>) {
    Xor(longs) == Spread(XorGroups(bits))
  }

  lemma NothingAdded()
    ensures AddUp([], [])
  {
    SpreadZeros(16);
  }

  /** One more long, one more group. */
  lemma XorStep(longs: seq<bv32>, long: bv32, bits: seq<bool>, group: seq<bool>)
    requires AddUp(longs, bits) && |group| == 16 && long == Spread(group)
    ensures AddUp(longs + [long], bits + group)
  {
    XorPush(longs, long);
    GroupsPush(bits, group);
    SpreadXor(XorGroups(bits), group);
  }

  /** The scan's sum of masked longs is the sum of the groups they were made of. */
  lemma {:induction false} XorOfLongs(data: seq<bool>, quiet: set<nat>, k: nat, count: nat)
    requires |data| > 0
    ensures AddUp(MaskedLongs(MfmRing(data, quiet), 2 * k, count), Window(data, k, 16 * count))
    decreases count
  {
    var ring := MfmRing(data, quiet);
    if count == 0 {
      assert MaskedLongs(ring, 2 * k, count) == [] && Window(data, k, 16 * count) == [];
      NothingAdded();
    } else {
      var last := count - 1;
      XorOfLongs(data, quiet, k, last);
      OneLongMore(data, quiet, k, last);
      XorStep(MaskedLongs(ring, 2 * k, last), Spread(Window(data, k + 16 * last, 16)),
              Window(data, k, 16 * last), Window(data, k + 16 * last, 16));
    }
  }
}
