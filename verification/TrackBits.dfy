/** Packed, most-significant-bit-first track words and their rotation
    (`pack_bits` and `rotate_revolution`). */
module TrackBits {
  import opened Common

  /** The mask of bit `offset` of a word, counted from the most significant. */
  function Mask(offset: nat): bv16
    requires offset < 16
  {
    1 << (15 - offset)
  }

  predicate BitOfWord(word: bv16, offset: nat)
    requires offset < 16
  {
    word & Mask(offset) != 0
  }

  /** The bit stored at `position` of a packed track. */
  predicate BitOf(words: seq<bv16>, position: nat)
    requires position < |words| * 16
  {
    BitOfWord(words[position / 16], position % 16)
  }

  function Unpack(words: seq<bv16>, n: nat): (bits: seq<bool>)
    requires n <= |words| * 16
  {
    seq(n, i requires 0 <= i < n => BitOf(words, i))
  }

  function WordCount(n: nat): nat {
    (n + 15) / 16
  }

  /** Whether cell `position` of `bits` is set; cells past the end read as zero. */
  predicate CellAt(bits: seq<bool>, position: nat) {
    position < |bits| && bits[position]
  }

  /** The word made of the first `count` cells of `bits` from `start` on. */
  function PackWord(bits: seq<bool>, start: nat, count: nat): bv16
    requires count <= 16
  {
    if count == 0 then 0
    else if CellAt(bits, start + count - 1) then
      PackWord(bits, start, count - 1) | Mask(count - 1)
    else PackWord(bits, start, count - 1)
  }

  function Pack(bits: seq<bool>): (words: seq<bv16>)
    ensures |words| == WordCount(|bits|)
  {
    seq(WordCount(|bits|), w requires 0 <= w => PackWord(bits, w * 16, 16))
  }

  lemma MaskTable()
    ensures Mask(0) == 0x8000 && Mask(1) == 0x4000 && Mask(2) == 0x2000 && Mask(3) == 0x1000
    ensures Mask(4) == 0x0800 && Mask(5) == 0x0400 && Mask(6) == 0x0200 && Mask(7) == 0x0100
    ensures Mask(8) == 0x0080 && Mask(9) == 0x0040 && Mask(10) == 0x0020 && Mask(11) == 0x0010
    ensures Mask(12) == 0x0008 && Mask(13) == 0x0004 && Mask(14) == 0x0002 && Mask(15) == 0x0001
  {
  }

  lemma MasksDisjoint(i: nat, j: nat)
    requires i < 16 && j < 16
    ensures Mask(i) != 0
    ensures i != j ==> Mask(i) & Mask(j) == 0 && Mask(i) != Mask(j)
  {
    MaskTable();
  }

  lemma ZeroUnder(mask: bv16)
    ensures 0 & mask == 0
  {
  }

  lemma OrElsewhere(word: bv16, mask: bv16, probe: bv16)
    requires mask & probe == 0
    ensures (word | mask) & probe == word & probe
  {
  }

  lemma OrHere(word: bv16, mask: bv16)
    ensures (word | mask) & mask == mask
  {
  }

  lemma OrUnder(word: bv16, mask: bv16, probe: bv16)
    requires mask != 0 && (mask == probe || mask & probe == 0)
    ensures (word | mask) & probe != 0 <==> mask == probe || word & probe != 0
  {
    if mask == probe {
      OrHere(word, mask);
    } else {
      OrElsewhere(word, mask, probe);
    }
  }

  /** Setting bit `i` of a word makes bit `i` read as one and leaves the rest. */
  lemma SetBit(word: bv16, i: nat, j: nat)
    requires i < 16 && j < 16
    ensures (word | Mask(i)) & Mask(j) != 0 <==> i == j || word & Mask(j) != 0
  {
    MasksDisjoint(i, j);
    OrUnder(word, Mask(i), Mask(j));
  }

  lemma AllMasks(w: bv16)
    requires w & 0x8000 == 0 && w & 0x4000 == 0 && w & 0x2000 == 0 && w & 0x1000 == 0
    requires w & 0x0800 == 0 && w & 0x0400 == 0 && w & 0x0200 == 0 && w & 0x0100 == 0
    requires w & 0x0080 == 0 && w & 0x0040 == 0 && w & 0x0020 == 0 && w & 0x0010 == 0
    requires w & 0x0008 == 0 && w & 0x0004 == 0 && w & 0x0002 == 0 && w & 0x0001 == 0
    ensures w == 0
  {
  }

  /** Words that agree under a single-bit mask have equal bits there. */
  lemma SameUnderMask(w: bv16, v: bv16, mask: bv16)
    requires mask & (mask - 1) == 0
    requires w & mask != 0 <==> v & mask != 0
    ensures (w ^ v) & mask == 0
  {
  }

  lemma MaskIsOneBit(i: nat)
    requires i < 16
    ensures Mask(i) & (Mask(i) - 1) == 0
  {
    MaskTable();
  }

  /** A word is determined by its sixteen bits. */
  lemma WordExtensionality(w: bv16, v: bv16)
    requires forall i: nat | i < 16 :: BitOfWord(w, i) == BitOfWord(v, i)
    ensures w == v
  {
    forall i: nat | i < 16
      ensures (w ^ v) & Mask(i) == 0
    {
      assert BitOfWord(w, i) == BitOfWord(v, i);
      MaskIsOneBit(i);
      SameUnderMask(w, v, Mask(i));
    }
    MaskTable();
    XorByMasks(w, v);
  }

  lemma XorByMasks(w: bv16, v: bv16)
    requires forall i: nat | i < 16 :: (w ^ v) & Mask(i) == 0
    ensures w == v
  {
    MaskTable();
    var x := w ^ v;
    assert x & Mask(0) == 0 && x & Mask(1) == 0 && x & Mask(2) == 0 && x & Mask(3) == 0;
    assert x & Mask(4) == 0 && x & Mask(5) == 0 && x & Mask(6) == 0 && x & Mask(7) == 0;
    assert x & Mask(8) == 0 && x & Mask(9) == 0 && x & Mask(10) == 0 && x & Mask(11) == 0;
    assert x & Mask(12) == 0 && x & Mask(13) == 0 && x & Mask(14) == 0 && x & Mask(15) == 0;
    AllMasks(x);
    XorZero(w, v);
  }

  lemma XorZero(w: bv16, v: bv16)
    requires w ^ v == 0
    ensures w == v
  {
  }

  /** Equally long packed tracks with the same bits are the same words. */
  lemma {:induction false} WordsExtensionality(a: seq<bv16>, b: seq<bv16>)
    requires |a| == |b|
    requires forall p: nat | p < |a| * 16 :: BitOf(a, p) == BitOf(b, p)
    ensures a == b
  {
    forall w: nat | w < |a|
      ensures a[w] == b[w]
    {
      SameWord(a, b, w);
    }
  }

  lemma SameWord(a: seq<bv16>, b: seq<bv16>, w: nat)
    requires w < |a| == |b|
    requires forall p: nat | p < |a| * 16 :: BitOf(a, p) == BitOf(b, p)
    ensures a[w] == b[w]
  {
    forall i: nat | i < 16
      ensures BitOfWord(a[w], i) == BitOfWord(b[w], i)
    {
      SameWordBit(a, b, w, i);
    }
    WordExtensionality(a[w], b[w]);
  }

  lemma SameWordBit(a: seq<bv16>, b: seq<bv16>, w: nat, i: nat)
    requires w < |a| == |b| && i < 16
    requires forall p: nat | p < |a| * 16 :: BitOf(a, p) == BitOf(b, p)
    ensures BitOfWord(a[w], i) == BitOfWord(b[w], i)
  {
    WordBit(a, w, i);
    WordBit(b, w, i);
    assert BitOf(a, w * 16 + i) == BitOf(b, w * 16 + i);
  }

  lemma WordBit(words: seq<bv16>, w: nat, i: nat)
    requires w < |words| && i < 16
    ensures w * 16 + i < |words| * 16
    ensures BitOf(words, w * 16 + i) == BitOfWord(words[w], i)
  {
    assert (w * 16 + i) / 16 == w && (w * 16 + i) % 16 == i;
  }

  lemma {:induction false} PackWordBits(bits: seq<bool>, start: nat, count: nat, j: nat)
    requires count <= 16 && j < 16
    ensures PackWord(bits, start, count) & Mask(j) != 0 <==> j < count && CellAt(bits, start + j)
    decreases count
  {
    if count == 0 {
      ZeroUnder(Mask(j));
    } else {
      PackWordBits(bits, start, count - 1, j);
      SetBit(PackWord(bits, start, count - 1), count - 1, j);
    }
  }

  /** Packing stores every cell at its own position and pads with zeros. */
  lemma PackedBit(bits: seq<bool>, position: nat)
    requires position < WordCount(|bits|) * 16
    ensures BitOf(Pack(bits), position) <==> CellAt(bits, position)
  {
    var w := position / 16;
    PackWordBits(bits, w * 16, 16, position % 16);
    assert position == w * 16 + position % 16;
  }

  /** Unpacking what was packed gives the cells back. */
  lemma UnpackPack(bits: seq<bool>)
    ensures |bits| <= |Pack(bits)| * 16
    ensures Unpack(Pack(bits), |bits|) == bits
  {
    forall p: nat | p < |bits|
      ensures Unpack(Pack(bits), |bits|)[p] == bits[p]
    {
      PackedBit(bits, p);
    }
  }

  /** Packing what was unpacked gives whole words back. */
  lemma PackUnpack(words: seq<bv16>)
    ensures Pack(Unpack(words, |words| * 16)) == words
  {
    var bits := Unpack(words, |words| * 16);
    forall p: nat | p < |words| * 16
      ensures BitOf(Pack(bits), p) == BitOf(words, p)
    {
      PackedBit(bits, p);
    }
    WordsExtensionality(Pack(bits), words);
  }

  /** `pack_bits`: sets the bits of a zeroed word buffer in place, one cell at a time. */
  method PackBits(bits: seq<bool>) returns (packed: seq<bv16>)
    ensures packed == Pack(bits)
    ensures |packed| * 16 >= |bits| && Unpack(packed, |bits|) == bits
  {
    var words := new bv16[WordCount(|bits|)](_ => 0);
    for position := 0 to |bits|
      invariant forall p: nat | p < words.Length * 16 ::
          BitOf(words[..], p) <==> p < position && bits[p]
    {
      if bits[position] {
        ghost var before := words[..];
        words[position / 16] := words[position / 16] | Mask(position % 16);
        forall p: nat | p < words.Length * 16
          ensures BitOf(words[..], p) <==> p == position || BitOf(before, p)
        {
          SetBit(before[position / 16], position % 16, p % 16);
        }
      }
    }
    packed := words[..];
    forall p: nat | p < |packed| * 16
      ensures BitOf(packed, p) == BitOf(Pack(bits), p)
    {
      PackedBit(bits, p);
    }
    WordsExtensionality(packed, Pack(bits));
    UnpackPack(bits);
  }

  /** A closed ring, read once round from `start`. */
  function Turn<T>(ring: seq<T>, start: nat): (turned: seq<T>)
    requires |ring| > 0
    ensures |turned| == |ring|
  {
    seq(|ring|, i requires 0 <= i < |ring| => ring[(start + i) % |ring|])
  }

  /** `rotate_revolution`. */
  function RotateRevolution(words: seq<bv16>, bitLen: nat, startBit: nat): (r: Result<seq<bv16>>)
    ensures r.Ok? <==> 0 < bitLen <= |words| * 16
    ensures r.Ok? ==> |r.value| * 16 >= bitLen
    ensures r.Err? ==> r.error == Protocol
  {
    if bitLen == 0 || bitLen > |words| * 16 then Err(Protocol)
    else
      var start := startBit % bitLen;
      Ok(Pack(seq(bitLen, offset requires 0 <= offset < bitLen =>
        BitOf(words, (start + offset) % bitLen))))
  }

  lemma AddModMod(a: nat, b: nat, n: nat)
    requires n > 0
    ensures (a % n + b) % n == (a + b) % n
  {
    var q := a / n;
    assert a + b == (a % n + b) + q * n;
    ModMultiple(a % n + b, q, n);
  }

  lemma {:induction false} ModMultiple(a: nat, q: nat, n: nat)
    requires n > 0
    ensures (a + q * n) % n == a % n
    decreases q
  {
    if q > 0 {
      ModMultiple(a, q - 1, n);
      var b := a + (q - 1) * n;
      assert a + q * n == b + n;
      AddPeriod(b, n);
    }
  }

  lemma AddPeriod(b: nat, n: nat)
    requires n > 0
    ensures (b + n) % n == b % n
  {
    ModUnique(b + n, b / n + 1, b % n, n);
  }

  lemma ModUnique(a: nat, q: nat, r: nat, n: nat)
    requires r < n
    requires a == q * n + r
    ensures a % n == r
  {
    var d := a / n - q;
    assert d * n == r - a % n;
  }

  lemma RotatedBit(words: seq<bv16>, bitLen: nat, startBit: nat, i: nat)
    requires 0 < bitLen <= |words| * 16 && i < bitLen
    ensures (startBit % bitLen + i) % bitLen == (startBit + i) % bitLen
    ensures BitOf(words, (startBit % bitLen + i) % bitLen) == Turn(Unpack(words, bitLen), startBit)[i]
  {
    AddModMod(startBit, i, bitLen);
  }

  /** A rotated revolution holds the same ring, read from `startBit`. */
  lemma RotationTurns(words: seq<bv16>, bitLen: nat, startBit: nat)
    requires 0 < bitLen <= |words| * 16
    ensures Unpack(RotateRevolution(words, bitLen, startBit).value, bitLen)
         == Turn(Unpack(words, bitLen), startBit)
  {
    var start := startBit % bitLen;
    var bits := seq(bitLen, offset requires 0 <= offset < bitLen =>
      BitOf(words, (start + offset) % bitLen));
    UnpackPack(bits);
    forall i: nat | i < bitLen
      ensures bits[i] == Turn(Unpack(words, bitLen), startBit)[i]
    {
      RotatedBit(words, bitLen, startBit, i);
    }
    assert bits == Turn(Unpack(words, bitLen), startBit);
  }

  lemma TurnTurnAt<T>(ring: seq<T>, a: nat, b: nat, i: nat)
    requires i < |ring|
    ensures Turn(Turn(ring, a), b)[i] == Turn(ring, a + b)[i]
  {
    AddModMod(b + i, a, |ring|);
  }

  /** Turning twice is turning by the sum. */
  lemma TurnTurn<T>(ring: seq<T>, a: nat, b: nat)
    requires |ring| > 0
    ensures Turn(Turn(ring, a), b) == Turn(ring, a + b)
  {
    forall i: nat | i < |ring|
      ensures Turn(Turn(ring, a), b)[i] == Turn(ring, a + b)[i]
    {
      TurnTurnAt(ring, a, b, i);
    }
  }

  /** Rotations compose as addition of their start bits, modulo the ring. */
  lemma RotationsCompose(words: seq<bv16>, bitLen: nat, a: nat, b: nat)
    requires 0 < bitLen <= |words| * 16
    ensures RotateRevolution(RotateRevolution(words, bitLen, a).value, bitLen, b)
         == RotateRevolution(words, bitLen, a + b)
  {
    var once := RotateRevolution(words, bitLen, a).value;
    RotationIsPackedTurn(words, bitLen, a);
    RotationIsPackedTurn(once, bitLen, b);
    RotationIsPackedTurn(words, bitLen, a + b);
    UnpackPack(Turn(Unpack(words, bitLen), a));
    TurnTurn(Unpack(words, bitLen), a, b);
  }

  lemma RotationIsPackedTurn(words: seq<bv16>, bitLen: nat, startBit: nat)
    requires 0 < bitLen <= |words| * 16
    ensures RotateRevolution(words, bitLen, startBit) == Ok(Pack(Turn(Unpack(words, bitLen), startBit)))
  {
    var start := startBit % bitLen;
    var bits := seq(bitLen, offset requires 0 <= offset < bitLen =>
      BitOf(words, (start + offset) % bitLen));
    forall i: nat | i < bitLen
      ensures bits[i] == Turn(Unpack(words, bitLen), startBit)[i]
    {
      AddModMod(startBit, i, bitLen);
    }
    assert bits == Turn(Unpack(words, bitLen), startBit);
  }

  /** Turning all the way round undoes a rotation. */
  lemma RotationUndone(words: seq<bv16>, bitLen: nat, start: nat)
    requires 0 < bitLen <= |words| * 16
    requires start <= bitLen
    ensures RotateRevolution(RotateRevolution(words, bitLen, start).value, bitLen, bitLen - start)
         == Ok(Pack(Unpack(words, bitLen)))
  {
    RotationsCompose(words, bitLen, start, bitLen - start);
    RotationIsPackedTurn(words, bitLen, bitLen);
    FullTurn(Unpack(words, bitLen));
  }

  lemma FullTurn<T>(ring: seq<T>)
    requires |ring| > 0
    ensures Turn(ring, |ring|) == ring
  {
    forall i: nat | i < |ring|
      ensures Turn(ring, |ring|)[i] == ring[i]
    {
      AddPeriod(i, |ring|);
      ModUnique(i, 0, i, |ring|);
    }
  }
}
