/** The dynamic software PLL: its recurrence, the bounds that hold between
    calls, and the stretch of drift and noise over which it stays locked. */
module Pll {
  import opened Common

  const CLOCK_CENTRE_NS := 2_000
  const CLOCK_MIN_NS := 1_800
  const CLOCK_MAX_NS := 2_200

  const I64_MAX := 0x7fff_ffff_ffff_ffff
  const I64_MIN := -0x8000_0000_0000_0000

  /** The time from one transition to the next, and whether the index passed there. */
  datatype FluxEvent = FluxEvent(nanoseconds: U32, index: bool)

  datatype PllState = PllState(clock: int, pending: int)

  /** A PLL state together with the cells emitted on the way to it. */
  datatype Decoding = Decoding(state: PllState, cells: seq<bool>)

  const CENTRED := PllState(CLOCK_CENTRE_NS, 0)

  function SaturatingAdd(a: int, b: int): int {
    Max(I64_MIN, Min(I64_MAX, a + b))
  }

  function Clamp(clock: int): int {
    Max(CLOCK_MIN_NS, Min(CLOCK_MAX_NS, clock))
  }

  function Empty(n: nat): (cells: seq<bool>)
    ensures |cells| == n
  {
    seq(n, _ => false)
  }

  /** A run of `n - 1` empty cells and the transition that ends it. */
  function Gap(n: nat): (cells: seq<bool>)
    ensures |cells| == Max(n, 1)
  {
    Empty(Max(n - 1, 0)) + [true]
  }

  /** What holds of the PLL between any two calls. */
  predicate Steady(s: PllState) {
    CLOCK_MIN_NS <= s.clock <= CLOCK_MAX_NS && -550 <= s.pending < s.clock / 2
  }

  /** Empty cells in front of the transition that closes a delay of `held` ns. */
  function Zeros(held: int, clock: int): int
    requires clock > 0
  {
    Max(TruncDiv(held - TruncDiv(clock, 2), clock), 0)
  }

  /** The clock correction, before it is clamped. */
  function Corrected(clock: int, zeros: nat, phase: int): int {
    if 1 <= zeros <= 3 then clock + TruncDiv(TruncDiv(phase, zeros + 1), 10)
    else clock + TruncDiv(CLOCK_CENTRE_NS - clock, 10)
  }

  /** One transition delay, as a function of the state it finds. */
  function SubmitTo(s: PllState, nanoseconds: U32): Decoding
    requires s.clock > 0
  {
    var held := SaturatingAdd(s.pending, nanoseconds);
    if held < TruncDiv(s.clock, 2) then Decoding(s.(pending := held), [])
    else
      var zeros := Zeros(held, s.clock);
      var phase := held - (zeros + 1) * s.clock;
      Decoding(PllState(Clamp(Corrected(s.clock, zeros, phase)), TruncDiv(phase, 2)), Gap(zeros + 1))
  }

  /** The PLL as the stateful decoder the crate exposes. */
  class PllDecoder {
    var clockNs: int
    var pendingNs: int

    function State(): PllState
      reads this
    {
      PllState(clockNs, pendingNs)
    }

    constructor ()
      ensures State() == CENTRED
    {
      clockNs, pendingNs := CLOCK_CENTRE_NS, 0;
    }

    method Reset()
      modifies this
      ensures State() == CENTRED
    {
      clockNs, pendingNs := CLOCK_CENTRE_NS, 0;
    }

    /** Moves the PLL by one delay; the cells it decodes to go behind `output`. */
    method Submit(nanoseconds: U32, output: seq<bool>) returns (extended: seq<bool>)
      requires Steady(State())
      modifies this
      ensures Steady(State())
      ensures State() == SubmitTo(old(State()), nanoseconds).state
      ensures extended == output + SubmitTo(old(State()), nanoseconds).cells
    {
      SteadyStep(State(), nanoseconds);
      pendingNs := SaturatingAdd(pendingNs, nanoseconds);
      if pendingNs < TruncDiv(clockNs, 2) {
        return output;
      }
      var zeros := Zeros(pendingNs, clockNs);
      pendingNs := pendingNs - (zeros + 1) * clockNs;
      if 1 <= zeros <= 3 {
        clockNs := clockNs + TruncDiv(TruncDiv(pendingNs, zeros + 1), 10);
      } else {
        clockNs := clockNs + TruncDiv(CLOCK_CENTRE_NS - clockNs, 10);
      }
      clockNs := Clamp(clockNs);
      pendingNs := TruncDiv(pendingNs, 2);
      extended := output + Empty(zeros) + [true];
    }
  }

  /** The phase left after a transition lies within half a clock of it. */
  lemma PhaseBounds(held: int, clock: int)
    requires CLOCK_MIN_NS <= clock <= CLOCK_MAX_NS
    requires clock / 2 <= held
    ensures var zeros := Zeros(held, clock);
      var phase := held - (zeros + 1) * clock;
      clock / 2 - clock <= phase < clock / 2
  {
    QuotientBrackets(held - clock / 2, clock);
  }

  /** Every call keeps the clock within its limits and the phase within half a cell. */
  lemma SteadyStep(s: PllState, ns: U32)
    requires Steady(s)
    ensures Steady(SubmitTo(s, ns).state)
  {
    var held := s.pending + ns;
    if held >= s.clock / 2 {
      PhaseBounds(held, s.clock);
    }
  }

  /** Decoding a stream of delays is a left fold of the single step. */
  function Decode(s: PllState, delays: seq<U32>): (d: Decoding)
    requires Steady(s)
    ensures Steady(d.state)
  {
    if delays == [] then Decoding(s, [])
    else
      var before := Decode(s, delays[..|delays| - 1]);
      SteadyStep(before.state, delays[|delays| - 1]);
      var last := SubmitTo(before.state, delays[|delays| - 1]);
      Decoding(last.state, before.cells + last.cells)
  }

  /** A split stream decodes as its first part, then its second with the state carried across. */
  lemma {:induction false} DecodeSplits(s: PllState, a: seq<U32>, b: seq<U32>)
    requires Steady(s)
    ensures Decode(s, a + b) == Decoding(Decode(Decode(s, a).state, b).state,
                                         Decode(s, a).cells + Decode(Decode(s, a).state, b).cells)
    decreases |b|
  {
    if b == [] {
      assert a + b == a;
    } else {
      var front := b[..|b| - 1];
      DecodeSplits(s, a, front);
      assert (a + b)[..|a + b| - 1] == a + front;
      assert (a + b)[|a + b| - 1] == b[|b| - 1];
    }
  }

  /** Decoding more of a stream only ever adds cells. */
  lemma DecodeGrows(s: PllState, a: seq<U32>, b: seq<U32>)
    requires Steady(s)
    requires a <= b
    ensures Decode(s, a).cells <= Decode(s, b).cells
  {
    assert b == a + b[|a|..];
    DecodeSplits(s, a, b[|a|..]);
  }

  lemma DecodeOne(s: PllState, ns: U32)
    requires Steady(s)
    ensures Decode(s, [ns]) == SubmitTo(s, ns)
  {
    assert [ns][..0] == [];
    SteadyStep(s, ns);
  }

  /** The first delay of a stream, and then the rest with the state it leaves. */
  lemma DecodeFirst(s: PllState, ns: U32, rest: seq<U32>)
    requires Steady(s)
    ensures Steady(SubmitTo(s, ns).state)
    ensures Decode(s, [ns] + rest).cells == SubmitTo(s, ns).cells + Decode(SubmitTo(s, ns).state, rest).cells
  {
    SteadyStep(s, ns);
    DecodeOne(s, ns);
    DecodeSplits(s, [ns], rest);
  }

  // ----- conservation of time -----

  function Total(delays: seq<U32>): nat {
    if delays == [] then 0 else Total(delays[..|delays| - 1]) + delays[|delays| - 1]
  }

  /** One call converts time to cells at 1250 to 2750 ns each, up to the phase it holds. */
  lemma TimeStep(s: PllState, ns: U32)
    requires Steady(s)
    ensures var after := SubmitTo(s, ns);
      1_250 * |after.cells| + after.state.pending <= s.pending + ns
        <= 2_750 * |after.cells| + after.state.pending
  {
    var held := s.pending + ns;
    if held >= s.clock / 2 {
      PhaseBounds(held, s.clock);
      var n := Zeros(held, s.clock) + 1;
      CellsTake(n, s.clock);
    }
  }

  lemma CellsTake(n: int, clock: int)
    requires n >= 1
    requires CLOCK_MIN_NS <= clock <= CLOCK_MAX_NS
    ensures 1_800 * n <= n * clock <= 2_200 * n
  {
    assert n * clock == 1_800 * n + n * (clock - 1_800);
    assert n * clock == 2_200 * n - n * (2_200 - clock);
    assert n * (clock - 1_800) >= 0 && n * (2_200 - clock) >= 0;
  }

  lemma {:induction false} TimeIsHeldOrEmitted(delays: seq<U32>)
    ensures var d := Decode(CENTRED, delays);
      1_250 * |d.cells| + d.state.pending <= Total(delays) <= 2_750 * |d.cells| + d.state.pending
  {
    if delays != [] {
      TimeIsHeldOrEmitted(delays[..|delays| - 1]);
      TimeStep(Decode(CENTRED, delays[..|delays| - 1]).state, delays[|delays| - 1]);
    }
  }

  /** Over any stream at all, the cells emitted account for the time that passed. */
  lemma TimeConserved(delays: seq<U32>)
    ensures var n := |Decode(CENTRED, delays).cells|;
      1_250 * n - 550 <= Total(delays) <= 2_750 * n + 1_099
  {
    TimeIsHeldOrEmitted(delays);
  }

  // ----- lock -----

  /** The region of clock drift and held phase a lock lives in: `slope` couples
      the two, because a clock that lags also accumulates phase. */
  datatype Window = Window(slope: int, drift: int, spread: int)

  predicate InLock(s: PllState, cell: int, w: Window) {
    var x := cell - s.clock;
    -w.drift <= x <= w.drift && -w.spread <= 10 * s.pending - w.slope * x <= w.spread
  }

  /** Five per cent of speed error and 15 ns of noise on every delay. */
  const DRIFTING := Window(14, 100, 3_400)

  /** Nominal speed and 100 ns of noise on every delay. */
  const NOISY := Window(40, 60, 2_750)

  /** The clock correction of a call stays inside the clamp. */
  predicate ClampIdle(s: PllState, ns: U32)
    requires s.clock > 0
  {
    var held := SaturatingAdd(s.pending, ns);
    var zeros := Zeros(held, s.clock);
    CLOCK_MIN_NS <= Corrected(s.clock, zeros, held - (zeros + 1) * s.clock) <= CLOCK_MAX_NS
  }

  lemma ZerosAre(held: int, clock: int, n: nat)
    requires clock > 0 && n >= 1
    requires (n - 1) * clock <= held - clock / 2 < n * clock
    ensures Zeros(held, clock) == n - 1
  {
    QuotientUnique(held - clock / 2, clock, n - 1);
    assert (n - 1) * clock >= 0;
  }

  /** How much noise on a delay each window absorbs, and at which cell lengths. */
  predicate Tolerates(w: Window, cell: int, noise: int) {
    || (w == DRIFTING && 1_900 <= cell <= 2_100 && -15 <= noise <= 15)
    || (w == NOISY && cell == CLOCK_CENTRE_NS && -100 <= noise <= 100)
  }

  /** `n` cells of drift on top of a held phase, for the legal MFM gaps. */
  function Drifted(n: nat, x: int, pending: int): int
    requires 2 <= n <= 4
  {
    pending + if n == 2 then 2 * x else if n == 3 then 3 * x else 4 * x
  }

  /** A phase error shared among the legal numbers of cells. */
  function PerCell(phase: int, n: nat): (share: int)
    requires 2 <= n <= 4
    ensures share == TruncDiv(phase, n)
  {
    if n == 2 then TruncDiv(phase, 2) else if n == 3 then TruncDiv(phase, 3) else TruncDiv(phase, 4)
  }

  lemma DriftingWindow(x: int, pending: int, n: nat, noise: int)
    requires 2 <= n <= 4
    requires -100 <= x <= 100 && -3_400 <= 10 * pending - 14 * x <= 3_400
    requires -15 <= noise <= 15
    ensures var phase := Drifted(n, x, pending) + noise;
      var next := x - TruncDiv(PerCell(phase, n), 10);
      && -900 < phase < 900
      && -100 <= next <= 100
      && -3_400 <= 10 * TruncDiv(phase, 2) - 14 * next <= 3_400
  {
    if n == 2 {
    } else if n == 3 {
    } else {
    }
  }

  lemma NoisyWindow(x: int, pending: int, n: nat, noise: int)
    requires 2 <= n <= 4
    requires -60 <= x <= 60 && -2_750 <= 10 * pending - 40 * x <= 2_750
    requires -100 <= noise <= 100
    ensures var phase := Drifted(n, x, pending) + noise;
      var next := x - TruncDiv(PerCell(phase, n), 10);
      && -900 < phase < 900
      && -60 <= next <= 60
      && -2_750 <= 10 * TruncDiv(phase, 2) - 40 * next <= 2_750
  {
    if n == 2 {
    } else if n == 3 {
    } else {
    }
  }

  lemma DriftedIs(n: nat, cell: int, clock: int, pending: int)
    requires 2 <= n <= 4
    ensures Drifted(n, cell - clock, pending) == pending + n * cell - n * clock
  {
  }

  lemma HalfClock(n: nat, clock: int, held: int)
    requires 2 <= n <= 4
    requires CLOCK_MIN_NS <= clock <= CLOCK_MAX_NS
    requires -900 < held - n * clock < 900
    ensures Zeros(held, clock) == n - 1
    ensures held >= clock / 2
  {
    if n == 2 {
      ZerosAre(held, clock, 2);
    } else if n == 3 {
      ZerosAre(held, clock, 3);
    } else {
      ZerosAre(held, clock, 4);
    }
  }

  /** Inside a window, the phase error stays well short of half a clock, and the
      corrected clock and halved phase fall back inside the window. */
  lemma LockArithmetic(s: PllState, cell: int, n: nat, noise: int, w: Window)
    requires InLock(s, cell, w) && Tolerates(w, cell, noise)
    requires 2 <= n <= 4
    ensures CLOCK_MIN_NS <= s.clock <= CLOCK_MAX_NS
    ensures var phase := Drifted(n, cell - s.clock, s.pending) + noise;
      var clock := s.clock + TruncDiv(PerCell(phase, n), 10);
      && -900 < phase < 900
      && CLOCK_MIN_NS <= clock <= CLOCK_MAX_NS
      && InLock(PllState(clock, TruncDiv(phase, 2)), cell, w)
  {
    if w == DRIFTING {
      DriftingWindow(cell - s.clock, s.pending, n, noise);
    } else {
      NoisyWindow(cell - s.clock, s.pending, n, noise);
    }
  }

  /** What one call does with a delay that falls well within half a clock of `n` cells. */
  lemma SubmitLegal(s: PllState, ns: U32, n: nat, phase: int)
    requires Steady(s) && 2 <= n <= 4
    requires phase == s.pending + ns - n * s.clock && -900 < phase < 900
    ensures SubmitTo(s, ns)
         == Decoding(PllState(Clamp(s.clock + TruncDiv(PerCell(phase, n), 10)), TruncDiv(phase, 2)), Gap(n))
    ensures SubmitTo(s, ns).state.clock == Max(1_800, Min(2_200, s.clock + TruncDiv(TruncDiv(phase, n), 10)))
    ensures ClampIdle(s, ns) <==> Clamp(s.clock + TruncDiv(PerCell(phase, n), 10))
                                  == s.clock + TruncDiv(PerCell(phase, n), 10)
  {
    HalfClock(n, s.clock, s.pending + ns);
    assert Corrected(s.clock, n - 1, phase) == s.clock + TruncDiv(PerCell(phase, n), 10);
  }

  lemma StillLocked(s: PllState, cell: int, n: nat, noise: int, w: Window, phase: int, after: PllState)
    requires InLock(s, cell, w) && Tolerates(w, cell, noise) && 2 <= n <= 4
    requires phase == Drifted(n, cell - s.clock, s.pending) + noise
    requires after == PllState(Clamp(s.clock + TruncDiv(PerCell(phase, n), 10)), TruncDiv(phase, 2))
    ensures -900 < phase < 900
    ensures after.clock == s.clock + TruncDiv(PerCell(phase, n), 10)
    ensures Steady(after) && InLock(after, cell, w)
  {
    LockArithmetic(s, cell, n, noise, w);
  }

  /** A locked PLL reads a delay of `n` cells as `n` cells, and stays locked. */
  lemma LockStep(s: PllState, cell: int, n: nat, ns: U32, w: Window)
    requires Steady(s) && InLock(s, cell, w)
    requires 2 <= n <= 4
    requires Tolerates(w, cell, ns - n * cell)
    ensures var after := SubmitTo(s, ns);
      && after.cells == Gap(n)
      && Steady(after.state) && InLock(after.state, cell, w)
      && ClampIdle(s, ns)
  {
    var phase := s.pending + ns - n * s.clock;
    var after := PllState(Clamp(s.clock + TruncDiv(PerCell(phase, n), 10)), TruncDiv(phase, 2));
    DriftedIs(n, cell, s.clock, s.pending);
    StillLocked(s, cell, n, ns - n * cell, w, phase, after);
    SubmitLegal(s, ns, n, phase);
  }

  /** The cells of a stream of intervals, each given as its number of cells. */
  function Cells(gaps: seq<nat>): (cells: seq<bool>) {
    if gaps == [] then [] else Cells(gaps[..|gaps| - 1]) + Gap(gaps[|gaps| - 1])
  }

  lemma CellsAppend(gaps: seq<nat>, n: nat)
    ensures Cells(gaps + [n]) == Cells(gaps) + Gap(n)
  {
    assert (gaps + [n])[..|gaps|] == gaps;
  }

  /** Delays that measure legal MFM gaps of `cell` ns each, within the window's noise. */
  predicate Measures(delays: seq<U32>, gaps: seq<nat>, cell: int, w: Window) {
    && |delays| == |gaps|
    && forall k :: 0 <= k < |gaps| ==>
        2 <= gaps[k] <= 4 && Tolerates(w, cell, delays[k] - gaps[k] * cell)
  }

  lemma {:induction false} LockHolds(s: PllState, delays: seq<U32>, gaps: seq<nat>, cell: int, w: Window)
    requires Steady(s) && InLock(s, cell, w)
    requires Measures(delays, gaps, cell, w)
    ensures Decode(s, delays).cells == Cells(gaps)
    ensures InLock(Decode(s, delays).state, cell, w)
    decreases |delays|
  {
    if delays != [] {
      var last := |delays| - 1;
      LockHolds(s, delays[..last], gaps[..last], cell, w);
      LockStep(Decode(s, delays[..last]).state, cell, gaps[last], delays[last], w);
    }
  }

  lemma LockNeverClamps(s: PllState, delays: seq<U32>, gaps: seq<nat>, cell: int, w: Window, k: nat)
    requires Steady(s) && InLock(s, cell, w)
    requires Measures(delays, gaps, cell, w)
    requires k < |delays|
    ensures ClampIdle(Decode(s, delays[..k]).state, delays[k])
  {
    LockHolds(s, delays[..k], gaps[..k], cell, w);
    LockStep(Decode(s, delays[..k]).state, cell, gaps[k], delays[k], w);
  }

  /** PLL lock: from reset, any disk within five per cent of nominal speed, with
      15 ns of noise on every delay and any number of legal MFM intervals,
      decodes without a single slipped cell, and the clock never meets its limits. */
  lemma LocksFromReset(delays: seq<U32>, gaps: seq<nat>, cell: int)
    requires 1_900 <= cell <= 2_100
    requires |delays| == |gaps|
    requires forall k :: 0 <= k < |gaps| ==>
        2 <= gaps[k] <= 4 && -15 <= delays[k] - gaps[k] * cell <= 15
    ensures Decode(CENTRED, delays).cells == Cells(gaps)
    ensures forall k :: 0 <= k < |delays| ==> ClampIdle(Decode(CENTRED, delays[..k]).state, delays[k])
  {
    LockHolds(CENTRED, delays, gaps, cell, DRIFTING);
    forall k | 0 <= k < |delays|
      ensures ClampIdle(Decode(CENTRED, delays[..k]).state, delays[k])
    {
      LockNeverClamps(CENTRED, delays, gaps, cell, DRIFTING, k);
    }
  }

  // ----- a stream that begins in the middle of an interval -----

  /** A region of drift and held phase wider than a window. */
  predicate Reach(x: int, pending: int) {
    && -500 <= pending <= 500
    && -880 <= pending + 4 * x <= 880
    && -2_900 <= pending - 20 * x <= 2_900
    && -4_200 <= pending + 30 * x <= 4_200
  }

  /** From there the PLL still reads every interval right, at a speed within three and
      a half per cent of nominal. */
  predicate Catching(s: PllState, cell: int) {
    1_930 <= cell <= 2_070 && Reach(cell - s.clock, s.pending)
  }

  lemma ReachAfterTwo(x: int, pending: int, noise: int)
    requires Reach(x, pending) && -15 <= noise <= 15
    ensures var phase := pending + 2 * x + noise;
      -900 < phase < 900 && Reach(x - TruncDiv(TruncDiv(phase, 2), 10), TruncDiv(phase, 2))
  {
  }

  lemma ReachAfterThree(x: int, pending: int, noise: int)
    requires Reach(x, pending) && -15 <= noise <= 15
    ensures var phase := pending + 3 * x + noise;
      -900 < phase < 900 && Reach(x - TruncDiv(TruncDiv(phase, 3), 10), TruncDiv(phase, 2))
  {
  }

  lemma ReachAfterFour(x: int, pending: int, noise: int)
    requires Reach(x, pending) && -15 <= noise <= 15
    ensures var phase := pending + 4 * x + noise;
      -900 < phase < 900 && Reach(x - TruncDiv(TruncDiv(phase, 4), 10), TruncDiv(phase, 2))
  {
  }

  lemma ReachKept(x: int, pending: int, n: nat, noise: int, phase: int, next: int, held: int)
    requires 2 <= n <= 4
    requires Reach(x, pending) && -15 <= noise <= 15
    requires phase == Drifted(n, x, pending) + noise
    requires next == x - TruncDiv(PerCell(phase, n), 10) && held == TruncDiv(phase, 2)
    ensures -900 < phase < 900 && Reach(next, held)
  {
    if n == 2 {
      ReachAfterTwo(x, pending, noise);
    } else if n == 3 {
      ReachAfterThree(x, pending, noise);
    } else {
      ReachAfterFour(x, pending, noise);
    }
  }

  /** The clamp only ever brings the clock closer to the cell. */
  lemma ClampCatches(clock: int, next: int, held: int, cell: int)
    requires 1_930 <= cell <= 2_070 && next == cell - clock && Reach(next, held)
    ensures var after := PllState(Clamp(clock), held); Catching(after, cell) && Steady(after)
  {
  }

  lemma StillCatching(s: PllState, cell: int, n: nat, noise: int, phase: int, after: PllState)
    requires Catching(s, cell) && -15 <= noise <= 15 && 2 <= n <= 4
    requires phase == Drifted(n, cell - s.clock, s.pending) + noise
    requires after == PllState(Clamp(s.clock + TruncDiv(PerCell(phase, n), 10)), TruncDiv(phase, 2))
    ensures -900 < phase < 900
    ensures Steady(after) && Catching(after, cell)
  {
    var clock, held := s.clock + TruncDiv(PerCell(phase, n), 10), TruncDiv(phase, 2);
    ReachKept(cell - s.clock, s.pending, n, noise, phase, cell - clock, held);
    ClampCatches(clock, cell - clock, held, cell);
  }

  lemma CatchStep(s: PllState, cell: int, n: nat, ns: U32)
    requires Steady(s) && Catching(s, cell)
    requires 2 <= n <= 4 && -15 <= ns - n * cell <= 15
    ensures var after := SubmitTo(s, ns);
      after.cells == Gap(n) && Steady(after.state) && Catching(after.state, cell)
  {
    var phase := s.pending + ns - n * s.clock;
    var after := PllState(Clamp(s.clock + TruncDiv(PerCell(phase, n), 10)), TruncDiv(phase, 2));
    DriftedIs(n, cell, s.clock, s.pending);
    StillCatching(s, cell, n, ns - n * cell, phase, after);
    SubmitLegal(s, ns, n, phase);
  }

  lemma {:induction false} CatchHolds(s: PllState, delays: seq<U32>, gaps: seq<nat>, cell: int)
    requires Steady(s) && Catching(s, cell)
    requires Measures(delays, gaps, cell, DRIFTING)
    ensures Decode(s, delays).cells == Cells(gaps) && Catching(Decode(s, delays).state, cell)
    decreases |delays|
  {
    if delays != [] {
      var last := |delays| - 1;
      CatchHolds(s, delays[..last], gaps[..last], cell);
      CatchStep(Decode(s, delays[..last]).state, cell, gaps[last], delays[last]);
    }
  }

  /** Whatever a first delay is left of an interval, it leaves the PLL catching, unless
      it is between a quarter and half of a cell. */
  lemma FirstDelayCatches(first: U32, cell: int)
    requires 1_930 <= cell <= 2_070
    requires first <= 500 || first >= 1_000
    ensures Catching(SubmitTo(CENTRED, first).state, cell)
  {
    if first >= 1_000 {
      var zeros := Zeros(first, CLOCK_CENTRE_NS);
      var phase := first - (zeros + 1) * CLOCK_CENTRE_NS;
      PhaseBounds(first, CLOCK_CENTRE_NS);
      CaughtPhase(zeros, phase, cell);
      Emitted(first);
    }
  }

  lemma Emitted(first: U32)
    requires first >= 1_000
    ensures var zeros := Zeros(first, CLOCK_CENTRE_NS);
      var phase := first - (zeros + 1) * CLOCK_CENTRE_NS;
      SubmitTo(CENTRED, first).state
        == PllState(Clamp(Corrected(CLOCK_CENTRE_NS, zeros, phase)), TruncDiv(phase, 2))
  {
    assert SaturatingAdd(CENTRED.pending, first) == first && TruncDiv(CLOCK_CENTRE_NS, 2) == 1_000;
  }

  lemma CaughtPhase(zeros: nat, phase: int, cell: int)
    requires 1_930 <= cell <= 2_070 && -1_000 <= phase < 1_000
    ensures Catching(PllState(Clamp(Corrected(CLOCK_CENTRE_NS, zeros, phase)), TruncDiv(phase, 2)), cell)
  {
    if zeros == 1 {
    } else if zeros == 2 {
    } else if zeros == 3 {
    } else {
    }
  }

  /** Such a remainder is held back in full, and can make the next interval read as one
      cell more: here four cells of 2070 ns as five. */
  lemma QuarterCellMisleads()
    ensures Decode(CENTRED, [999, 8_280]).cells == Gap(5)
  {
    DecodeFirst(CENTRED, 999, [8_280]);
    DecodeOne(SubmitTo(CENTRED, 999).state, 8_280);
    ZerosAre(9_279, CLOCK_CENTRE_NS, 5);
  }

  // ----- an interval of one cell at either end -----

  /** The first interval may be a single cell: the PLL is in lock after it. */
  lemma FirstCell(ns: U32)
    requires Tolerates(NOISY, CLOCK_CENTRE_NS, ns - CLOCK_CENTRE_NS)
    ensures var after := SubmitTo(CENTRED, ns);
      after.cells == Gap(1) && Steady(after.state) && InLock(after.state, CLOCK_CENTRE_NS, NOISY)
  {
    ZerosAre(ns, CLOCK_CENTRE_NS, 1);
  }

  /** So may the last, from anywhere in lock. */
  lemma LastCell(s: PllState, ns: U32)
    requires Steady(s) && InLock(s, CLOCK_CENTRE_NS, NOISY)
    requires Tolerates(NOISY, CLOCK_CENTRE_NS, ns - CLOCK_CENTRE_NS)
    ensures SubmitTo(s, ns).cells == Gap(1)
  {
    ZerosAre(s.pending + ns, s.clock, 1);
  }

  /** Intervals of two to four cells, but for the ends, which may be a single one. */
  predicate LegalGaps(gaps: seq<nat>) {
    forall k :: 0 <= k < |gaps| ==> 1 <= gaps[k] <= 4 && (0 < k < |gaps| - 1 ==> gaps[k] >= 2)
  }

  /** At nominal speed, such intervals decode exactly through 100 ns of noise. */
  lemma {:induction false} LegalGapsLock(delays: seq<U32>, gaps: seq<nat>, k: nat)
    requires |delays| == |gaps| && k <= |gaps| && LegalGaps(gaps)
    requires forall i :: 0 <= i < |gaps| ==> Tolerates(NOISY, CLOCK_CENTRE_NS, delays[i] - gaps[i] * CLOCK_CENTRE_NS)
    ensures Decode(CENTRED, delays[..k]).cells == Cells(gaps[..k])
    ensures k < |gaps| ==> InLock(Decode(CENTRED, delays[..k]).state, CLOCK_CENTRE_NS, NOISY)
    decreases k
  {
    if k > 0 {
      var last := k - 1;
      LegalGapsLock(delays, gaps, last);
      assert delays[..k][..last] == delays[..last] && gaps[..k][..last] == gaps[..last];
      var before := Decode(CENTRED, delays[..last]).state;
      if gaps[last] >= 2 {
        LockStep(before, CLOCK_CENTRE_NS, gaps[last], delays[last], NOISY);
      } else if last == 0 {
        FirstCell(delays[0]);
      } else {
        LastCell(before, delays[last]);
      }
    }
  }

  // ----- the nominal cell -----

  /** At exactly the nominal cell the PLL never moves, whatever the gaps. */
  lemma NominalStep(n: nat, ns: U32)
    requires n >= 1
    requires ns == n * CLOCK_CENTRE_NS
    ensures SubmitTo(CENTRED, ns) == Decoding(CENTRED, Gap(n))
  {
    ZerosAre(ns, CLOCK_CENTRE_NS, n);
  }

  lemma {:induction false} NominalDecodes(delays: seq<U32>, gaps: seq<nat>)
    requires |delays| == |gaps|
    requires forall k :: 0 <= k < |gaps| ==> gaps[k] >= 1 && delays[k] == gaps[k] * CLOCK_CENTRE_NS
    ensures Decode(CENTRED, delays) == Decoding(CENTRED, Cells(gaps))
    decreases |delays|
  {
    if delays != [] {
      var last := |delays| - 1;
      NominalDecodes(delays[..last], gaps[..last]);
      NominalStep(gaps[last], delays[last]);
    }
  }

  // ----- any delay -----

  /** Any delay is taken for the nearest number of cells, but at least one; half of the
      mismatch is kept for the next, and a delay of less than half a cell, whole. */
  lemma NearestCells(s: PllState, ns: U32)
    requires Steady(s)
    ensures var after, held := SubmitTo(s, ns), s.pending + ns;
      var phase := held - |after.cells| * s.clock;
      if after.cells == [] then after.state == PllState(s.clock, held) && held < s.clock / 2
      else
        && after.cells == Gap(|after.cells|) && held >= s.clock / 2
        && -s.clock <= 2 * phase + 1 <= s.clock
        && after.state.pending == (if phase >= 0 then phase / 2 else -((-phase) / 2))
  {
    var held := s.pending + ns;
    if held >= s.clock / 2 {
      PhaseBounds(held, s.clock);
    }
  }

  // ----- gaps that are not MFM -----

  /** How far the clock is off the nominal cell. */
  function OffCentre(s: PllState): nat {
    if s.clock < 2_000 then 2_000 - s.clock else s.clock - 2_000
  }

  lemma TenthLess(off: int)
    ensures var next := off + TruncDiv(-off, 10);
      && (off >= 0 ==> 9 * off <= 10 * next <= 9 * off + 9)
      && (off <= 0 ==> 9 * off - 9 <= 10 * next <= 9 * off)
  {
  }

  /** An interval that is none of 2, 3 or 4 cells says nothing of the speed: the clock
      goes back a tenth of the way to nominal, rounded short, on the side where it was. */
  lemma OtherGapsRelax(s: PllState, ns: U32)
    requires Steady(s)
    ensures var after := SubmitTo(s, ns);
      after.cells != [] && !(2 <= |after.cells| <= 4) ==>
        && 9 * OffCentre(s) <= 10 * OffCentre(after.state) <= 9 * OffCentre(s) + 9
        && (s.clock <= 2_000 ==> after.state.clock <= 2_000) && (s.clock >= 2_000 ==> after.state.clock >= 2_000)
  {
    var held := s.pending + ns;
    if held >= s.clock / 2 {
      PhaseBounds(held, s.clock);
      TenthLess(s.clock - 2_000);
    }
  }

  /** Nothing of 11 microseconds or more is taken for a legal gap. */
  lemma LongGapIsOther(s: PllState, ns: U32)
    requires Steady(s) && ns >= 11_000
    ensures |SubmitTo(s, ns).cells| >= 5
  {
    var held := s.pending + ns;
    QuotientBrackets(held - s.clock / 2, s.clock);
    CellsTake(Zeros(held, s.clock) + 1, s.clock);
  }

  /** However far off, the clock is back within 9 ns of nominal after 191 long gaps, and
      never gets further off on the way. */
  lemma {:induction false} LongGapsRelax(s: PllState, delays: seq<U32>)
    requires Steady(s) && forall k :: 0 <= k < |delays| ==> delays[k] >= 11_000
    ensures OffCentre(Decode(s, delays).state) <= Max(9, OffCentre(s) - |delays|)
    ensures OffCentre(s) <= 200
  {
    if delays != [] {
      var last := |delays| - 1;
      LongGapsRelax(s, delays[..last]);
      LongGapIsOther(Decode(s, delays[..last]).state, delays[last]);
      OtherGapsRelax(Decode(s, delays[..last]).state, delays[last]);
    }
  }
}
