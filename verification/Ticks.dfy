/** The Greaseweazle flux code: device ticks as zero-free bytes, and the token
    stream read back as flux events. */
module Ticks {
  import opened Common
  import opened Pll

  const SECOND_NS := 1_000_000_000
  const TICK_LIMIT := 0x1000_0000 + 249

  function SaturatingTicks(a: U32, b: nat): U32 {
    Min(a + b, U32_MAX)
  }

  // ----- encoding -----

  /** `encode_28bit`: seven bits a byte, each with its low bit forced to one. */
  function Encode28(value: U32): (bytes: seq<Byte>)
    ensures |bytes| == 4
    ensures forall k :: 0 <= k < 4 ==> bytes[k] % 2 == 1
  {
    [1 + (value * 2) % 256 / 2 * 2,
     1 + (value / 64) % 256 / 2 * 2,
     1 + (value / 8_192) % 256 / 2 * 2,
     1 + (value / 1_048_576) % 256 / 2 * 2]
  }

  function EncodeTicks(ticks: U32): (bytes: seq<Byte>)
    ensures ticks > 0 ==> 0 !in bytes
    ensures bytes != []
  {
    if ticks < 250 then [ticks]
    else
      var high := (ticks - 250) / 255;
      if high < 5 then [250 + high, 1 + (ticks - 250) % 255]
      else [255, 2] + Encode28(ticks - 249) + [249]
  }

  method PushTicks(ticks: U32, output: seq<Byte>) returns (extended: seq<Byte>)
    ensures extended == output + EncodeTicks(ticks)
  {
    if ticks < 250 {
      extended := output + [ticks];
      return;
    }
    var high := (ticks - 250) / 255;
    if high < 5 {
      extended := output + [250 + high];
      extended := extended + [1 + (ticks - 250) % 255];
    } else {
      extended := output + [255, 2];
      extended := extended + Encode28(ticks - 249);
      extended := extended + [249];
    }
  }

  // ----- decoding -----

  /** The seven payload bits of a byte of a 28-bit value. */
  function Payload(byte: Byte): nat {
    (byte as int) / 2
  }

  /** The ticks a two-byte interval adds: an extension of 255-tick steps. */
  function Extended(byte: Byte, low: Byte): nat
    requires byte >= 250
  {
    250 + (byte as int - 250) * 255 + Max(low as int - 1, 0)
  }

  /** `read_28bit`, on the four bytes at the front of the queue. */
  function Read28(bytes: seq<Byte>): (value: U32)
    requires |bytes| == 4
    ensures value < 0x1000_0000
  {
    (Payload(bytes[0]) * 0x2 + Payload(bytes[1]) * 0x100
      + Payload(bytes[2]) * 0x8000 + Payload(bytes[3]) * 0x40_0000) / 2
  }

  datatype Token = Index | Space(ticks: U32) | Astable | Interval(ticks: U32)

  datatype Lexeme = End | Truncated | Lexed(token: Token, used: nat)

  /** The first token of a queue of bytes, and how many bytes it takes. */
  function Lex(queue: seq<Byte>): (lexeme: Lexeme)
    ensures lexeme.End? <==> queue == []
    ensures lexeme.Lexed? ==> 1 <= lexeme.used <= |queue|
  {
    if queue == [] then End
    else if queue[0] == 255 then
      if |queue| < 2 then Truncated
      else if queue[1] == 1 then
        if |queue| < 6 then Truncated else Lexed(Index, 6)
      else if queue[1] == 2 then
        if |queue| < 6 then Truncated else Lexed(Space(Read28(queue[2..6])), 6)
      else if queue[1] == 3 then
        if |queue| < 3 then Truncated else Lexed(Astable, 3)
      else Truncated
    else if queue[0] < 250 then Lexed(Interval(queue[0]), 1)
    else if |queue| < 2 then Truncated
    else Lexed(Interval(Extended(queue[0], queue[1])), 2)
  }

  /** What the decoder carries from one token to the next. */
  datatype Carry = Carry(ticks: U32, index: bool)

  const FRESH := Carry(0, false)

  /** The events of a stretch of stream and what is carried past its end. */
  datatype Run = Run(events: seq<FluxEvent>, carry: Carry)

  function Nanoseconds(ticks: U32, frequency: U32): nat
    requires frequency > 0
  {
    (ticks * SECOND_NS + frequency / 2) / frequency
  }

  function Prepend(events: seq<FluxEvent>, r: Result<Run>): Result<Run> {
    match r
    case Ok(run) => Ok(Run(events + run.events, run.carry))
    case Err(e) => Err(e)
  }

  /** `decode_stream` from any point of a stream. */
  function DecodeRun(queue: seq<Byte>, carry: Carry, frequency: U32): (r: Result<Run>)
    requires frequency > 0
    ensures r.Err? ==> r.error == Protocol
    decreases |queue|
  {
    match Lex(queue)
    case End => Ok(Run([], carry))
    case Truncated => Err(Protocol)
    case Lexed(token, used) =>
      match token
      case Index => DecodeRun(queue[used..], carry.(index := true), frequency)
      case Space(n) =>
        DecodeRun(queue[used..], carry.(ticks := SaturatingTicks(carry.ticks, n)), frequency)
      case Astable => DecodeRun(queue[used..], carry, frequency)
      case Interval(n) =>
        var ns := Nanoseconds(SaturatingTicks(carry.ticks, n), frequency);
        if ns > U32_MAX then Err(Protocol)
        else Prepend([FluxEvent(ns, carry.index)], DecodeRun(queue[used..], FRESH, frequency))
  }

  function DecodeStream(bytes: seq<Byte>, frequency: U32): (r: Result<seq<FluxEvent>>)
    requires frequency > 0
    ensures r.Err? ==> r.error == Protocol
  {
    match DecodeRun(bytes, FRESH, frequency)
    case Ok(run) => Ok(run.events)
    case Err(e) => Err(e)
  }

  lemma PrependPrepend(a: seq<FluxEvent>, b: seq<FluxEvent>, r: Result<Run>)
    ensures Prepend(a, Prepend(b, r)) == Prepend(a + b, r)
    ensures Prepend([], r) == r
  {
    if r.Ok? {
      assert a + (b + r.value.events) == (a + b) + r.value.events;
      assert [] + r.value.events == r.value.events;
    }
  }

  /** `decode_stream`: pops the byte queue one token at a time. */
  method DecodeQueue(bytes: seq<Byte>, frequency: U32) returns (r: Result<seq<FluxEvent>>)
    requires frequency > 0
    ensures r == DecodeStream(bytes, frequency)
  {
    var queue := bytes;
    var ticks: U32 := 0;
    var index := false;
    var events: seq<FluxEvent> := [];
    PrependPrepend([], [], DecodeRun(bytes, FRESH, frequency));
    while queue != []
      invariant DecodeRun(bytes, FRESH, frequency)
             == Prepend(events, DecodeRun(queue, Carry(ticks, index), frequency))
      decreases |queue|
    {
      ghost var before := queue;
      var byte := queue[0];
      queue := queue[1..];
      if byte == 255 {
        if queue == [] {
          return Err(Protocol);
        }
        var opcode := queue[0];
        queue := queue[1..];
        if opcode == 1 {
          var offset;
          offset, queue := PopRead28(queue);
          if offset.None? {
            return Err(Protocol);
          }
          assert queue == before[6..];
          index := true;
        } else if opcode == 2 {
          var space;
          space, queue := PopRead28(queue);
          if space.None? {
            return Err(Protocol);
          }
          assert queue == before[6..] && before[2..][..4] == before[2..6];
          ticks := SaturatingTicks(ticks, space.value);
        } else if opcode == 3 {
          if queue == [] {
            return Err(Protocol);
          }
          queue := queue[1..];
          assert queue == before[3..];
        } else {
          return Err(Protocol);
        }
        continue;
      }
      if byte < 250 {
        ticks := SaturatingTicks(ticks, byte);
      } else {
        if queue == [] {
          return Err(Protocol);
        }
        var low := queue[0];
        queue := queue[1..];
        assert queue == before[2..];
        ticks := SaturatingTicks(ticks, Extended(byte, low));
      }
      var nanoseconds := Nanoseconds(ticks, frequency);
      if nanoseconds > U32_MAX {
        return Err(Protocol);
      }
      PrependPrepend(events, [FluxEvent(nanoseconds, index)], DecodeRun(queue, FRESH, frequency));
      events := events + [FluxEvent(nanoseconds, index)];
      ticks := 0;
      index := false;
    }
    assert events + [] == events;
    return Ok(events);
  }

  /** `read_28bit`: pops four bytes, seven bits from each. */
  method PopRead28(queue: seq<Byte>) returns (value: Option<U32>, rest: seq<Byte>)
    ensures value.None? <==> |queue| < 4
    ensures value.Some? ==> value.value == Read28(queue[..4]) && rest == queue[4..]
  {
    rest := queue;
    var sum: int := 0;
    var weight: int := 2;
    for popped := 0 to 4
      invariant popped <= |queue| && rest == queue[popped..]
      invariant weight == [2, 0x100, 0x8000, 0x40_0000, 0x2000_0000][popped]
      invariant sum == (if popped > 0 then Payload(queue[0]) * 0x2 else 0)
                     + (if popped > 1 then Payload(queue[1]) * 0x100 else 0)
                     + (if popped > 2 then Payload(queue[2]) * 0x8000 else 0)
                     + (if popped > 3 then Payload(queue[3]) * 0x40_0000 else 0)
    {
      if rest == [] {
        return None, rest;
      }
      sum := sum + Payload(rest[0]) * weight;
      rest := rest[1..];
      weight := weight * 128;
    }
    value := Some(sum / 2);
  }

  // ----- decoding is incremental -----

  /** A token that is complete stays the same whatever follows it. */
  lemma LexStable(a: seq<Byte>, b: seq<Byte>)
    requires Lex(a).Lexed?
    ensures Lex(a + b) == Lex(a)
    ensures (a + b)[Lex(a).used..] == a[Lex(a).used..] + b
  {
    var ab := a + b;
    assert ab[0] == a[0];
    if |a| >= 6 {
      assert ab[2..6] == a[2..6];
    }
  }

  /** A stretch that decodes hands its carry to whatever follows it. */
  lemma {:induction false} DecodeSplits(a: seq<Byte>, b: seq<Byte>, carry: Carry, frequency: U32)
    requires frequency > 0
    requires DecodeRun(a, carry, frequency).Ok?
    ensures var first := DecodeRun(a, carry, frequency).value;
      DecodeRun(a + b, carry, frequency)
        == Prepend(first.events, DecodeRun(b, first.carry, frequency))
    decreases |a|
  {
    if a == [] {
      assert a + b == b;
      PrependPrepend([], [], DecodeRun(b, carry, frequency));
    } else {
      LexStable(a, b);
      var Lexed(token, used) := Lex(a);
      match token
      case Index => DecodeSplits(a[used..], b, carry.(index := true), frequency);
      case Space(n) =>
        DecodeSplits(a[used..], b, carry.(ticks := SaturatingTicks(carry.ticks, n)), frequency);
      case Astable => DecodeSplits(a[used..], b, carry, frequency);
      case Interval(n) =>
        DecodeSplits(a[used..], b, FRESH, frequency);
        var ns := Nanoseconds(SaturatingTicks(carry.ticks, n), frequency);
        var rest := DecodeRun(a[used..], FRESH, frequency).value;
        PrependPrepend([FluxEvent(ns, carry.index)], rest.events, DecodeRun(b, rest.carry, frequency));
    }
  }

  /** A byte prefix that decodes yields a prefix of the whole stream's events. */
  lemma EventsGrow(a: seq<Byte>, whole: seq<Byte>, frequency: U32)
    requires frequency > 0
    requires a <= whole
    requires DecodeStream(a, frequency).Ok? && DecodeStream(whole, frequency).Ok?
    ensures DecodeStream(a, frequency).value <= DecodeStream(whole, frequency).value
  {
    assert whole == a + whole[|a|..];
    DecodeSplits(a, whole[|a|..], FRESH, frequency);
  }

  // ----- round trip -----

  /** A 28-bit value is its four groups of seven bits. */
  lemma SevenBitGroups(value: nat)
    ensures value % 0x1000_0000
         == value % 128 + value / 128 % 128 * 128 + value / 16_384 % 128 * 16_384
          + value / 2_097_152 % 128 * 2_097_152
  {
    var q1 := value / 128;
    var q2 := q1 / 128;
    var q3 := q2 / 128;
    assert q2 == value / 16_384;
    assert q3 == value / 2_097_152;
    assert q3 / 128 == value / 0x1000_0000;
  }

  lemma GroupPayload(part: nat)
    ensures 1 + part % 256 / 2 * 2 < 256
    ensures Payload(1 + part % 256 / 2 * 2) == part / 2 % 128
  {
  }

  lemma EncodedGroups(value: U32)
    ensures var b := Encode28(value);
      && Payload(b[0]) == value % 128
      && Payload(b[1]) == value / 128 % 128
      && Payload(b[2]) == value / 16_384 % 128
      && Payload(b[3]) == value / 2_097_152 % 128
  {
    GroupPayload(value * 2);
    GroupPayload(value / 64);
    GroupPayload(value / 8_192);
    GroupPayload(value / 1_048_576);
    assert value / 64 / 2 == value / 128;
    assert value / 8_192 / 2 == value / 16_384;
    assert value / 1_048_576 / 2 == value / 2_097_152;
  }

  lemma Read28Encode28(value: U32)
    ensures Read28(Encode28(value)) == value % 0x1000_0000
  {
    EncodedGroups(value);
    SevenBitGroups(value);
  }

  /** The ticks the tokens of one encoded interval add up to. */
  function TickSum(ticks: U32): U32
  {
    if ticks < 1_525 then ticks else 249 + (ticks - 249) % 0x1000_0000
  }

  /** How one encoded interval is read: directly, or as a space and then an interval. */
  lemma TicksLex(ticks: U32, rest: seq<Byte>)
    ensures var queue := EncodeTicks(ticks) + rest;
      if ticks < 1_525 then
        && Lex(queue) == Lexed(Interval(ticks), |EncodeTicks(ticks)|)
        && queue[|EncodeTicks(ticks)|..] == rest
      else
        && Lex(queue) == Lexed(Space((ticks - 249) % 0x1000_0000), 6)
        && queue[6..] == [249] + rest
  {
    var code := EncodeTicks(ticks);
    var queue := code + rest;
    assert queue[|code|..] == rest;
    if ticks < 250 {
      assert queue[0] == ticks;
    } else if ticks < 1_525 {
      var high := (ticks - 250) / 255;
      assert high < 5;
      assert queue[0] == 250 + high && queue[1] == 1 + (ticks - 250) % 255;
      assert Extended(queue[0], queue[1]) == ticks;
    } else {
      var space := Encode28(ticks - 249);
      assert (ticks - 250) / 255 >= 5;
      assert queue == [255, 2] + space + [249] + rest;
      assert queue[2..6] == space;
      Read28Encode28(ticks - 249);
    }
  }

  /** One encoded interval decodes to one event, in any of its three forms, with
      whatever was carried up to it. */
  lemma TicksDecode(ticks: U32, rest: seq<Byte>, carry: Carry, frequency: U32)
    requires frequency > 0
    ensures var ns := Nanoseconds(SaturatingTicks(carry.ticks, TickSum(ticks)), frequency);
      DecodeRun(EncodeTicks(ticks) + rest, carry, frequency)
        == if ns > U32_MAX then Err(Protocol)
           else Prepend([FluxEvent(ns, carry.index)], DecodeRun(rest, FRESH, frequency))
  {
    TicksLex(ticks, rest);
    if ticks >= 1_525 {
      var middle := [249] + rest;
      assert middle[0] == 249 && middle[1..] == rest;
      assert Lex(middle) == Lexed(Interval(249), 1);
    }
  }

  lemma SumIsWhole(ticks: U32)
    requires ticks < TICK_LIMIT
    ensures TickSum(ticks) == ticks
  {
  }

  lemma OneInterval(ticks: U32, frequency: U32)
    requires frequency > 0
    ensures var ns := Nanoseconds(TickSum(ticks), frequency);
      DecodeRun(EncodeTicks(ticks), FRESH, frequency)
        == if ns > U32_MAX then Err(Protocol) else Ok(Run([FluxEvent(ns, false)], FRESH))
  {
    TicksDecode(ticks, [], FRESH, frequency);
    assert EncodeTicks(ticks) + [] == EncodeTicks(ticks);
    assert forall ns: U32 :: [FluxEvent(ns, false)] + [] == [FluxEvent(ns, false)];
  }

  lemma QuotientGrows(a: nat, b: nat, d: nat)
    requires d > 0 && b >= a + d
    ensures a / d < b / d
  {
    QuotientBrackets(a, d);
    QuotientBrackets(b, d);
    var q := b / d - a / d;
    assert (q + 1) * d == (b / d + 1) * d - (a / d) * d;
    assert (q + 1) * d > d;
  }

  /** Losing the top of a tick count always shows in its time. */
  lemma FewerTicksAreShorter(fewer: U32, more: U32, frequency: U32)
    requires frequency > 0 && fewer + 0x1000_0000 <= more
    ensures Nanoseconds(fewer, frequency) < Nanoseconds(more, frequency)
  {
    QuotientGrows(fewer * SECOND_NS + frequency / 2, more * SECOND_NS + frequency / 2, frequency);
  }

  /** An encoded interval decodes to its own time exactly when it is below the
      code's limit. */
  lemma TicksExact(ticks: U32, frequency: U32)
    requires frequency > 0 && Nanoseconds(ticks, frequency) <= U32_MAX
    ensures DecodeRun(EncodeTicks(ticks), FRESH, frequency)
              == Ok(Run([FluxEvent(Nanoseconds(ticks, frequency), false)], FRESH))
            <==> ticks < TICK_LIMIT
  {
    OneInterval(ticks, frequency);
    var sum: U32 := TickSum(ticks);
    if ticks >= TICK_LIMIT {
      FewerTicksAreShorter(sum, ticks, frequency);
    } else {
      SumIsWhole(ticks);
    }
  }

  /** At the limit itself, all but the last 249 ticks are lost. */
  lemma TicksLostAtLimit(frequency: U32)
    requires frequency > 0 && Nanoseconds(TICK_LIMIT, frequency) <= U32_MAX
    ensures Nanoseconds(249, frequency) < Nanoseconds(TICK_LIMIT, frequency)
    ensures DecodeRun(EncodeTicks(TICK_LIMIT), FRESH, frequency)
         == Ok(Run([FluxEvent(Nanoseconds(249, frequency), false)], FRESH))
  {
    FewerTicksAreShorter(249, TICK_LIMIT, frequency);
    OneInterval(TICK_LIMIT, frequency);
  }

  function EncodeAll(ticks: seq<U32>): (bytes: seq<Byte>) {
    if ticks == [] then [] else EncodeTicks(ticks[0]) + EncodeAll(ticks[1..])
  }

  /** Events at the decoded times of `ticks`, with no index mark. */
  function EventsOf(ticks: seq<U32>, frequency: U32): (events: seq<FluxEvent>)
    requires frequency > 0
    requires forall k :: 0 <= k < |ticks| ==> Nanoseconds(ticks[k], frequency) <= U32_MAX
    ensures |events| == |ticks|
  {
    seq(|ticks|, k requires 0 <= k < |ticks| => FluxEvent(Nanoseconds(ticks[k], frequency), false))
  }

  /** The code never emits the byte that terminates a stream. */
  lemma {:induction false} ZeroFree(ticks: seq<U32>)
    requires forall k :: 0 <= k < |ticks| ==> ticks[k] > 0
    ensures 0 !in EncodeAll(ticks)
  {
    if ticks != [] {
      ZeroFree(ticks[1..]);
    }
  }

  /** Any sequence of intervals below the limit survives its encoding. */
  lemma {:induction false} TicksRoundTrip(ticks: seq<U32>, frequency: U32)
    requires frequency > 0
    requires forall k :: 0 <= k < |ticks| ==> ticks[k] < TICK_LIMIT
    requires forall k :: 0 <= k < |ticks| ==> Nanoseconds(ticks[k], frequency) <= U32_MAX
    ensures DecodeRun(EncodeAll(ticks), FRESH, frequency) == Ok(Run(EventsOf(ticks, frequency), FRESH))
  {
    if ticks != [] {
      var t := ticks[0];
      TicksRoundTrip(ticks[1..], frequency);
      TicksDecode(t, EncodeAll(ticks[1..]), FRESH, frequency);
      SumIsWhole(t);
      assert EventsOf(ticks, frequency)
          == [FluxEvent(Nanoseconds(t, frequency), false)] + EventsOf(ticks[1..], frequency);
    }
  }

  // ----- the device clock -----

  /** `write_stream`: a delay in device ticks, rounded, and never zero. */
  function TicksOf(nanoseconds: U32, frequency: U32): (ticks: nat)
    ensures ticks >= 1
  {
    Max((nanoseconds * frequency + 500_000_000) / SECOND_NS, 1)
  }

  /** A delay of at least half a tick comes back from the device clock within
      half a tick and half a nanosecond of what was asked for. */
  lemma ClockError(ns: U32, frequency: U32)
    requires frequency > 0
    requires ns * frequency >= 500_000_000
    requires TicksOf(ns, frequency) <= U32_MAX
    ensures var back := Nanoseconds(TicksOf(ns, frequency), frequency);
      -(SECOND_NS + frequency) <= 2 * frequency * (back - ns) <= SECOND_NS + frequency
  {
    var ticks := TicksOf(ns, frequency);
    var back := Nanoseconds(ticks, frequency);
    QuotientBrackets(ns * frequency + 500_000_000, SECOND_NS);
    QuotientBrackets(ticks * SECOND_NS + frequency / 2, frequency);
    assert back * frequency <= ticks * SECOND_NS + frequency / 2 < back * frequency + frequency;
    assert ticks * SECOND_NS <= ns * frequency + 500_000_000 < ticks * SECOND_NS + SECOND_NS;
    assert 2 * frequency * (back - ns) == 2 * (back * frequency) - 2 * (ns * frequency);
  }

  /** On a clock of `m` MHz, a whole number of microseconds comes back exactly. */
  lemma MegahertzExact(microseconds: nat, m: nat)
    requires m >= 1 && microseconds >= 1
    requires m * 1_000_000 <= U32_MAX && microseconds * 1_000 <= U32_MAX
    requires microseconds * m <= U32_MAX
    ensures TicksOf(microseconds * 1_000, m * 1_000_000) == microseconds * m
    ensures Nanoseconds(microseconds * m, m * 1_000_000) == microseconds * 1_000
  {
    var ticks := microseconds * m;
    assert microseconds * 1_000 * (m * 1_000_000) == ticks * SECOND_NS;
    assert ticks >= 1;
    var f := m * 1_000_000;
    assert ticks * SECOND_NS == microseconds * 1_000 * f;
    QuotientUnique(ticks * SECOND_NS + f / 2, f, microseconds * 1_000);
  }
}
