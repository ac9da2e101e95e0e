/** A stream with its index marks, from bytes to a cut revolution: what stands between
    two intervals, which of them carry a mark, and the cut between two marks. */
module IndexMarks {
  import opened Common
  import opened TrackBits
  import opened Pll
  import opened Ticks
  import opened Revolution

  // ----- marks among the intervals -----

  /** What the device may say between two intervals: that the index passed, that time
      went by, or that it lost track for a while. */
  datatype Note = Passed(offset: U32) | Waited(ticks: U32) | Unstable(period: Byte)

  function NoteBytes(note: Note): (bytes: seq<Byte>) {
    match note
    case Passed(offset) => [255, 1] + Encode28(offset)
    case Waited(ticks) => [255, 2] + Encode28(ticks)
    case Unstable(period) => [255, 3, period]
  }

  function NotesBytes(notes: seq<Note>): (bytes: seq<Byte>) {
    if notes == [] then [] else NoteBytes(notes[0]) + NotesBytes(notes[1..])
  }

  /** The ticks of all the notes together. */
  function Waits(notes: seq<Note>): nat {
    if notes == [] then 0
    else (match notes[0] case Waited(ticks) => ticks % 0x1000_0000 case _ => 0) + Waits(notes[1..])
  }

  predicate HasMark(notes: seq<Note>) {
    exists k :: 0 <= k < |notes| && notes[k].Passed?
  }

  /** An interval and what was said before it. */
  datatype Pulse = Pulse(notes: seq<Note>, ticks: U32)

  function PulseBytes(pulses: seq<Pulse>): (bytes: seq<Byte>) {
    if pulses == [] then []
    else NotesBytes(pulses[0].notes) + EncodeTicks(pulses[0].ticks) + PulseBytes(pulses[1..])
  }

  /** The time from one transition to the next, waits included. */
  function PulseTime(pulse: Pulse, frequency: U32): nat
    requires frequency > 0
  {
    Nanoseconds(Min(Waits(pulse.notes) + pulse.ticks, U32_MAX), frequency)
  }

  predicate Timed(pulses: seq<Pulse>, frequency: U32)
    requires frequency > 0
  {
    forall k :: 0 <= k < |pulses| ==> pulses[k].ticks < TICK_LIMIT && PulseTime(pulses[k], frequency) <= U32_MAX
  }

  /** The carry once the notes are read. */
  function Carried(carry: Carry, notes: seq<Note>): Carry {
    Carry(SaturatingTicks(carry.ticks, Waits(notes)), carry.index || HasMark(notes))
  }

  /** The carry once one note is read. */
  function Noted(carry: Carry, note: Note): Carry {
    match note
    case Passed(_) => carry.(index := true)
    case Waited(ticks) => carry.(ticks := SaturatingTicks(carry.ticks, ticks % 0x1000_0000))
    case Unstable(_) => carry
  }

  lemma NoteDecodes(note: Note, rest: seq<Byte>, carry: Carry, frequency: U32)
    requires frequency > 0
    ensures DecodeRun(NoteBytes(note) + rest, carry, frequency) == DecodeRun(rest, Noted(carry, note), frequency)
  {
    var queue := NoteBytes(note) + rest;
    assert queue[|NoteBytes(note)|..] == rest;
    match note
    case Passed(offset) => assert Lex(queue) == Lexed(Index, 6);
    case Waited(ticks) =>
      Read28Encode28(ticks);
      assert queue[2..6] == Encode28(ticks);
      assert Lex(queue) == Lexed(Space(ticks % 0x1000_0000), 6);
    case Unstable(_) => assert Lex(queue) == Lexed(Astable, 3);
  }

  lemma MarkFirst(notes: seq<Note>)
    requires notes != []
    ensures HasMark(notes) <==> notes[0].Passed? || HasMark(notes[1..])
  {
    if HasMark(notes) && !notes[0].Passed? {
      var k :| 0 <= k < |notes| && notes[k].Passed?;
      assert notes[1..][k - 1].Passed?;
    }
    if HasMark(notes[1..]) {
      var k :| 0 <= k < |notes[1..]| && notes[1..][k].Passed?;
      assert notes[k + 1].Passed?;
    }
  }

  lemma CarriedFirst(carry: Carry, notes: seq<Note>)
    requires notes != []
    ensures Carried(carry, notes) == Carried(Noted(carry, notes[0]), notes[1..])
  {
    MarkFirst(notes);
  }

  lemma Associate(a: seq<Byte>, b: seq<Byte>, c: seq<Byte>)
    ensures a + b + c == a + (b + c)
  {
  }

  lemma {:induction false} NotesDecode(notes: seq<Note>, rest: seq<Byte>, carry: Carry, frequency: U32)
    requires frequency > 0
    ensures DecodeRun(NotesBytes(notes) + rest, carry, frequency) == DecodeRun(rest, Carried(carry, notes), frequency)
  {
    if notes == [] {
      assert [] + rest == rest && !HasMark([]);
    } else {
      Associate(NoteBytes(notes[0]), NotesBytes(notes[1..]), rest);
      NoteDecodes(notes[0], NotesBytes(notes[1..]) + rest, carry, frequency);
      NotesDecode(notes[1..], rest, Noted(carry, notes[0]), frequency);
      CarriedFirst(carry, notes);
    }
  }

  lemma PulseDecodes(pulse: Pulse, rest: seq<Byte>, frequency: U32)
    requires frequency > 0 && pulse.ticks < TICK_LIMIT && PulseTime(pulse, frequency) <= U32_MAX
    ensures DecodeRun(NotesBytes(pulse.notes) + EncodeTicks(pulse.ticks) + rest, FRESH, frequency)
         == Prepend([FluxEvent(PulseTime(pulse, frequency), HasMark(pulse.notes))], DecodeRun(rest, FRESH, frequency))
  {
    var carry := Carried(FRESH, pulse.notes);
    Associate(NotesBytes(pulse.notes), EncodeTicks(pulse.ticks), rest);
    NotesDecode(pulse.notes, EncodeTicks(pulse.ticks) + rest, FRESH, frequency);
    TicksDecode(pulse.ticks, rest, carry, frequency);
    SumIsWhole(pulse.ticks);
    assert SaturatingTicks(carry.ticks, pulse.ticks) == Min(Waits(pulse.notes) + pulse.ticks, U32_MAX);
  }

  /** Each interval at its time, marked if the index passed since the one before. */
  function PulseEvents(pulses: seq<Pulse>, frequency: U32): (events: seq<FluxEvent>)
    requires frequency > 0 && Timed(pulses, frequency)
    ensures |events| == |pulses|
  {
    seq(|pulses|, k requires 0 <= k < |pulses| =>
      FluxEvent(PulseTime(pulses[k], frequency), HasMark(pulses[k].notes)))
  }

  lemma EventsFirst(pulses: seq<Pulse>, frequency: U32)
    requires frequency > 0 && pulses != [] && Timed(pulses, frequency)
    ensures Timed(pulses[1..], frequency)
    ensures PulseEvents(pulses, frequency)
         == [FluxEvent(PulseTime(pulses[0], frequency), HasMark(pulses[0].notes))] + PulseEvents(pulses[1..], frequency)
  {
  }

  lemma BytesFirst(pulses: seq<Pulse>, rest: seq<Byte>)
    requires pulses != []
    ensures PulseBytes(pulses) + rest
         == NotesBytes(pulses[0].notes) + EncodeTicks(pulses[0].ticks) + (PulseBytes(pulses[1..]) + rest)
  {
    Associate(NotesBytes(pulses[0].notes) + EncodeTicks(pulses[0].ticks), PulseBytes(pulses[1..]), rest);
  }

  lemma {:induction false} PulsesDecode(pulses: seq<Pulse>, rest: seq<Byte>, frequency: U32)
    requires frequency > 0 && Timed(pulses, frequency)
    ensures DecodeRun(PulseBytes(pulses) + rest, FRESH, frequency)
         == Prepend(PulseEvents(pulses, frequency), DecodeRun(rest, FRESH, frequency))
  {
    if pulses == [] {
      assert [] + rest == rest;
      PrependPrepend([], [], DecodeRun(rest, FRESH, frequency));
    } else {
      var first, later := pulses[0], pulses[1..];
      var event := FluxEvent(PulseTime(first, frequency), HasMark(first.notes));
      BytesFirst(pulses, rest);
      EventsFirst(pulses, frequency);
      PulseDecodes(first, PulseBytes(later) + rest, frequency);
      PulsesDecode(later, rest, frequency);
      PrependPrepend([event], PulseEvents(later, frequency), DecodeRun(rest, FRESH, frequency));
    }
  }

  /** Whatever notes stand among the intervals of a stream, and behind the last, each
      interval decodes to one event at its own time, and an event carries an index mark
      exactly when the index passed since the event before. */
  lemma MarksReachTheEvents(pulses: seq<Pulse>, after: seq<Note>, frequency: U32)
    requires frequency > 0 && Timed(pulses, frequency)
    ensures var r := DecodeStream(PulseBytes(pulses) + NotesBytes(after), frequency);
      && r.Ok? && |r.value| == |pulses|
      && forall k :: 0 <= k < |pulses| ==>
           && r.value[k].nanoseconds == PulseTime(pulses[k], frequency)
           && (r.value[k].index <==> HasMark(pulses[k].notes))
  {
    PulsesDecode(pulses, NotesBytes(after), frequency);
    NotesDecode(after, [], FRESH, frequency);
    assert NotesBytes(after) + [] == NotesBytes(after);
  }

  // ----- from bytes to a revolution -----

  /** The index passed before no interval of these. */
  predicate Unmarked(pulses: seq<Pulse>) {
    forall k :: 0 <= k < |pulses| ==> !HasMark(pulses[k].notes)
  }

  /** The intervals measure legal MFM gaps, within the noise the PLL takes. */
  predicate PulsesMeasure(pulses: seq<Pulse>, gaps: seq<nat>, cell: int, frequency: U32)
    requires frequency > 0
  {
    && |pulses| == |gaps|
    && 1_900 <= cell <= 2_100
    && forall k :: 0 <= k < |gaps| ==>
         2 <= gaps[k] <= 4 && -15 <= PulseTime(pulses[k], frequency) - gaps[k] * cell <= 15
  }

  lemma FirstIndexIs(events: seq<FluxEvent>, from: nat, k: nat)
    requires from <= k < |events| && events[k].index
    requires forall j :: from <= j < k ==> !events[j].index
    ensures FirstIndex(events, from) == k
  {
  }

  lemma EventsMeasure(pulses: seq<Pulse>, gaps: seq<nat>, cell: int, frequency: U32)
    requires frequency > 0 && Timed(pulses, frequency) && PulsesMeasure(pulses, gaps, cell, frequency)
    ensures Measures(DelaysOf(PulseEvents(pulses, frequency)), gaps, cell, DRIFTING)
  {
  }

  /** Where the capture of two marks begins and ends. */
  lemma SpanOfMarks(events: seq<FluxEvent>, first: nat, second: nat)
    requires first < second < |events| && events[first].index && events[second].index
    requires forall j :: 0 <= j < second && j != first ==> !events[j].index
    ensures CaptureSpan(events) == Span(first, second)
  {
    FirstIndexIs(events, 0, first);
    FirstIndexIs(events, first + 1, second);
  }

  /** The cells captured between the marks of a stream the PLL reads in lock. */
  lemma CaptureBetween(events: seq<FluxEvent>, early: seq<nat>, middle: seq<nat>, cell: int)
    requires var span := CaptureSpan(events);
      && 1_900 <= cell <= 2_100
      && Measures(DelaysOf(events[..span.start]), early, cell, DRIFTING)
      && Measures(DelaysOf(events[span.start..span.stop]), middle, cell, DRIFTING)
    ensures var span := CaptureSpan(events);
      Decode(WarmUp(events).state, DelaysOf(events[span.start..span.stop])).cells == Cells(middle)
  {
    var span := CaptureSpan(events);
    LockHolds(CENTRED, DelaysOf(events[..span.start]), early, cell, DRIFTING);
    LockHolds(WarmUp(events).state, DelaysOf(events[span.start..span.stop]), middle, cell, DRIFTING);
  }

  lemma CutOfCells(events: seq<FluxEvent>, cells: seq<bool>)
    requires var span := CaptureSpan(events);
      && FirstIndex(events, 0) < |events|
      && Decode(WarmUp(events).state, DelaysOf(events[span.start..span.stop])).cells == cells
      && 64 <= |cells| <= MAX_TRACK_BITS
    ensures CutOf(events) == Ok(Cut(Pack(cells), |cells|, true))
  {
    var span := CaptureSpan(events);
    BoundedExactly(WarmUp(events).state, DelaysOf(events[span.start..span.stop]));
  }

  lemma Between(early: seq<FluxEvent>, middle: seq<FluxEvent>, late: seq<FluxEvent>)
    ensures var events := early + middle + late;
      && events[..|early|] == early
      && events[|early|..|early| + |middle|] == middle
  {
  }

  lemma EventsJoin(a: seq<Pulse>, b: seq<Pulse>, frequency: U32)
    requires frequency > 0 && Timed(a + b, frequency)
    ensures Timed(a, frequency) && Timed(b, frequency)
    ensures PulseEvents(a + b, frequency) == PulseEvents(a, frequency) + PulseEvents(b, frequency)
  {
    assert forall k :: 0 <= k < |a| ==> (a + b)[k] == a[k];
    assert forall k :: 0 <= k < |b| ==> (a + b)[|a| + k] == b[k];
  }

  lemma MarksAre(early: seq<Pulse>, middle: seq<Pulse>, late: seq<Pulse>, frequency: U32)
    requires frequency > 0 && Timed(early + middle + late, frequency)
    requires Unmarked(early)
    requires middle != [] && HasMark(middle[0].notes) && Unmarked(middle[1..])
    requires late != [] && HasMark(late[0].notes)
    ensures var events := PulseEvents(early + middle + late, frequency);
      var first, second := |early|, |early| + |middle|;
      && events[first].index && events[second].index
      && forall j :: 0 <= j < second && j != first ==> !events[j].index
  {
    var pulses := early + middle + late;
    var first, second := |early|, |early| + |middle|;
    assert pulses[first] == middle[0] && pulses[second] == late[0];
    forall j | 0 <= j < second && j != first
      ensures !HasMark(pulses[j].notes)
    {
      assert pulses[j] == if j < first then early[j] else middle[1..][j - first - 1];
    }
  }

  lemma StreamDecodes(pulses: seq<Pulse>, frequency: U32)
    requires frequency > 0 && Timed(pulses, frequency)
    ensures DecodeStream(PulseBytes(pulses), frequency) == Ok(PulseEvents(pulses, frequency))
  {
    MarksReachTheEvents(pulses, [], frequency);
    assert PulseBytes(pulses) + NotesBytes([]) == PulseBytes(pulses);
    assert DecodeStream(PulseBytes(pulses), frequency).value == PulseEvents(pulses, frequency);
  }

  lemma MarkedPulsesAreCut(early: seq<Pulse>, middle: seq<Pulse>, late: seq<Pulse>, before: seq<nat>, gaps: seq<nat>,
                           cell: int, frequency: U32)
    requires frequency > 0 && Timed(early + middle + late, frequency)
    requires PulsesMeasure(early, before, cell, frequency) && PulsesMeasure(middle, gaps, cell, frequency)
    requires Unmarked(early)
    requires middle != [] && HasMark(middle[0].notes) && Unmarked(middle[1..])
    requires late != [] && HasMark(late[0].notes)
    requires 64 <= |Cells(gaps)| <= MAX_TRACK_BITS
    ensures CutOf(PulseEvents(early + middle + late, frequency)) == Ok(Cut(Pack(Cells(gaps)), |Cells(gaps)|, true))
  {
    var pulses := early + middle + late;
    var events := PulseEvents(pulses, frequency);
    var first, second := |early|, |early| + |middle|;
    EventsJoin(early + middle, late, frequency);
    EventsJoin(early, middle, frequency);
    Between(PulseEvents(early, frequency), PulseEvents(middle, frequency), PulseEvents(late, frequency));
    MarksAre(early, middle, late, frequency);
    SpanOfMarks(events, first, second);
    EventsMeasure(early, before, cell, frequency);
    EventsMeasure(middle, gaps, cell, frequency);
    CaptureBetween(events, before, gaps, cell);
    CutOfCells(events, Cells(gaps));
  }

  /** A stream in which the index passes before one interval and next before a later
      one is cut to exactly the intervals from the one to the other: on a disk within
      five per cent of nominal speed, with 15 ns of noise, its bytes become those
      cells and nothing else. */
  lemma MarkedBytesAreCut(early: seq<Pulse>, middle: seq<Pulse>, late: seq<Pulse>, before: seq<nat>, gaps: seq<nat>,
                          cell: int, frequency: U32)
    requires frequency > 0 && Timed(early + middle + late, frequency)
    requires PulsesMeasure(early, before, cell, frequency) && PulsesMeasure(middle, gaps, cell, frequency)
    requires Unmarked(early)
    requires middle != [] && HasMark(middle[0].notes) && Unmarked(middle[1..])
    requires late != [] && HasMark(late[0].notes)
    requires 64 <= |Cells(gaps)| <= MAX_TRACK_BITS
    ensures var r := DecodeStream(PulseBytes(early + middle + late), frequency);
      r.Ok? && CutOf(r.value) == Ok(Cut(Pack(Cells(gaps)), |Cells(gaps)|, true))
  {
    StreamDecodes(early + middle + late, frequency);
    MarkedPulsesAreCut(early, middle, late, before, gaps, cell, frequency);
  }
}
