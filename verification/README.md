# FluxBridge, modelled and proved

FluxBridge drives a physical floppy drive for an emulator: it turns packed MFM
tracks into flux intervals and back, and runs one worker that owns the device
while a consumer expresses wishes, submits writes and reads captures.

This project models the two hard halves of it.

**The flux pipeline.** `TrackBits` (packed words, rings, rotation), `Pll` (the
software phase-locked loop), `Ticks` (the zero-free Greaseweazle tick code),
`Scan` (the AmigaDOS ring scan), `Mfm` and `AmigaTrack` (tracks as they are written,
and what the scan makes of them), `Damage` (what it makes of tracks with bad cells),
`Revolution` (cells to intervals, and cutting a capture at its index marks),
`IndexMarks` (the same from the bytes on), `Join` (finding the join of an unaligned
capture), `Streams` (reading a stream up to its zero over any chunking),
`GreaseweazleReads` (the streaming read with its partial publications),
`StreamingRefinement` (the streaming form against the one-shot form), `Faults`
(streams that make no capture), `WriteRead` (a track written and read back) and
`DrawBridge` (the two DrawBridge write encodings).

**The controller.** `Controller` is a state machine of atomic steps, one for each
stretch of the worker or the consumer between two acquisitions of a shared lock;
device replies, the status clock and the listing order of the capture map are
parameters of a step. `Run` is the state after any interleaving of such steps.
`ControllerFrames` says what each step leaves alone; `CacheSafety`, `QualitySafety`,
`GenerationSafety`, `FreshnessSafety`, `DiskSafety`, `PartialSafety`, `HeadSafety`,
`WriteSafety`, `PlacementSafety`, `VettingSafety`, `EventSafety`, `StatusSafety`,
`FailureSafety`, `WishSafety`, `SeekSafety` and `MotorSafety` prove invariants of every
run. What a run has done is kept as a log of acts, for the theorems
alone: no step depends on it.
`ControllerObjects` is the same controller as mutable objects, and its `Session`
method proves that any session of those objects is a run of the state machine.

Code that changes state in the original is a class or a looping method here, each
proved against a specification function; what the original promises is then proved
of those functions. Rust's truncating division, saturating additions, `u8`, `u16`
and `u32` bounds are written out. Opening a device, clocks and the serial line are
replaced by arbitrary sequences of replies and chunks.

## Where the code does not keep its word

- The documentation says motor wishes and seeks cannot be lost (docs/internals.md,
  docs/api.md, README.md). A wish is taken out of the shared record before the head
  moves, so one passing error of that movement drops it, and nothing tries again.
  `MotorSafety.MotorWishIsLost` and `SeekSafety.SeekWishIsLost` are such runs;
  `MotorSafety.SteerKeepsMotorExactly`, `MotorSafety.SwitchAppliesExactly` and
  `SeekSafety.SteerArrivesExactly` say, by the device's replies, exactly when a wish in
  hand survives; and `MotorSafety.MotorFollowsWithoutErrors` and
  `SeekSafety.SeekFollowsWithoutErrors` prove the promise, as far as the worker can know,
  for every run without a device error. Whether the head really is where the worker
  believes it is another matter: `SeekSafety.HeadFollowsWithoutErrors` proves it under the
  hypotheses of `HeadSafety.HeadIsWhereAsked`, and `SeekSafety.ClickMisleadsASeek` is a
  run without an error in which a no-click step turns the head to the other side and the
  next seek moves nothing.
- A partial capture outlives the reading it came from when that reading fails, and
  with it a write to its track or a change of disk: `PartialSafety.StalePartialIsServed`
  is a run that serves one. `PartialSafety.PartialsAreFreshExactly` proves that this is
  the only way: a partial served is stale exactly when its reading was given up and its
  track disturbed after that. Finished captures do not have this fault:
  `FreshnessSafety.ReadsAreNeverStale` and `DiskSafety.ReadsAreOfThisDisk`.
- A no-click step moves the device's side without the worker's knowledge, and a head
  movement that fails may have moved the head; either way a later write can land on the
  wrong track. `HeadSafety.ClickMisleadsAWrite` and `HeadSafety.StrayMisleadsAWrite` are
  such runs. `HeadSafety.WritesLandExactly` says, for every write of every run, exactly
  when it lands on its track, and `HeadSafety.ClickKeepsHeadExactly` and `HeadSafety.PositionKeepsHeadExactly`
  exactly which steps keep the worker right about the head.
- A clean verdict promises a complete AmigaDOS track, but asks only for 11 or 22 distinct
  sector numbers below 22. `AmigaTrack.MisnumberedIsClean` is a double-density track of
  sectors 11 to 21 that scans clean, and `AmigaTrack.CleanIsCompleteExactly` the exact
  condition; at high density the promise holds.
- The join search takes the earliest perfect repeat, so a track that repeats within the
  search range is cut short: `Join.UniformTrackIsCutShort`, with the exact condition for
  every recording in `Join.CaptureStartDoesNotMatter`.
- The streaming read accepts a stream whose terminator arrives in the chunk that passes
  the length limit, where the buffered read refuses it: `StreamingRefinement.ReadsPartWays`
  is such a stream, `StreamingRefinement.BufferedAgreesExactly` the exact condition.
- The tick code cannot carry 2^28 + 249 ticks or more: `Ticks.TicksLostAtLimit` and, for
  the exact condition, `Ticks.TicksExact`.
- A track needs intervals the DrawBridge encodings can express to survive them:
  `DrawBridge.DdLossless` and `DrawBridge.HdLossless` are equivalences, and
  `DrawBridge.DdLengthFits` says when the 16-bit length field suffices.

## Model

| member | source | states |
|---|---|---|
| TrackBits.PackBits | src/flux/rotation.rs:13-21 | the in-place packing loop yields words that unpack to exactly the given cells |
| TrackBits.UnpackPack | src/flux/rotation.rs:13-21 | packing loses nothing: unpacking a packed sequence of any length gives it back |
| TrackBits.PackUnpack | src/flux/rotation.rs:13-21 | packing is onto: unpacking whole words and packing again gives the same words |
| TrackBits.RotationTurns | src/flux/rotation.rs:24-36 | a rotated revolution holds the same closed ring, read once round from the start bit |
| TrackBits.RotationsCompose | src/flux/rotation.rs:24-36 | two rotations are the one rotation by the sum of their start bits, for all words and lengths accepted |
| TrackBits.RotationUndone | src/flux/rotation.rs:24-36 | rotating by the rest of the ring restores the original revolution |
| Pll.PllDecoder.Submit | src/flux/pll.rs:53-77 | the stateful call moves clock and phase and appends cells as the specification step does, and keeps the clock in 1800..2200 and the phase in -550..clock/2 |
| Pll.SteadyStep | src/flux/pll.rs:53-77 | the between-call bounds on clock and phase survive every possible delay |
| Pll.TimeConserved | src/flux/pll.rs:53-77 | for every stream of total time T and N emitted cells, 1250 N - 550 <= T <= 2750 N + 1099 |
| Pll.NearestCells | src/flux/pll.rs:53-77 | whatever the state, a delay is taken for the nearest number of cells, at least one; half the mismatch is kept, and less than half a cell is held whole |
| Pll.SubmitLegal | src/flux/pll.rs:61-74 | a delay near 2, 3 or 4 cells moves the clock by a tenth of the mismatch per cell, within its limits |
| Pll.LongGapsRelax | src/flux/pll.rs:64-68 | any stream of gaps of 11 us or more brings the clock back towards nominal, to within 9 ns after 191 of them however far off it was |
| Pll.DecodeSplits | src/flux/pll.rs:53-77 | decoding a concatenation is decoding its parts with the state carried across |
| Pll.LocksFromReset | src/flux/pll.rs:53-77 | from reset, for every cell of 1900..2100 ns and every sequence of 2, 3 or 4 cell intervals, each off by up to 15 ns, exactly those cells come out and the clock clamp never engages |
| Pll.LockHolds | src/flux/pll.rs:53-77 | a coupled window of clock and phase is kept, and decodes correctly, over unbounded streams with jitter, for two window shapes |
| Pll.NominalDecodes | src/flux/pll.rs:53-77 | exact multiples of the nominal cell, of any length, decode exactly and leave the state centred |
| Pll.LegalGapsLock | src/flux/pll.rs:53-77 | at nominal speed, legal gaps with single cells allowed at either end decode exactly through 100 ns of noise |
| Pll.CatchHolds | src/flux/pll.rs:53-77 | within three and a half per cent of nominal speed, from a region wider than the lock window, any stream of 2, 3 or 4 cell intervals, each off by up to 15 ns, decodes exactly |
| Pll.FirstDelayCatches | src/flux/pll.rs:53-77 | any first delay at all, but one of between a quarter and half of a cell, leaves the PLL in that region |
| Pll.QuarterCellMisleads | src/flux/pll.rs:53-77 | a first delay of 999 ns makes an interval of four cells read as five |
| Ticks.PushTicks | src/device/greaseweazle.rs:809-830 | the three-way encoder appends the specified 1, 2 or 7 byte form |
| Ticks.DecodeQueue | src/device/greaseweazle.rs:759-807 | the queue-popping decoder agrees with the recursive specification on every byte sequence, errors included |
| Ticks.Read28Encode28 | src/device/greaseweazle.rs:748-757 | the 28-bit group code gives back the value modulo 2^28 |
| Ticks.TicksExact | src/device/greaseweazle.rs:759-830 | at any clock, an encoded tick count decodes to its own interval if and only if it is below 2^28 + 249 |
| Ticks.TicksLostAtLimit | src/device/greaseweazle.rs:809-830 | at that limit the decoder gives back 249 ticks, a shorter interval |
| Ticks.TicksRoundTrip | src/device/greaseweazle.rs:759-830 | any sequence of in-range ticks decodes from its concatenated encodings to exactly its intervals, in order, across all three forms |
| Ticks.ZeroFree | src/device/greaseweazle.rs:816-830 | no encoding of nonzero ticks contains a zero byte |
| Ticks.DecodeSplits | src/device/greaseweazle.rs:759-807 | a byte prefix that decodes is a state from which the rest decodes, so decoding splits at any such point |
| Ticks.EventsGrow | src/device/greaseweazle.rs:759-807 | the events of any byte prefix that decodes are a prefix of the whole stream's events |
| Faults.IntervalsMean | src/device/greaseweazle.rs:788-802 | a byte below 250 is an interval of its ticks, and one of 250 to 254 adds 255 for each step and the next byte less one, rounded to nanoseconds, or refused if that does not fit |
| Faults.RefusedExactly | src/device/greaseweazle.rs:759-807 | a stream is refused if and only if, behind a stretch that decodes, stands an unknown opcode, a token cut short, or an interval too long to express |
| IndexMarks.MarksReachTheEvents | src/device/greaseweazle.rs:759-807 | from bytes: whatever index, space and astable opcodes stand among the intervals, each interval decodes to one event at its own time, spaces added, marked if and only if an index opcode stands before it |
| Ticks.ClockError | src/device/greaseweazle.rs:586-591 | nanoseconds to ticks and back errs by at most 5*10^8/f + 1/2 |
| Ticks.MegahertzExact | src/device/greaseweazle.rs:586-591 | whole microseconds survive a whole-megahertz clock exactly |
| Scan.FindSyncs | src/flux/scan.rs:55-62 | the shift-register pass, started with a full register round the ring, finds exactly the ring positions holding the sync word |
| Scan.VisitSyncs | src/flux/scan.rs:64-104 | visiting the sync set in any order yields the same header and sector counts |
| Scan.ScanRevolution | src/flux/scan.rs:50-124 | the imperative scan returns the verdict specified for the ring, and Unrecognised for what it cannot read |
| Scan.ScanRotationInvariant | src/flux/scan.rs:50-124 | for all words, lengths and starts that rotate, scanning the rotated track gives the verdict of the original |
| Mfm.SyncsAreTheMarks | src/flux/scan.rs:55-62 | in an MFM ring of any data, the sync words are exactly the marks written with their clock left out |
| Mfm.XorOfLongs | src/flux/scan.rs:80-96 | the scan's sum of masked longs over the ring is the sum of the data bits written there |
| AmigaTrack.SectorReads | src/flux/scan.rs:72-103 | a sector written with any format byte, number, label and data, anywhere on any ring, reads back as its own number with both checksums good if its format is 0xff and its number below 22, and otherwise as no header |
| AmigaTrack.WrittenTrackScans | src/flux/scan.rs:50-124 | the verdict on any written track, whatever its data, gaps, sector order and place on the ring, is clean, damaged or unrecognised by its number of sectors and of distinct numbers, against 22 above 150000 cells and 11 otherwise |
| AmigaTrack.DistinctSectorsAreClean | src/flux/scan.rs:106-115 | the expected number of sectors with distinct numbers below 22 is clean |
| AmigaTrack.CompleteListIsClean | src/flux/scan.rs:50-124 | any such list of sectors, laid out one after another with any gap and packed into words, scans clean and holds exactly those sectors |
| Damage.HeaderDamageDetected | src/flux/scan.rs:72-91 | damage to the data bits of any one of a good header's twelve longs -- info, label or stored checksum -- leaves no header there |
| Damage.DataDamageDetected | src/flux/scan.rs:93-103 | damage to the data bits of any one of a good sector's 258 data longs, the stored checksum among them, leaves its header good and its data bad |
| Damage.ScarredTrackIsDamaged | src/flux/scan.rs:50-124 | a complete written track with any one of the 270 longs of one sector damaged, so that no sync word comes or goes, is judged damaged, one sector short |
| Damage.OneBadCell | src/flux/scan.rs:50-124 | one wrong data cell anywhere in the header, data or checksums of any sector of a complete written track is always noticed: it is judged damaged, one sector short |
| Damage.HeadersFollowTwoMarks | src/flux/scan.rs:66-71 | in any ring of MFM data a header is only ever read behind two marks in a row with none before them, so a mark on its own begins no sector |
| AmigaTrack.MisnumberedIsClean | src/flux/scan.rs:106-115 | a double-density track of sectors 11 to 21 scans clean although it holds none of 0 to 10 |
| AmigaTrack.CleanIsCompleteExactly | src/flux/scan.rs:12-22 | a clean high-density ring holds sectors 0 to 21 exactly; a clean double-density ring holds 0 to 10 exactly if and only if no good sector is numbered 11 or above |
| Revolution.MfmToFlux | src/flux/rotation.rs:188-222 | the interval loop returns the gaps of the track scaled by the cell, or the specified error |
| Revolution.GapsSpell | src/flux/rotation.rs:188-222 | the written intervals spell the track's own cells, except that the last reads as one |
| Revolution.FluxToRevolution | src/flux/rotation.rs:43-76 | the event loop returns the cut specified, or the error of the first event past the limit |
| Revolution.IndexSplitsOneDecode | src/flux/rotation.rs:43-76 | one decode of everything up to the second index mark is the warm-up followed by exactly the returned bits |
| Revolution.CutExactly | src/flux/rotation.rs:43-76 | a capture is cut if and only if the captured span decodes to 64..MAX_TRACK_BITS cells, all of which are returned |
| IndexMarks.MarkedBytesAreCut | src/flux/rotation.rs:43-76 | from bytes: a stream with two index marks in it is cut to exactly the cells of the intervals between them, which measure legal gaps |
| Join.BitsToUnalignedRevolution | src/flux/rotation.rs:132-182 | the anchored search returns the specified join for every input, with every window access in bounds |
| Join.JoinSound | src/flux/rotation.rs:132-182 | a returned revolution is a prefix of the capture, its length within the range and an earliest best score of one of the anchors, which repeats in at least 768 of its 1024 cells, as do two of the three |
| Join.JoinFailsExactly | src/flux/rotation.rs:132-182 | the join is refused if and only if the capture is too short to search or no anchor's earliest best length repeats in 768 of 1024 cells for it and for two of three |
| Join.LengthsSearched | src/flux/rotation.rs:132-150 | the lengths searched are 80000 to 120000 cells, twice that at high density, as far as the capture leaves 7120 cells beyond |
| Join.RecordingIsCut | src/flux/rotation.rs:132-182 | any recording of a ring is cut at the earliest perfect repeat of the first anchor whose repeat is confirmed, or refused if the last anchor's is not |
| Join.CaptureStartDoesNotMatter | src/flux/rotation.rs:132-182 | of any ring captured from any offset, its length in range, the cut is the ring rotated by that offset if and only if that earliest confirmed repeat is one whole turn |
| Join.CutIsARotation | src/flux/rotation.rs:132-182 | whenever it is, the packed cut is what rotating the ring gives, and it scans to the ring's own verdict |
| Join.UniformTrackIsCutShort | src/flux/rotation.rs:132-182 | a capture of equal cells is cut at the shortest length searched, whatever the track's length |
| Join.FluxToUnalignedRevolution | src/flux/rotation.rs:84-102 | the flux form decodes, bounds, joins and packs as specified |
| Join.FluxCaptureFindsTheRing | src/flux/rotation.rs:84-182 | from jittered flux of a ring, captured wherever the cut first delay leaves the PLL in lock or, within three and a half per cent of nominal speed, is not between a quarter and half of a cell, through PLL and join, the capture is the ring rotated if and only if the same condition holds, and then scans to the same verdict |
| Join.CutDelayLocks | src/flux/pll.rs:53-77 | at nominal speed, any first delay within 590 ns of a whole number of cells leaves the PLL in lock |
| Streams.ReadTerminatedUntil | src/transport/mod.rs:62-95 | the chunk loop returns the specified reception for every sequence of chunks, timeouts and errors |
| Streams.ChunkingDoesNotMatter | src/transport/mod.rs:62-95 | over every healthy chunking with its zero below the limit, exactly the bytes before the zero are returned |
| Faults.ReceptionEnds | src/transport/mod.rs:62-95 | whatever arrived before without a zero, a reception ends as the next arrival says: deadline, broken pipe, empty read, or a chunk that takes it to the limit, in which case all of it is returned |
| GreaseweazleReads.Greaseweazle.DecodeAtDensity | src/device/greaseweazle.rs:308-326 | decodes at the forced or detected density and keeps the verdict for later writes, or keeps the old one on failure |
| GreaseweazleReads.Greaseweazle.DrainFastStream | src/device/greaseweazle.rs:401-460 | the re-decoding loop returns the bits, publications and final density specified, for every sequence of chunks |
| GreaseweazleReads.Greaseweazle.RunAttempt | src/device/greaseweazle.rs:345-380 | one attempt is retried exactly on an overflow before the last, and otherwise ends with the acknowledged result |
| GreaseweazleReads.Greaseweazle.ReadStreamFast | src/device/greaseweazle.rs:335-390 | up to three attempts, with overflowed publications withdrawn, then a join that is validated |
| GreaseweazleReads.Validated | src/device/mod.rs:152-167 | a capture is accepted if and only if it has 64..MAX_TRACK_BITS bits that fit its words |
| StreamingRefinement.AcknowledgementsDecide | src/device/greaseweazle.rs:360-380 | of a stream that was read, status 0 is a capture, 4 is tried again before the last attempt, 2 is a timeout, 6 a protected disk, and anything else a protocol error |
| StreamingRefinement.ThirdAttemptDecides | src/device/greaseweazle.rs:345-390 | two overflowed attempts are withdrawn and the third one's bits, density and publications are the answer |
| StreamingRefinement.StreamingIsOneShot | src/device/greaseweazle.rs:401-460 | for every chunking of a stream that ends below the limit, draining gives the bits, failure and density verdict of decoding it at once, automatic density included |
| StreamingRefinement.BufferedAgreesExactly | src/device/greaseweazle.rs:401-556 | draining agrees with reading all and then decoding if and only if the stream did not end past the limit |
| StreamingRefinement.ReadsPartWays | src/device/greaseweazle.rs:401-556 | arrivals of no more than 8192 bytes each on which the two reads answer differently |
| Faults.CutOffIsTold | src/device/greaseweazle.rs:401-460 | a stream that is cut off never passes for a capture: a deadline, a broken pipe, a closed one and 2^20 bytes without an end are each answered with their own error |
| StreamingRefinement.JudgedByCounting | src/device/greaseweazle.rs:131-142 | at automatic density 1000 intervals or more are judged high if and only if more than a quarter, each as it came, is below 3000 ns; of fewer, the known density is kept |
| StreamingRefinement.PartialsAreHonest | src/device/greaseweazle.rs:401-460 | at forced density, what is published forms a growing chain of prefixes of the final bits |
| StreamingRefinement.CaptureAgreesWithPartials | src/device/greaseweazle.rs:335-460 | every partial published since the last withdrawal agrees with the finished revolution, which never claims to be cut at the index, at every common position |
| StreamingRefinement.PartialsKeepUp | src/device/greaseweazle.rs:401-460 | wherever a chunk ends between two tokens, what was published last is the decode of all but at most the last 4095 bytes received |
| StreamingRefinement.PartialsAreFew | src/device/greaseweazle.rs:401-460 | there is at most one publication for every 4096 bytes received, and the last |
| WriteRead.EncodeTrack | src/device/greaseweazle.rs:582-596 | the write loop yields the specified zero-terminated stream |
| WriteRead.WriteThenRead | src/device/greaseweazle.rs:308-596 | any track at either density, through intervals, ticks, encoding, any chunking, decoding and PLL at a clock of 1..564 whole MHz, comes back bit for bit except that the last bit reads as one |
| WriteRead.LegalWriteThenRead | src/device/greaseweazle.rs:308-596 | the same at any clock from about 10 MHz (high density) or 5 MHz (double), for tracks of legal MFM gaps cut anywhere, despite tick rounding |
| WriteRead.AutoVerdictExactly | src/device/greaseweazle.rs:308-596 | read back at automatic density, any track of 1000 transitions or more leaves high density known if and only if more than a quarter of its intervals are of one cell (of one or two, if written at high density), and comes back cell for cell if that is how it was written |
| WriteRead.LegalAutoWriteThenRead | src/device/greaseweazle.rs:308-596 | at automatic density, whatever was known, a legal track of 1000 transitions or more comes back bit for bit at any clock as above and leaves its own density known; at high density, if more than a quarter of its gaps are of two cells |
| WriteRead.TrackFitsARead | src/device/greaseweazle.rs:582-596 | a written track of any content, at any clock up to 762 MHz, takes at most 7 bytes for 2 cells and stays below the limit of a read |
| DrawBridge.TransitionCounts | src/device/drawbridge.rs:482-500 | the counting loop yields the clamped gaps of the track and its run-out |
| DrawBridge.EncodeDd | src/device/drawbridge.rs:502-526 | the nibble loop yields the specified double-density stream |
| DrawBridge.EncodeHd | src/device/drawbridge.rs:528-546 | the slot loop yields the specified high-density stream |
| DrawBridge.NibblesDelayCounts | src/device/drawbridge.rs:502-526 | the low two bits of the nibbles carry all counts but the last, one place late, with or without precompensation |
| DrawBridge.DdPrecompensates | src/device/drawbridge.rs:502-526 | of the emitted bytes and the track's own gaps: the upper two bits of a nibble are 1 if and only if precompensation is on, the interval is 2 cells and the next at least 4; 2 if and only if it is at least 4 and the next 2; and 0 otherwise |
| DrawBridge.DdLossless | src/device/drawbridge.rs:474-526 | the nibbles recover all the track's bits if and only if every gap and the final silence are expressible |
| DrawBridge.HdLossless | src/device/drawbridge.rs:482-546 | the stream is zero-free but for its last byte, decodes to the clamped gaps whatever follows it, and recovers the bits if and only if they are expressible |
| DrawBridge.DdLengthFits | src/device/drawbridge.rs:300-306 | the stream fits its 16-bit length if and only if it has at most 131066 transitions, which any legal track of MAX_TRACK_BITS does |
| CacheSafety.ShapeOverRuns | src/controller.rs:602-689 | in every reachable state at most 8 tracks with at most 2 readings are cached, a full queue has a non-reusable front, and a capture under way is of the demanded track and has room |
| CacheSafety.InsertKeepsDemanded | src/controller.rs:676-689 | insertion displaces no reading of the demanded track and evicts at most one other track, only when eight others are cached |
| QualitySafety.CapturesAreGenuine | src/controller.rs:655-688 | over every run, every cached capture is a reply of the device for that track, index-aligned if and only if that reply was, and otherwise verified if and only if its own cells hold a full track of 11 or 22 distinct intact sectors |
| QualitySafety.ReadsAgainExactly | src/controller.rs:602-632 | over every run, the worker goes for a reading if and only if the drive is working, spinning and holds a disk, the demanded track is its destination, and of that track there is no reading, or one that was neither cut at the index nor holds a full track |
| QualitySafety.WrittenTracksSuffice | src/controller.rs:663-737 | a complete written track holds a full track, whatever its data, and with any one data cell wrong it does not, so that it is read again |
| GenerationSafety.ReadsMoveForwardOverRuns | src/controller.rs:209-273 | over every run, generations read of a track never decrease and strictly increase across an advance |
| FreshnessSafety.CacheIsFreshOverRuns | src/controller.rs:563-712 | over every run, each cached capture was taken after the last write to its track and the last observed disk change, but for the one the worker is just about to evict |
| FreshnessSafety.ReadsAreNeverStale | src/controller.rs:209-241 | over every run, a consumer that has heard of a write is never served a finished capture from before it by `read_track` |
| DiskSafety.AnnouncementsAreTrue | src/controller.rs:696-706 | over every run, a change of disk is announced only after it was seen and the cache emptied for it |
| DiskSafety.ReadsAreOfThisDisk | src/controller.rs:209-241 | over every run, a consumer that has heard of a change of disk is never served a finished capture from before that change was seen by `read_track` |
| PartialSafety.GlimpsesAreTheLast | src/controller.rs:250-256 | over every run, what `partial_track` serves is the last publication made |
| PartialSafety.PartialsAreInOrder | src/controller.rs:634-660 | over every run, between a publication and the end of its reading nothing is written to the track and no disk change is seen, and a finished capture leaves no partial behind |
| PartialSafety.PartialsAreFreshExactly | src/controller.rs:634-660 | over every run, a partial served is stale if and only if its reading had ended without a capture and, after that, its track was written or a disk change seen; one of the reading still under way never is |
| PartialSafety.StalePartialIsServed | src/controller.rs:634-653 | a run in which a failed reading leaves a partial behind, the track is written, and the consumer, having heard of the write, is served the old flux |
| HeadSafety.SeeksStayInReach | src/controller.rs:547-551 | over every run, no seek goes past the last cylinder (cylinder 0 if the count is 0), whatever tracks are asked for |
| HeadSafety.HeadIsWhereAsked | src/controller.rs:547-658 | over every run of a device whose failing movements leave the head alone, and whose no-click steps name the side the head is on, every write and capture happens with the head on exactly its track |
| HeadSafety.ClickKeepsHeadExactly | src/controller.rs:470-486 | a no-click step keeps the worker right about the head if and only if nothing is believed yet, or it names the side believed, or its failing selection leaves the head where believed |
| HeadSafety.PositionKeepsHeadExactly | src/controller.rs:547-561 | positioning keeps the worker right about the head if and only if nothing was believed before, or the seek or side selection that fails leaves the head where the worker then believes it |
| HeadSafety.WritesLandExactly | src/controller.rs:547-597 | over every run, whatever the device's failures, a write is made on its track if and only if, when it was placed, the head really had every coordinate the worker believed it to have already |
| HeadSafety.ClickMisleadsAWrite | src/controller.rs:470-486 | a run on a faultless device in which a no-click step sends a write to the wrong side |
| HeadSafety.StrayMisleadsAWrite | src/controller.rs:547-561 | a run in which one seek that moves the head but reports failure sends the next write to the wrong cylinder |
| WriteSafety.WorkLedger | src/controller.rs:423-597 | every worker step is at most one move of the write ledger: taken, attempted or given up, finished, reported |
| WriteSafety.WritesKeepTheirTurn | src/controller.rs:278-597 | over every run, accepted writes are performed once each in acceptance order with the rest still queued, none is attempted twice, and reports reach the consumer at most once and in order |
| WriteSafety.CompletionsAreTrue | src/controller.rs:563-597 | over every run, a write is reported complete only after the device was told to write it, to that track and length, and answered that it had, and failed only with the error of that call or of its positioning, or because it began and ended nowhere near the index of a longer track |
| PlacementSafety.WritesArePlacedByLength | src/controller.rs:574-594 | over every run, a write begins at the index if and only if it starts within 30 cells of it, either way round, by the length of a reading of its track or else its own; and one that does not covers that length but for 16 cells |
| VettingSafety.AcceptedWritesCanBeSent | src/controller.rs:278-321 | over every run, every accepted write names a cylinder in reach and encodes at either density at every clock up to 500 MHz |
| VettingSafety.VettingAgreesWithPlacing | src/controller.rs:305-594 | as long as the reading of its track is the same, a write is refused when submitted if and only if it would be when performed, with the same error |
| VettingSafety.ProtectedDisksAreNotWritten | src/controller.rs:301-303 | over every run in which the device never reported an unprotected disk, no write is accepted |
| EventSafety.NothingIsSwallowed | src/controller.rs:563-717 | over every run that leaves room in the event queue, every disk change seen, write performed and loss of the drive has been heard of, or waits, or is about to be sent, each once and in the order they happened |
| EventSafety.QueuesFit | src/controller.rs:126-127 | over every run no more than 64 events and 64 commands wait |
| FailureSafety.FailsRightlyOverRuns | src/controller.rs:539-545 | over every run the worker has failed if and only if some error was fatal or the twentieth without a success between; it then disconnected once and is never working again |
| FailureSafety.ErrorsAreCountedExactly | src/controller.rs:470-712 | over every run, which replies of the device add to the errors in a row -- a write's errors and a reading that timed out do not -- and which successes end the row |
| FailureSafety.WorkKeeps | src/controller.rs:423-468 | apart from a shutdown command, the worker stops only by failing |
| FailureSafety.CleanStopPerformsAll | src/controller.rs:342-352 | a worker that stopped without failing had performed every write ever accepted, in order |
| FailureSafety.DropStopsTheWorker | src/controller.rs:345-352 | over every run, once the bridge is dropped its worker has stopped or is stopping, or the shutdown waits behind every other command, and taking it stops the worker |
| WishSafety.LatestAimWins | src/controller.rs:197-224 | over every run the destination the worker acts on next, or acted on last, is the track asked for last, and captures are made only of destinations taken up |
| WishSafety.LatestDemandWins | src/controller.rs:209-273 | over every run the track kept stocked is the one read or advanced last; a seek alone never changes it |
| StatusSafety.SnapshotIsTheLastReport | src/controller.rs:691-712 | over every run the snapshot's disk, protection and readiness are what the device reported last, but for a report in hand, and its motor what was reported or done last |
| StatusSafety.ChangesAreNoticed | src/controller.rs:701-706 | over every run a report counts as a change of disk if and only if its presence differs from the report before |
| StatusSafety.SnapshotNamesTheTrack | src/controller.rs:547-561 | over every run, while a write or a capture is under way, the snapshot names its cylinder and side, and a report is stored with the place where the worker takes its head to be, whatever the device says |
| SeekSafety.SeekFollowsWithoutErrors | src/controller.rs:493-511 | in every run without a device error the worker has acted on the track asked for last, or that is still pending, and believes the head there until a write or a motor wish takes it away |
| SeekSafety.HeadFollowsWithoutErrors | src/controller.rs:493-561 | under the hypotheses of `HeadSafety.HeadIsWhereAsked` as well, the head really is there |
| SeekSafety.ClickMisleadsASeek | src/controller.rs:470-561 | a run without a device error in which, after a no-click step, a seek moves nothing and counts as done with the head on the other side |
| SeekSafety.SteerArrivesExactly | src/controller.rs:505-511 | after acting on a destination the head is believed there if and only if neither a seek nor a side selection it needed failed, and, known and not straying, is really there if and only if none did |
| SeekSafety.SeekWishIsLost | src/controller.rs:493-511 | one passing error loses a seek for good: the worker lives on, and however it runs, the head does not move until somebody asks for a movement again |
| MotorSafety.MotorFollowsWithoutErrors | src/controller.rs:493-535 | in every run without a device error, until it stops, the motor is as last wished or the latest wish is still pending |
| MotorSafety.StoppedIsOff | src/controller.rs:466-467 | over every run, a stopped worker has asked for the motor to be switched off once, as its last motor call, and a worker that has not stopped never has |
| MotorSafety.SteerKeepsMotorExactly | src/controller.rs:504-511 | a motor wish in hand survives its pass if and only if neither a seek nor a side selection its destination needs fails |
| MotorSafety.SwitchAppliesExactly | src/controller.rs:512-535 | the motor is set if and only if no seek or side selection it needs fails, nor the device's motor call; the snapshot then says so, with the head believed on that side |
| MotorSafety.MotorWishIsLost | src/controller.rs:493-511 | one passing seek error loses a motor wish for good: however the living worker runs on without a new wish, the motor is touched only to switch it off at the end |
| ControllerObjects.Worker.Advance | src/controller.rs:423-597 | every in-place step of the loop, wherever it stands, the motor call at its end included, is the state machine's step |
| ControllerObjects.Bridge.ReadTrack | src/controller.rs:209-241 | asks for the clamped track and returns its oldest reading, if any |
| ControllerObjects.Bridge.PartialTrack | src/controller.rs:250-256 | returns the published partial of exactly this track, and only a nonempty one |
| ControllerObjects.Bridge.SubmitWrite | src/controller.rs:278-326 | queues the clamped write under a new identifier if and only if it fits its words and 237568 bits, the disk is not protected, it can be placed on the oldest reading, the worker lives and fewer than 64 commands wait; or returns the error of the first check that fails; a refused queue still uses up the identifier |
| ControllerObjects.Bridge.PollEvent | src/controller.rs:329-331 | returns events oldest first, each once |
| ControllerObjects.Session | src/controller.rs:423-468 | any interleaving of the objects' methods is a run of the state machine, so every run theorem holds of them |

## Left out

- Serial and FTDI access, port choice, firmware probing and deadlines: reads are arbitrary chunk sequences, device calls arbitrary replies.
- SuperCard Pro: its command plumbing and simpler tick split add no harder property.
- DrawBridge command exchange, version probe and stream reading: byte-level requests and replies.
- `BridgeConfig` validation, driver names, error texts and formatting: single-branch facts; errors are modelled by kind.
- Stalling reads, spin-up timing, thread creation and mutex poisoning: wall-clock behaviour.
- Events: an event is silently dropped when 64 are waiting, as in the code, so `WriteSafety.WritesKeepTheirTurn` says at most once and `EventSafety.NothingIsSwallowed` supposes room.
- A `DiskChanged` event carries the number of its sighting here, for the theorems alone; the code's event says only whether a disk is present.
- Counters: `generation` and `next_write` are unbounded here; their wrap-around after 2^64 steps is not modelled.
- HeadSafety.HeadIsWhereAsked: states head agreement under two hypotheses on the device; a run that breaks each, and lands a write on the wrong track, is given beside it.
- Join.FluxCaptureFindsTheRing: a first delay of between a quarter and half of a cell is not covered, as it can make the next interval misread (`Pll.QuarterCellMisleads`); nor, between three and a half and five per cent of speed error, is one that leaves the PLL out of its lock window.
- StreamingRefinement.PartialsAreHonest: states the growing chain at forced density, because the automatic verdict is a quorum that can flip as a capture grows; the final result is proved at automatic density too.
- Damage.DataDamageDetected: states that damage confined to the data bits of one data long is caught; damage to several longs can cancel in an exclusive-or checksum.
- The consumer's calls in `ControllerObjects.Bridge` that take several locks run uninterrupted there; their interleaving with the worker is in `Controller.Run`, which takes them one lock at a time.
- The checks of `submit_write` read status and captures in one step here, where the code takes the two locks in turn.
- The stores of `position` into head, belief and status are one step; the consumer only reads the status between them.
