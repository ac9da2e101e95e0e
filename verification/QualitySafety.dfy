/** What is cached is what the device read, and what is said of its quality is true of
    its cells, so that a track is read a second time exactly when that can help. */
module QualitySafety {
  import opened Common
  import opened TrackBits
  import opened Controller
  import opened ControllerFrames
  import opened AmigaTrack
  import opened Damage
  import CacheSafety
  import GreaseweazleReads
  import Scan

  // ----- what a quality is worth -----

  /** The cells hold every sector of a full AmigaDOS track, header and data intact. */
  ghost predicate HoldsFullTrack(words: seq<bv16>, bitLen: nat) {
    && 64 <= bitLen <= |words| * 16
    && |Scan.GoodSectors(Scan.Marks(Unpack(words, bitLen), bitLen))| == FullTrack(bitLen)
  }

  /** Cut at the index, or else judged by its cells alone. */
  ghost predicate Deserves(raw: GreaseweazleReads.RawCapture, quality: Quality) {
    match quality
    case IndexAligned => raw.indexAligned
    case VerifiedAmigaDos(sectors) =>
      !raw.indexAligned && HoldsFullTrack(raw.words, raw.bitLen) && sectors == FullTrack(raw.bitLen)
    case Unverified => !raw.indexAligned && !HoldsFullTrack(raw.words, raw.bitLen)
  }

  lemma QualityIsDeserved(raw: GreaseweazleReads.RawCapture)
    requires GreaseweazleReads.Validated(raw).Ok?
    ensures Deserves(raw, QualityOf(raw))
  {
  }

  // ----- where a cached capture comes from -----

  predicate TookAs(a: Act, track: Track, capture: Capture) {
    && a.Took? && a.track == track && a.generation == capture.generation
    && a.raw.words == capture.words && a.raw.bitLen == capture.bitLen
  }

  /** The capture is a reply of the device, taken of this track, with the quality that
      reply deserves. */
  ghost predicate Genuine(log: seq<Act>, track: Track, capture: Capture) {
    exists j :: 0 <= j < |log| && TookAs(log[j], track, capture) && Deserves(log[j].raw, capture.quality)
  }

  ghost predicate GenuineCache(captures: Cache, log: seq<Act>) {
    forall track, i :: track in captures && 0 <= i < |captures[track]| ==> Genuine(log, track, captures[track][i])
  }

  /** The capture in the worker's hand is its last reply. */
  ghost predicate GenuineInHand(e: Engine) {
    match e.worker.phase
    case Withdrawing(track, raw) =>
      && GreaseweazleReads.Validated(raw).Ok?
      && exists j :: 0 <= j < |e.world.log| && e.world.log[j].Took? && e.world.log[j].track == track
                     && e.world.log[j].generation == e.worker.generation + 1 && e.world.log[j].raw == raw
    case Inserting(track, capture) => Genuine(e.world.log, track, capture)
    case _ => true
  }

  ghost predicate AllGenuine(e: Engine) {
    GenuineCache(e.shared.captures, e.world.log) && GenuineInHand(e)
  }

  lemma GenuineLater(before: seq<Act>, after: seq<Act>, track: Track, capture: Capture)
    requires before <= after && Genuine(before, track, capture)
    ensures Genuine(after, track, capture)
  {
    var j :| 0 <= j < |before| && TookAs(before[j], track, capture) && Deserves(before[j].raw, capture.quality);
    assert after[j] == before[j];
  }

  /** Steps that put nothing in the cache. */
  lemma GenuineKept(e: Engine, f: Engine)
    requires AllGenuine(e) && e.world.log <= f.world.log && GenuineInHand(f)
    requires forall track :: track in f.shared.captures ==> track in e.shared.captures
    requires forall track, i :: track in f.shared.captures && 0 <= i < |f.shared.captures[track]| ==>
        f.shared.captures[track][i] in e.shared.captures[track]
    ensures AllGenuine(f)
  {
    forall track, i | track in f.shared.captures && 0 <= i < |f.shared.captures[track]|
      ensures Genuine(f.world.log, track, f.shared.captures[track][i])
    {
      var k :| 0 <= k < |e.shared.captures[track]| && e.shared.captures[track][k] == f.shared.captures[track][i];
      GenuineLater(e.world.log, f.world.log, track, f.shared.captures[track][i]);
    }
  }

  lemma ReadGenuine(e: Engine, env: Env)
    requires AllGenuine(e) && e.worker.phase.Reading?
    ensures AllGenuine(ReadStep(e, env))
  {
    var f := ReadStep(e, env);
    ReadFrame(e, env);
    if f.worker.phase.Withdrawing? {
      assert f.world.log[|e.world.log|].Took?;
    }
    GenuineKept(e, f);
  }

  lemma WithdrawGenuine(e: Engine)
    requires AllGenuine(e) && e.worker.phase.Withdrawing?
    ensures AllGenuine(WithdrawStep(e))
  {
    var Withdrawing(track, raw) := e.worker.phase;
    var f := WithdrawStep(e);
    QualityIsDeserved(raw);
    var j :| 0 <= j < |e.world.log| && e.world.log[j].Took? && e.world.log[j].track == track
             && e.world.log[j].generation == e.worker.generation + 1 && e.world.log[j].raw == raw;
    assert f.world.log[j] == e.world.log[j];
    assert TookAs(f.world.log[j], track, f.worker.phase.capture);
    GenuineKept(e, f);
  }

  lemma StockGenuine(captures: Cache, log: seq<Act>, track: Track, capture: Capture)
    requires GenuineCache(captures, log) && Genuine(log, track, capture)
    ensures GenuineCache(Stocked(captures, track, capture), log)
  {
    var stocked: Cache := Stocked(captures, track, capture);
    forall t: Track, i: nat | t in stocked && i < |stocked[t]|
      ensures Genuine(log, t, stocked[t][i])
    {
      if t == track && i < |stocked[t]| - 1 {
        assert track in captures && stocked[t][i] in captures[track];
      }
    }
  }

  lemma InsertGenuine(e: Engine, env: Env)
    requires AllGenuine(e) && e.worker.phase.Inserting?
    ensures AllGenuine(InsertStep(e, env))
  {
    var Inserting(track, capture) := e.worker.phase;
    StockGenuine(e.shared.captures - {env.victim}, e.world.log, track, capture);
    StockGenuine(e.shared.captures, e.world.log, track, capture);
  }

  lemma DrainGenuine(e: Engine, env: Env)
    requires AllGenuine(e) && e.worker.phase.Draining?
    ensures AllGenuine(DrainStep(e, env))
  {
    if e.shared.commands != [] && e.shared.commands[0].NoClick? {
      ClickFrame(e.(shared := e.shared.(commands := e.shared.commands[1..])), e.shared.commands[0].side, env);
    }
    GenuineKept(e, DrainStep(e, env));
  }

  lemma PollGenuine(e: Engine, env: Env)
    requires AllGenuine(e) && e.worker.phase.Polling?
    ensures AllGenuine(PollStep(e, env))
  {
    PollFrame(e, env);
    GenuineKept(e, PollStep(e, env));
  }

  lemma PlainGenuine(e: Engine, env: Env)
    requires AllGenuine(e)
    requires e.worker.phase.Writing? || e.worker.phase.Evicting? || e.worker.phase.Reporting?
             || e.worker.phase.Wishing? || e.worker.phase.Clearing? || e.worker.phase.Choosing?
    ensures AllGenuine(Work(e, env))
  {
    GenuineKept(e, Work(e, env));
  }

  lemma QuietGenuine(e: Engine, env: Env)
    requires AllGenuine(e) && QuietPhase(e.worker.phase)
    ensures AllGenuine(Work(e, env))
  {
    WorkIsQuiet(e, env);
    GenuineKept(e, Work(e, env));
  }

  lemma WorkGenuine(e: Engine, env: Env)
    requires AllGenuine(e)
    ensures AllGenuine(Work(e, env))
  {
    if QuietPhase(e.worker.phase) {
      QuietGenuine(e, env);
    } else {
      match e.worker.phase
      case Draining => DrainGenuine(e, env);
      case Polling => PollGenuine(e, env);
      case Reading(_) => ReadGenuine(e, env);
      case Withdrawing(_, _) => WithdrawGenuine(e);
      case Inserting(_, _) => InsertGenuine(e, env);
      case _ => PlainGenuine(e, env);
    }
  }

  lemma ConsumeOnlyRemoves(s: State, ask: Ask)
    ensures var before, after := s.engine.shared.captures, Consume(s, ask).engine.shared.captures;
      && (forall track :: track in after ==> track in before)
      && (forall track, i :: track in after && 0 <= i < |after[track]| ==> after[track][i] in before[track])
  {
  }

  lemma HandKept(e: Engine, f: Engine)
    requires GenuineInHand(e) && f.worker == e.worker && e.world.log <= f.world.log
    ensures GenuineInHand(f)
  {
    match e.worker.phase
    case Withdrawing(track, raw) =>
      var j :| 0 <= j < |e.world.log| && e.world.log[j].Took? && e.world.log[j].track == track
               && e.world.log[j].generation == e.worker.generation + 1 && e.world.log[j].raw == raw;
      assert f.world.log[j] == e.world.log[j];
    case Inserting(track, capture) => GenuineLater(e.world.log, f.world.log, track, capture);
    case _ =>
  }

  lemma ConsumeGenuine(s: State, ask: Ask)
    requires AllGenuine(s.engine)
    ensures AllGenuine(Consume(s, ask).engine)
  {
    ConsumeFrame(s, ask);
    ConsumeOnlyRemoves(s, ask);
    HandKept(s.engine, Consume(s, ask).engine);
    GenuineKept(s.engine, Consume(s, ask).engine);
  }

  /** Over every run, every cached capture is a reply of the device, taken of its track,
      and its quality is true of its own cells: index-aligned if the reply was cut at
      the index, and otherwise verified exactly if it holds a full track of intact
      sectors. */
  lemma {:induction false} CapturesAreGenuine(status: Status, head: Track, max: nat, steps: seq<Step>)
    ensures AllGenuine(Run(Begin(status, head, max), steps).engine)
  {
    if steps != [] {
      var front := steps[..|steps| - 1];
      CapturesAreGenuine(status, head, max, front);
      var s := Run(Begin(status, head, max), front);
      match steps[|steps| - 1]
      case WorkerStep(env) => WorkGenuine(s.engine, env);
      case ConsumerStep(ask) => ConsumeGenuine(s, ask);
    }
  }

  // ----- when a track is read again -----

  /** The reading can be replayed as it is: nothing better is to be had. */
  ghost predicate Sufficient(capture: Capture) {
    capture.quality.IndexAligned? || HoldsFullTrack(capture.words, capture.bitLen)
  }

  lemma SufficientIsReusable(log: seq<Act>, track: Track, capture: Capture)
    requires Genuine(log, track, capture)
    ensures Sufficient(capture) <==> Reusable(capture.quality)
  {
  }

  lemma ChoosesExactly(e: Engine)
    requires e.worker.phase.Choosing? && AllGenuine(e) && |QueueOf(e.shared.captures, e.worker.target)| <= 2
    ensures var queue := QueueOf(e.shared.captures, e.worker.target);
      ChooseStep(e).worker.phase.Approaching?
      <==>
        && e.shared.status.working && e.shared.status.motorRunning && e.shared.status.diskPresent
        && e.worker.wanted == Some(e.worker.target)
        && (queue == [] || (|queue| == 1 && !Sufficient(queue[0])))
    ensures ChooseStep(e).worker.phase.Approaching? ==> ChooseStep(e).worker.phase.track == e.worker.target
  {
    var queue := QueueOf(e.shared.captures, e.worker.target);
    if queue != [] {
      SufficientIsReusable(e.world.log, e.worker.target, queue[|queue| - 1]);
    }
  }

  /** Over every run, the worker goes for a reading exactly when the drive is ready, its
      destination is demanded, and of that track there is no reading, or one only,
      neither cut at the index nor a full track of intact sectors. */
  lemma ReadsAgainExactly(status: Status, head: Track, max: nat, steps: seq<Step>, env: Env)
    requires Run(Begin(status, head, max), steps).engine.worker.phase.Choosing?
    ensures var e := Run(Begin(status, head, max), steps).engine;
      var queue := QueueOf(e.shared.captures, e.worker.target);
      Work(e, env).worker.phase == Approaching(e.worker.target)
      <==>
        && e.shared.status.working && e.shared.status.motorRunning && e.shared.status.diskPresent
        && e.worker.wanted == Some(e.worker.target)
        && (queue == [] || (|queue| == 1 && !Sufficient(queue[0])))
  {
    var e := Run(Begin(status, head, max), steps).engine;
    CapturesAreGenuine(status, head, max, steps);
    CacheSafety.ShapeOverRuns(status, head, max, steps);
    ChoosesExactly(e);
  }

  // ----- written tracks -----

  lemma CleanHoldsFullTrack(words: seq<bv16>, bitLen: nat)
    ensures Scan.ScanOf(words, bitLen) == Scan.CleanAmigaDos(FullTrack(bitLen)) <==> HoldsFullTrack(words, bitLen)
  {
  }

  /** A full track, captured as it was written, suffices; with one bad cell in any of its
      sectors it does not, and is read again. */
  lemma WrittenTracksSuffice(specs: seq<SectorSpec>, gap: seq<bool>, i: nat, k: nat, c: nat, start: nat)
    requires FullList(specs, gap) && i < |specs| && k < 270 && c < 16 && start == i * SECTOR_BITS
    ensures var ring := LaidRing(specs, gap);
      && HoldsFullTrack(Pack(ring), |ring|)
      && start + 16 + 16 * k + c < |ring| / 2
      && !HoldsFullTrack(Pack(Flipped(ring, start + 16 + 16 * k + c)), |ring|)
  {
    var ring := LaidRing(specs, gap);
    OneBadCell(specs, gap, i, k, c, start);
    CompleteListIsClean(specs, gap);
    CleanHoldsFullTrack(Pack(ring), |ring|);
    CleanHoldsFullTrack(Pack(Flipped(ring, start + 16 + 16 * k + c)), |ring|);
  }
}
