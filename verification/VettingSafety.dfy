/** What `submit_write` lets through: writes that can be encoded at any device clock, that
    would be placed if they were performed at once, and none to a protected disk. */
module VettingSafety {
  import opened Common
  import opened Controller
  import opened ControllerFrames
  import opened StatusSafety
  import Revolution
  import TrackBits
  import Ticks
  import WriteRead

  // ----- accepted writes can be sent -----

  /** At any clock up to 500 MHz and either density, the track makes a stream. */
  ghost predicate Sendable(words: seq<bv16>, bitLen: nat) {
    forall highDensity: bool, frequency: U32 :: 0 < frequency <= 500_000_000 ==>
      WriteRead.WrittenStream(words, bitLen, highDensity, frequency).Ok?
  }

  lemma Product(a: nat, b: nat, x: nat, y: nat)
    requires a <= x && b <= y
    ensures a * b <= x * y
  {
    assert a * b <= x * b;
    assert x * b <= x * y;
  }

  /** Every delay is at most that of the longest track without a transition. */
  lemma ShortDelay(delay: U32, frequency: U32)
    requires delay <= 475_136_000 && 0 < frequency <= 500_000_000
    ensures Ticks.TicksOf(delay, frequency) < Ticks.TICK_LIMIT
  {
    Product(delay, frequency, 475_136_000, 500_000_000);
  }

  lemma GapsFit(gaps: seq<nat>, cell: U32)
    requires cell <= 2_000 && forall k :: 0 <= k < |gaps| ==> gaps[k] <= 237_568
    ensures Revolution.Fits(gaps, cell)
    ensures forall k :: 0 <= k < |gaps| ==> Revolution.Delays(gaps, cell)[k] <= 475_136_000
  {
    forall k | 0 <= k < |gaps|
      ensures gaps[k] * cell <= 475_136_000
    {
      Product(gaps[k], cell, 237_568, 2_000);
    }
  }

  lemma WellFormedIsSendable(words: seq<bv16>, bitLen: nat)
    requires 0 < bitLen <= |words| * 16 && bitLen <= MAX_TRACK_BITS
    ensures Sendable(words, bitLen)
  {
    forall highDensity: bool, frequency: U32 | 0 < frequency <= 500_000_000
      ensures WriteRead.WrittenStream(words, bitLen, highDensity, frequency).Ok?
    {
      var cell := WriteRead.CellNanoseconds(highDensity);
      var gaps := Revolution.Gaps(TrackBits.Unpack(words, bitLen));
      GapsFit(gaps, cell);
      var delays := Revolution.Delays(gaps, cell);
      forall k | 0 <= k < |delays|
        ensures Ticks.TicksOf(delays[k], frequency) <= U32_MAX
      {
        ShortDelay(delays[k], frequency);
      }
    }
  }

  ghost predicate SendableWrite(request: WriteRequest, max: nat) {
    Sendable(request.words, request.bitLen) && request.track.cylinder < Max(max, 1)
  }

  /** Every write accepted, and the one just vetted, can be sent. */
  ghost predicate AllSendable(s: State) {
    && (forall i :: 0 <= i < |s.engine.world.log| && s.engine.world.log[i].Accepted? ==>
          SendableWrite(s.engine.world.log[i].request, s.bridge.maxCylinders))
    && (s.bridge.vetted.Some? ==> SendableWrite(s.bridge.vetted.value, s.bridge.maxCylinders))
  }

  lemma VetSends(s: State, request: WriteRequest)
    requires AllSendable(s)
    ensures AllSendable(Consume(s, Vet(request)))
  {
    var t := Consume(s, Vet(request));
    if t.bridge.vetted.Some? && !s.bridge.dropped {
      WellFormedIsSendable(t.bridge.vetted.value.words, t.bridge.vetted.value.bitLen);
    }
  }

  lemma EnqueueSends(s: State)
    requires AllSendable(s)
    ensures AllSendable(Consume(s, Enqueue))
  {
  }

  lemma CallSends(s: State, ask: Ask)
    requires AllSendable(s) && !ask.Vet? && !ask.Enqueue?
    ensures AllSendable(Consume(s, ask))
  {
    ConsumeFrame(s, ask);
    SameVetted(s, ask);
  }

  lemma SameVetted(s: State, ask: Ask)
    requires !ask.Vet? && !ask.Enqueue?
    ensures var t := Consume(s, ask); t.bridge.vetted == s.bridge.vetted && t.bridge.maxCylinders == s.bridge.maxCylinders
  {
  }

  lemma WorkSends(s: State, env: Env)
    requires AllSendable(s)
    ensures AllSendable(s.(engine := Work(s.engine, env)))
  {
    WorkFrame(s.engine, env);
  }

  /** Over every run, every accepted write names a cylinder in reach, and makes a stream of
      intervals that the encoder can express, at any clock and either density: an accepted
      write never fails for its contents. */
  lemma {:induction false} AcceptedWritesCanBeSent(status: Status, head: Track, max: nat, steps: seq<Step>)
    ensures AllSendable(Run(Begin(status, head, max), steps))
    ensures Run(Begin(status, head, max), steps).bridge.maxCylinders == max
  {
    if steps != [] {
      var front := steps[..|steps| - 1];
      AcceptedWritesCanBeSent(status, head, max, front);
      var s := Run(Begin(status, head, max), front);
      match steps[|steps| - 1]
      case WorkerStep(env) => WorkSends(s, env);
      case ConsumerStep(ask) =>
        match ask {
          case Vet(request) => VetSends(s, request);
          case Enqueue => EnqueueSends(s);
          case _ =>
            SameVetted(s, ask);
            CallSends(s, ask);
        }
    }
  }

  // ----- the two checks of a write's place -----

  /** The check a write passes when it is submitted is the one it meets when it is
      performed: unless the reading of its track has changed in between, the second
      refuses exactly what the first did, in the same words. */
  lemma VettingAgreesWithPlacing(e: Engine, f: Engine, id: nat, request: WriteRequest)
    requires f.worker.phase == Measuring(id, request) && !e.shared.status.writeProtected
    requires 0 < request.bitLen <= |request.words| * 16 && request.bitLen <= MAX_TRACK_BITS
    requires QueueOf(e.shared.captures, request.track) == QueueOf(f.shared.captures, request.track)
    ensures match Vetted(e, request)
      case Ok(passed) => passed == request && MeasureStep(f).worker.phase.Writing?
      case Err(error) => MeasureStep(f).worker.phase == Evicting(id, request, Some(error))
  {
    assert request.words != [];
  }

  // ----- protected disks -----

  /** Nothing has ever said that the disk can be written. */
  predicate Protected(log: seq<Act>) {
    forall i :: 0 <= i < |log| && log[i].Reported? ==> log[i].status.writeProtected
  }

  /** No write has been let through. */
  predicate Untouched(s: State) {
    && s.engine.shared.status.writeProtected && s.bridge.vetted.None?
    && match s.engine.worker.phase
       case Clearing(news, _) => news.writeProtected
       case Announcing(news, _) => news.writeProtected
       case Storing(news) => news.writeProtected
       case _ => true
  }

  lemma WorkLeavesUntouched(s: State, env: Env)
    requires Untouched(s) && Protected(Work(s.engine, env).world.log)
    ensures Untouched(s.(engine := Work(s.engine, env)))
  {
    var e, f := s.engine, Work(s.engine, env);
    if e.worker.phase.Polling? {
      PollLeavesUntouched(e, env);
    } else if !Informed(e.worker.phase) {
      SaysNothing(e, env);
    }
  }

  lemma PollLeavesUntouched(e: Engine, env: Env)
    requires e.worker.phase.Polling? && e.shared.status.writeProtected && Protected(PollStep(e, env).world.log)
    ensures var f := PollStep(e, env);
      && f.shared.status.writeProtected
      && (Informed(f.worker.phase) ==> f.worker.phase.news.writeProtected)
  {
    var f := PollStep(e, env);
    if env.due && env.poll.PollFailed? {
      NoteErrorSays(e, env.poll.error, Choosing);
    } else if env.due {
      assert f.world.log[|f.world.log| - 1] == Reported(f.worker.phase.news);
    }
  }

  lemma ConsumeLeavesUntouched(s: State, ask: Ask)
    requires Untouched(s)
    ensures Untouched(Consume(s, ask))
    ensures forall i :: |s.engine.world.log| <= i < |Consume(s, ask).engine.world.log| ==>
        !Consume(s, ask).engine.world.log[i].Accepted?
  {
    ConsumeFrame(s, ask);
    SnapshotStays(s, ask);
    NothingVetted(s, ask);
  }

  lemma NothingVetted(s: State, ask: Ask)
    requires s.engine.shared.status.writeProtected && s.bridge.vetted.None?
    ensures Consume(s, ask).bridge.vetted.None?
    ensures ask.Enqueue? ==> Consume(s, ask) == s
  {
  }

  /** As long as the device has never said otherwise, no write to a protected disk is ever
      accepted. */
  lemma {:induction false} ProtectedDisksAreNotWritten(status: Status, head: Track, max: nat, steps: seq<Step>)
    requires status.writeProtected && Protected(Run(Begin(status, head, max), steps).engine.world.log)
    ensures var s := Run(Begin(status, head, max), steps);
      Untouched(s) && forall i :: 0 <= i < |s.engine.world.log| ==> !s.engine.world.log[i].Accepted?
  {
    if steps != [] {
      var front := steps[..|steps| - 1];
      var s, t := Run(Begin(status, head, max), front), Run(Begin(status, head, max), steps);
      LogGrows(s, steps[|steps| - 1]);
      ProtectedBefore(s.engine.world.log, t.engine.world.log);
      ProtectedDisksAreNotWritten(status, head, max, front);
      match steps[|steps| - 1]
      case WorkerStep(env) =>
        WorkFrame(s.engine, env);
        WorkLeavesUntouched(s, env);
      case ConsumerStep(ask) =>
        ConsumeFrame(s, ask);
        ConsumeLeavesUntouched(s, ask);
    }
  }

  lemma LogGrows(s: State, step: Step)
    ensures s.engine.world.log <= Next(s, step).engine.world.log
  {
    match step
    case WorkerStep(env) => WorkFrame(s.engine, env);
    case ConsumerStep(ask) => ConsumeFrame(s, ask);
  }

  lemma ProtectedBefore(before: seq<Act>, after: seq<Act>)
    requires before <= after && Protected(after)
    ensures Protected(before)
  {
    forall i | 0 <= i < |before| && before[i].Reported?
      ensures before[i].status.writeProtected
    {
      assert before[i] == after[i];
    }
  }
}
