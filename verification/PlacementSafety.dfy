/** Where on the track a write is put: what it is measured against, and when it begins
    at the index. */
module PlacementSafety {
  import opened Common
  import opened Controller
  import opened ControllerFrames
  import opened HeadSafety
  import opened QualitySafety

  /** What a write was measured against last. */
  function LastMeasured(log: seq<Act>): (a: Option<Act>)
    ensures a.Some? ==> a.value.Measured?
  {
    if log == [] then None
    else if log[|log| - 1].Measured? then Some(log[|log| - 1])
    else LastMeasured(log[..|log| - 1])
  }

  /** The length is the write's own, or that of some reading of its track. */
  ghost predicate KnownLength(log: seq<Act>, request: WriteRequest, trackBits: nat) {
    || trackBits == request.bitLen
    || exists j :: 0 <= j < |log| && log[j].Took? && log[j].track == request.track && log[j].raw.bitLen == trackBits
  }

  /** A write begins at the index exactly if its start is within 30 cells of it, either
      way round; and one that does not covers the track but for 16 cells at most. */
  ghost predicate PlacedByLength(log: seq<Act>, id: nat, request: WriteRequest, fromIndex: bool) {
    var measured := LastMeasured(log);
    && measured.Some? && measured.value.id == id
    && var trackBits := measured.value.trackBits;
    && KnownLength(log, request, trackBits)
    && (fromIndex <==> request.startBit <= 30 || request.startBit + 30 >= trackBits)
    && (fromIndex || request.bitLen + 16 >= trackBits)
  }

  ghost predicate PlacesNext(e: Engine) {
    match e.worker.phase
    case Writing(id, request, fromIndex) => PlacedByLength(e.world.log, id, request, fromIndex)
    case _ => true
  }

  ghost predicate AllPlaced(log: seq<Act>) {
    forall j :: 0 <= j < |log| && log[j].Wrote? ==>
      PlacedByLength(log[..j], log[j].id, log[j].request, log[j].fromIndex)
  }

  lemma PlacedLater(before: seq<Act>, after: seq<Act>)
    requires AllPlaced(before) && before <= after
    requires forall i :: |before| <= i < |after| ==> !after[i].Wrote?
    ensures AllPlaced(after)
  {
    forall j | 0 <= j < |after| && after[j].Wrote?
      ensures PlacedByLength(after[..j], after[j].id, after[j].request, after[j].fromIndex)
    {
      assert before[j] == after[j] && before[..j] == after[..j];
    }
  }

  lemma PlacedNow(log: seq<Act>, id: nat, request: WriteRequest, fromIndex: bool, head: Track, reply: Option<Error>)
    requires AllPlaced(log) && PlacedByLength(log, id, request, fromIndex)
    ensures AllPlaced(log + [Wrote(id, request, fromIndex, head, reply)])
  {
    var after := log + [Wrote(id, request, fromIndex, head, reply)];
    forall j | 0 <= j < |after| && after[j].Wrote?
      ensures PlacedByLength(after[..j], after[j].id, after[j].request, after[j].fromIndex)
    {
      if j < |log| {
        assert log[j] == after[j] && log[..j] == after[..j];
      } else {
        assert after[..j] == log;
      }
    }
  }

  lemma {:induction false} MeasuredBefore(before: seq<Act>, after: seq<Act>)
    requires before <= after && forall i :: |before| <= i < |after| ==> !after[i].Measured?
    ensures LastMeasured(after) == LastMeasured(before)
    decreases |after|
  {
    if |after| == |before| {
      assert after == before;
    } else {
      MeasuredBefore(before, after[..|after| - 1]);
    }
  }

  lemma LengthKnownLater(before: seq<Act>, after: seq<Act>, request: WriteRequest, trackBits: nat)
    requires before <= after && KnownLength(before, request, trackBits)
    ensures KnownLength(after, request, trackBits)
  {
    if trackBits != request.bitLen {
      var j :| 0 <= j < |before| && before[j].Took? && before[j].track == request.track
               && before[j].raw.bitLen == trackBits;
      assert after[j] == before[j];
    }
  }

  /** The length of the oldest reading of a track is that of a reading of it. */
  lemma CachedLength(e: Engine, request: WriteRequest)
    requires GenuineCache(e.shared.captures, e.world.log)
    ensures KnownLength(e.world.log, request, Controller.TrackBits(e.shared.captures, request.track, request.bitLen))
  {
    var captures, track := e.shared.captures, request.track;
    if track in captures && captures[track] != [] {
      var capture := captures[track][0];
      assert Genuine(e.world.log, track, capture);
      var j :| 0 <= j < |e.world.log| && TookAs(e.world.log[j], track, capture)
               && Deserves(e.world.log[j].raw, capture.quality);
      assert e.world.log[j].raw.bitLen == capture.bitLen;
    }
  }

  lemma MeasurePlaces(e: Engine)
    requires e.worker.phase.Measuring? && AllPlaced(e.world.log) && GenuineCache(e.shared.captures, e.world.log)
    ensures PlacesNext(MeasureStep(e)) && AllPlaced(MeasureStep(e).world.log)
  {
    var Measuring(id, request) := e.worker.phase;
    var log := MeasureStep(e).world.log;
    CachedLength(e, request);
    LengthKnownLater(e.world.log, log, request, Controller.TrackBits(e.shared.captures, request.track, request.bitLen));
    PlacedLater(e.world.log, log);
  }

  lemma WorkPlaces(e: Engine, env: Env)
    requires PlacesNext(e) && AllPlaced(e.world.log) && GenuineCache(e.shared.captures, e.world.log)
    ensures PlacesNext(Work(e, env)) && AllPlaced(Work(e, env).world.log)
  {
    match e.worker.phase
    case Measuring(_, _) => MeasurePlaces(e);
    case Writing(id, request, fromIndex) => PlacedNow(e.world.log, id, request, fromIndex, e.world.head, env.call);
    case Placing(_, _) =>
      PlaceFrame(e, env);
      PlacedLater(e.world.log, Work(e, env).world.log);
    case _ =>
      OthersWriteNothing(e, env);
      PlacedLater(e.world.log, Work(e, env).world.log);
  }

  lemma ConsumePlaces(s: State, ask: Ask)
    requires PlacesNext(s.engine) && AllPlaced(s.engine.world.log)
    ensures PlacesNext(Consume(s, ask).engine) && AllPlaced(Consume(s, ask).engine.world.log)
  {
    var log, after := s.engine.world.log, Consume(s, ask).engine.world.log;
    ConsumeFrame(s, ask);
    PlacedLater(log, after);
    if s.engine.worker.phase.Writing? {
      MeasuredBefore(log, after);
      LengthKnownLater(log, after, s.engine.worker.phase.request, LastMeasured(log).value.trackBits);
    }
  }

  /** Over every run, each write is measured against its own length or that of a reading
      of its track, and begins at the index, or covers the track, accordingly. */
  lemma {:induction false} WritesArePlacedByLength(status: Status, head: Track, max: nat, steps: seq<Step>)
    ensures var e := Run(Begin(status, head, max), steps).engine; PlacesNext(e) && AllPlaced(e.world.log)
  {
    if steps != [] {
      var front := steps[..|steps| - 1];
      WritesArePlacedByLength(status, head, max, front);
      CapturesAreGenuine(status, head, max, front);
      var s := Run(Begin(status, head, max), front);
      match steps[|steps| - 1]
      case WorkerStep(env) => WorkPlaces(s.engine, env);
      case ConsumerStep(ask) => ConsumePlaces(s, ask);
    }
  }
}
