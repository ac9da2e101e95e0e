/** A consumer's wishes, as far as the destination the worker is to act on: the
    latest one wins. */
module WishSafety {
  import opened Common
  import opened Controller
  import opened ControllerFrames
  import opened WriteSafety

  function Last<T>(s: seq<T>): Option<T> {
    if s == [] then None else Some(s[|s| - 1])
  }

  // ----- where the head belongs -----

  function AimOf(a: Act): seq<Track> {
    if a.Aimed? then [a.track] else []
  }

  /** The track last asked for, or where the worker begins. */
  function Destination(log: seq<Act>): Track {
    var latest := Last(Flat(log, AimOf));
    if latest.Some? then latest.value else HOME
  }

  /** The destination is the latest one asked for, whether or not the worker has
      taken it up yet, and a capture is only ever made of one it has taken up. */
  predicate AimsRight(e: Engine) {
    && (if e.shared.desired.target.Some? then e.shared.desired.target.value else e.worker.target)
       == Destination(e.world.log)
    && (Filling(e.worker.phase).Some? ==> Filling(e.worker.phase).value == e.worker.target)
    && MovesToTarget(e)
  }

  /** The movement about to be made is to the destination taken up. */
  predicate MovesToTarget(e: Engine) {
    e.worker.phase.Steering? && e.worker.phase.moves.Some? ==> e.worker.phase.moves.value == e.worker.target
  }

  lemma AimKept(e: Engine, f: Engine)
    requires AimsRight(e)
    requires f.shared.desired.target == e.shared.desired.target && f.worker.target == e.worker.target
    requires e.world.log <= f.world.log
    requires forall i :: |e.world.log| <= i < |f.world.log| ==> !f.world.log[i].Aimed?
    requires Filling(f.worker.phase).Some? ==> Filling(f.worker.phase).value == f.worker.target
    requires MovesToTarget(f)
    ensures AimsRight(f)
  {
    FlatSilent(e.world.log, f.world.log, AimOf);
  }

  lemma WishAims(e: Engine)
    requires AimsRight(e) && e.worker.phase.Wishing?
    ensures AimsRight(WishStep(e))
  {
  }

  lemma WorkAims(e: Engine, env: Env)
    requires AimsRight(e)
    ensures AimsRight(Work(e, env))
  {
    if e.worker.phase.Wishing? {
      WishAims(e);
    } else {
      WorkFrame(e, env);
      AimKept(e, Work(e, env));
    }
  }

  lemma ConsumeAims(s: State, ask: Ask)
    requires AimsRight(s.engine)
    ensures AimsRight(Consume(s, ask).engine)
  {
    var e, f := s.engine, Consume(s, ask).engine;
    if (ask.Seek? || ask.Demand?) && !s.bridge.dropped {
      FlatPush(e.world.log, f.world.log[|e.world.log|], AimOf);
    } else {
      ConsumeFrame(s, ask);
      AimKept(e, f);
    }
  }

  /** Over every run, the destination the worker is to act on, or last acted on, is
      the latest asked for. Whether the head gets there is another matter. */
  lemma {:induction false} LatestAimWins(status: Status, head: Track, max: nat, steps: seq<Step>)
    ensures AimsRight(Run(Begin(status, head, max), steps).engine)
  {
    if steps != [] {
      var front := steps[..|steps| - 1];
      LatestAimWins(status, head, max, front);
      var s := Run(Begin(status, head, max), front);
      match steps[|steps| - 1]
      case WorkerStep(env) => WorkAims(s.engine, env);
      case ConsumerStep(ask) => ConsumeAims(s, ask);
    }
  }

  // ----- which track is demanded -----

  function DemandOf(a: Act): seq<Track> {
    if a.Aimed? && a.demanded then [a.track] else []
  }

  /** The track to be kept stocked is the last one read or advanced, whatever has been
      sought since, and whether or not the worker has taken it up. */
  predicate StocksRight(e: Engine) {
    (if e.shared.desired.wanted.Some? then e.shared.desired.wanted else e.worker.wanted)
    == Last(Flat(e.world.log, DemandOf))
  }

  lemma StockKept(e: Engine, f: Engine)
    requires StocksRight(e)
    requires f.shared.desired.wanted == e.shared.desired.wanted && f.worker.wanted == e.worker.wanted
    requires e.world.log <= f.world.log
    requires forall i :: |e.world.log| <= i < |f.world.log| ==> DemandOf(f.world.log[i]) == []
    ensures StocksRight(f)
  {
    FlatSilent(e.world.log, f.world.log, DemandOf);
  }

  lemma WorkStocks(e: Engine, env: Env)
    requires StocksRight(e)
    ensures StocksRight(Work(e, env))
  {
    if !e.worker.phase.Wishing? {
      WorkFrame(e, env);
      StockKept(e, Work(e, env));
    }
  }

  lemma ConsumeStocks(s: State, ask: Ask)
    requires StocksRight(s.engine)
    ensures StocksRight(Consume(s, ask).engine)
  {
    var e, f := s.engine, Consume(s, ask).engine;
    if ask.Demand? && !s.bridge.dropped {
      FlatPush(e.world.log, f.world.log[|e.world.log|], DemandOf);
    } else {
      ConsumeFrame(s, ask);
      StockKept(e, f);
    }
  }

  /** Over every run, the track the worker is to keep stocked is the one demanded last,
      by a read or an advance; a seek alone never changes it. */
  lemma {:induction false} LatestDemandWins(status: Status, head: Track, max: nat, steps: seq<Step>)
    ensures StocksRight(Run(Begin(status, head, max), steps).engine)
  {
    if steps != [] {
      var front := steps[..|steps| - 1];
      LatestDemandWins(status, head, max, front);
      var s := Run(Begin(status, head, max), front);
      match steps[|steps| - 1]
      case WorkerStep(env) => WorkStocks(s.engine, env);
      case ConsumerStep(ask) => ConsumeStocks(s, ask);
    }
  }

  predicate ErrorFree(log: seq<Act>) {
    forall i :: 0 <= i < |log| ==> !log[i].Noted?
  }

  lemma ErrorFreeBefore(before: seq<Act>, after: seq<Act>)
    requires before <= after && ErrorFree(after)
    ensures ErrorFree(before)
  {
    forall i | 0 <= i < |before|
      ensures !before[i].Noted?
    {
      assert before[i] == after[i];
    }
  }

  lemma StopsForGood(s: State, step: Step)
    ensures s.engine.worker.phase.Stopped? ==> Next(s, step).engine.worker.phase.Stopped?
    ensures s.engine.world.log <= Next(s, step).engine.world.log
  {
    match step
    case WorkerStep(env) => WorkFrame(s.engine, env);
    case ConsumerStep(ask) => ConsumeFrame(s, ask);
  }

  // ----- a passing error -----

  /** A device whose head movements fail once, in passing, and that is otherwise obedient. */
  const SLIP := Env(Failed(Io, None), Done, None, false, PollFailed(Timeout), ReadFailed(Timeout), HOME)

  lemma OneSlip(s: State, steps: seq<Step>, t: State)
    requires Run(s, steps) == t
    ensures Run(s, steps + [WorkerStep(SLIP)]) == State(Work(t.engine, SLIP), t.bridge)
  {
    OneMore(s, steps, WorkerStep(SLIP));
  }

  /** A worker with a head movement before it, which fails. */
  predicate AboutToSlip(e: Engine, track: Track) {
    && e.worker.phase.Draining? && e.shared.commands == [] && !e.worker.failed && e.worker.errors == 0
    && e.shared.desired.target == Some(track) && e.shared.desired.wanted.None? && !e.worker.positioned
  }

  /** Three steps on, the wishes are gone and nothing has come of them. */
  lemma Slips(e: Engine, track: Track)
    requires AboutToSlip(e, track)
    ensures var f := Work(Work(Work(e, SLIP), SLIP), SLIP);
      && f.worker.phase.Polling? && !f.worker.failed && f.worker.wanted == e.worker.wanted
      && f.shared.desired == NO_WISH && f.shared.commands == []
      && f.world.head == e.world.head
      && f.world.log == e.world.log + [Sought(track.cylinder)] + [Noted(Io)]
  {
    var a := Work(e, SLIP);
    assert a == At(e, Wishing);
    var b := Work(a, SLIP);
    assert b.worker.phase == Steering(Some(track), e.shared.desired.motor) && b.world == e.world;
    assert b.shared.desired == NO_WISH;
  }

  lemma ThreeSlips(s: State, steps: seq<Step>, track: Track) returns (longer: seq<Step>)
    requires AboutToSlip(Run(s, steps).engine, track)
    ensures var t := Run(s, steps);
      Run(s, longer) == State(Work(Work(Work(t.engine, SLIP), SLIP), SLIP), t.bridge)
  {
    var t := Run(s, steps);
    OneSlip(s, steps, t);
    longer := steps + [WorkerStep(SLIP)];
    var u := State(Work(t.engine, SLIP), t.bridge);
    OneSlip(s, longer, u);
    longer := longer + [WorkerStep(SLIP)];
    OneSlip(s, longer, State(Work(u.engine, SLIP), u.bridge));
    longer := longer + [WorkerStep(SLIP)];
  }
}
