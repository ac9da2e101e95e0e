/** What a consumer reads of a track only ever moves forward, over every
    interleaving. */
module GenerationSafety {
  import opened Common
  import opened Controller
  import opened ControllerFrames

  predicate Ascending(queue: seq<Capture>) {
    forall i, j :: 0 <= i < j < |queue| ==> queue[i].generation < queue[j].generation
  }

  predicate Newer(queue: seq<Capture>, generation: int) {
    forall i :: 0 <= i < |queue| ==> queue[i].generation > generation
  }

  /** The newest generation that can be in the cache. */
  function Ceiling(e: Engine): int {
    if e.worker.phase.Inserting? then e.worker.generation - 1 else e.worker.generation
  }

  predicate CacheAges(captures: Cache, ceiling: int) {
    forall track :: track in captures ==>
      Ascending(captures[track]) && forall i :: 0 <= i < |captures[track]| ==> captures[track][i].generation <= ceiling
  }

  /** What was served or retired is older than, or still at, the front of its track. */
  predicate ActAges(a: Act, captures: Cache, ceiling: int) {
    && (a.Served? ==> a.generation <= ceiling && Newer(QueueOf(captures, a.track), a.generation - 1))
    && (a.Retired? ==> a.generation <= ceiling && Newer(QueueOf(captures, a.track), a.generation))
  }

  ghost predicate LogAges(log: seq<Act>, captures: Cache, ceiling: int) {
    forall i :: 0 <= i < |log| ==> ActAges(log[i], captures, ceiling)
  }

  /** Later reads of a track are never of an older generation, and are of a newer
      one than anything retired before them. */
  ghost predicate ReadsMoveForward(log: seq<Act>) {
    && (forall i, j :: 0 <= i < j < |log| && log[i].Served? && log[j].Served? && log[i].track == log[j].track ==>
          log[i].generation <= log[j].generation)
    && (forall i, j :: 0 <= i < j < |log| && log[i].Retired? && log[j].Served? && log[i].track == log[j].track ==>
          log[i].generation < log[j].generation)
  }

  ghost predicate Aging(e: Engine) {
    && CacheAges(e.shared.captures, Ceiling(e))
    && (e.worker.phase.Inserting? ==> e.worker.phase.capture.generation == e.worker.generation)
    && LogAges(e.world.log, e.shared.captures, Ceiling(e))
    && ReadsMoveForward(e.world.log)
  }

  predicate NoRead(a: Act) {
    !a.Served? && !a.Retired?
  }

  ghost predicate UnreadGrowth(before: seq<Act>, after: seq<Act>) {
    before <= after && forall i :: |before| <= i < |after| ==> NoRead(after[i])
  }

  /** Unless the cache grows or is read, ages only have room to increase. */
  lemma AgesKept(e: Engine, f: Engine)
    requires Aging(e)
    requires UnreadGrowth(e.world.log, f.world.log)
    requires Ceiling(e) <= Ceiling(f)
    requires f.worker.phase.Inserting? ==> f.worker.phase.capture.generation == f.worker.generation
    requires forall track :: track in f.shared.captures ==>
        track in e.shared.captures && f.shared.captures[track] == e.shared.captures[track]
    ensures Aging(f)
  {
    forall i | 0 <= i < |f.world.log|
      ensures ActAges(f.world.log[i], f.shared.captures, Ceiling(f))
    {
      if i < |e.world.log| {
        assert f.world.log[i] == e.world.log[i];
        assert ActAges(e.world.log[i], e.shared.captures, Ceiling(e));
      }
    }
  }

  lemma QueueGrows(queue: seq<Capture>, kept: seq<Capture>, capture: Capture, generation: int)
    requires kept == queue || (queue != [] && kept == queue[1..])
    requires Ascending(queue) && forall i :: 0 <= i < |queue| ==> queue[i].generation < capture.generation
    ensures Ascending(kept + [capture])
    ensures Newer(queue, generation) && generation < capture.generation ==> Newer(kept + [capture], generation)
  {
  }

  lemma ActAgesInsert(a: Act, captures: Cache, track: Track, capture: Capture)
    requires CacheAges(captures, capture.generation - 1) && ActAges(a, captures, capture.generation - 1)
    ensures ActAges(a, Stocked(captures, track, capture), capture.generation)
  {
    if (a.Served? || a.Retired?) && a.track == track {
      var queue := QueueOf(captures, track);
      var kept := if |queue| >= CAPTURES_PER_TRACK then queue[1..] else queue;
      assert QueueOf(Stocked(captures, track, capture), track) == kept + [capture];
      QueueGrows(queue, kept, capture, a.generation);
      QueueGrows(queue, kept, capture, a.generation - 1);
    }
  }

  lemma CacheAgesInsert(captures: Cache, track: Track, capture: Capture)
    requires CacheAges(captures, capture.generation - 1)
    ensures CacheAges(Stocked(captures, track, capture), capture.generation)
  {
    var queue := QueueOf(captures, track);
    QueueGrows(queue, if |queue| >= CAPTURES_PER_TRACK then queue[1..] else queue, capture, 0);
  }

  lemma ActAgesWithout(a: Act, captures: Cache, fewer: Cache, ceiling: int)
    requires ActAges(a, captures, ceiling)
    requires forall t :: t in fewer ==> t in captures && fewer[t] == captures[t]
    ensures ActAges(a, fewer, ceiling)
  {
  }

  lemma AgesInsert(e: Engine, captures: Cache, track: Track, capture: Capture)
    requires Aging(e)
    requires e.worker.phase == Inserting(track, capture)
    requires forall t :: t in captures ==> t in e.shared.captures && captures[t] == e.shared.captures[t]
    ensures Aging(At(e.(shared := e.shared.(captures := Stocked(captures, track, capture))), Draining))
  {
    CacheAgesInsert(captures, track, capture);
    forall i | 0 <= i < |e.world.log|
      ensures ActAges(e.world.log[i], Stocked(captures, track, capture), e.worker.generation)
    {
      ActAgesWithout(e.world.log[i], e.shared.captures, captures, Ceiling(e));
      ActAgesInsert(e.world.log[i], captures, track, capture);
    }
  }

  lemma InsertAges(e: Engine, env: Env)
    requires Aging(e) && e.worker.phase.Inserting?
    ensures Aging(InsertStep(e, env))
  {
    var Inserting(track, capture) := e.worker.phase;
    var captures := e.shared.captures;
    if NeedsRoom(captures, track) {
      if env.victim in captures && env.victim != track {
        AgesInsert(e, captures - {env.victim}, track, capture);
      }
    } else {
      AgesInsert(e, captures, track, capture);
    }
  }

  lemma DrainAges(e: Engine, env: Env)
    requires Aging(e) && e.worker.phase.Draining?
    ensures Aging(DrainStep(e, env))
  {
    if e.shared.commands != [] && e.shared.commands[0].NoClick? {
      ClickFrame(e.(shared := e.shared.(commands := e.shared.commands[1..])), e.shared.commands[0].side, env);
    }
    AgesKept(e, DrainStep(e, env));
  }

  lemma WatchAges(e: Engine, env: Env)
    requires Aging(e) && (e.worker.phase.Polling? || e.worker.phase.Reading?)
    ensures Aging(Work(e, env))
  {
    if e.worker.phase.Polling? {
      PollFrame(e, env);
    } else {
      ReadFrame(e, env);
    }
    AgesKept(e, Work(e, env));
  }

  lemma OtherAges(e: Engine, env: Env)
    requires Aging(e)
    requires e.worker.phase.Writing? || e.worker.phase.Evicting? || e.worker.phase.Reporting? || e.worker.phase.Wishing?
             || e.worker.phase.Clearing? || e.worker.phase.Choosing? || e.worker.phase.Withdrawing?
    ensures Aging(Work(e, env))
  {
    WorkFrame(e, env);
    AgesKept(e, Work(e, env));
  }

  lemma WorkAges(e: Engine, env: Env)
    requires Aging(e)
    ensures Aging(Work(e, env))
  {
    if QuietPhase(e.worker.phase) {
      WorkIsQuiet(e, env);
      AgesKept(e, Work(e, env));
    } else {
      match e.worker.phase
      case Draining => DrainAges(e, env);
      case Polling => WatchAges(e, env);
      case Reading(_) => WatchAges(e, env);
      case Inserting(_, _) => InsertAges(e, env);
      case _ => OtherAges(e, env);
    }
  }

  lemma AgesRead(e: Engine, f: Engine, a: Act)
    requires Aging(e)
    requires f.world.log == e.world.log + [a]
    requires f.worker == e.worker
    requires a.Served? || a.Retired?
    requires QueueOf(e.shared.captures, a.track) != []
    requires a.generation == e.shared.captures[a.track][0].generation
    requires if a.Served? then f.shared.captures == e.shared.captures
             else f.shared.captures == e.shared.captures[a.track := e.shared.captures[a.track][1..]]
    ensures Aging(f)
  {
    forall i | 0 <= i < |f.world.log|
      ensures ActAges(f.world.log[i], f.shared.captures, Ceiling(f))
    {
      if i < |e.world.log| {
        assert f.world.log[i] == e.world.log[i];
        assert ActAges(e.world.log[i], e.shared.captures, Ceiling(e));
      }
    }
    forall i | 0 <= i < |e.world.log| && a.Served?
      ensures e.world.log[i].Served? && e.world.log[i].track == a.track ==> e.world.log[i].generation <= a.generation
      ensures e.world.log[i].Retired? && e.world.log[i].track == a.track ==> e.world.log[i].generation < a.generation
    {
      assert ActAges(e.world.log[i], e.shared.captures, Ceiling(e));
    }
  }

  lemma ConsumeAges(s: State, ask: Ask)
    requires Aging(s.engine)
    ensures Aging(Consume(s, ask).engine)
  {
    var e, f := s.engine, Consume(s, ask).engine;
    if ask.Look? || ask.Pop? {
      var at := ClampTrack(ask.track, s.bridge.maxCylinders);
      if !s.bridge.dropped && QueueOf(e.shared.captures, at) != [] {
        AgesRead(e, f, f.world.log[|e.world.log|]);
      }
    } else {
      AgesKept(e, f);
    }
  }

  /** Over every run, the generations a consumer reads of a track never decrease,
      and strictly increase across an advance. */
  lemma {:induction false} ReadsMoveForwardOverRuns(status: Status, head: Track, max: nat, steps: seq<Step>)
    ensures Aging(Run(Begin(status, head, max), steps).engine)
    ensures ReadsMoveForward(Run(Begin(status, head, max), steps).engine.world.log)
  {
    if steps != [] {
      var front := steps[..|steps| - 1];
      ReadsMoveForwardOverRuns(status, head, max, front);
      var s := Run(Begin(status, head, max), front);
      match steps[|steps| - 1]
      case WorkerStep(env) => WorkAges(s.engine, env);
      case ConsumerStep(ask) => ConsumeAges(s, ask);
    }
  }
}
