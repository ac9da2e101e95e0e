/** The shape of the capture cache over every interleaving, although a consumer
    can retire readings between the worker's check and its insertion. */
module CacheSafety {
  import opened Common
  import opened Controller
  import opened ControllerFrames

  predicate ShapelyQueue(queue: seq<Capture>) {
    |queue| <= 2 && (|queue| == 2 ==> queue[0].quality.Unverified?)
  }

  /** Nothing held, or one reading that cannot be replayed. */
  predicate RoomFor(captures: Cache, track: Track) {
    var queue := QueueOf(captures, track);
    queue == [] || (|queue| == 1 && queue[0].quality.Unverified?)
  }

  predicate ShapelyCache(captures: Cache) {
    && |captures| <= 8
    && forall track :: track in captures ==> ShapelyQueue(captures[track])
  }

  /** At most eight tracks of at most two readings, a second only behind a front
      that cannot be replayed; and while a capture is under way its track is the
      demanded one and has room for it. */
  ghost predicate Shapely(e: Engine) {
    && ShapelyCache(e.shared.captures)
    && (Filling(e.worker.phase).Some? ==>
          && e.worker.wanted == Filling(e.worker.phase)
          && RoomFor(e.shared.captures, Filling(e.worker.phase).value))
  }

  lemma ShapeQuiet(e: Engine, f: Engine)
    requires Shapely(e) && QuietPhase(e.worker.phase) && QuietTo(e, f)
    ensures Shapely(f)
  {
  }

  lemma MinusKeeps(captures: Cache, key: Track)
    requires ShapelyCache(captures)
    ensures ShapelyCache(captures - {key})
    ensures key in captures ==> |captures - {key}| == |captures| - 1
    ensures key !in captures ==> |captures - {key}| == |captures|
  {
    var rest := captures - {key};
    assert rest.Keys == captures.Keys - {key};
    assert |rest| == |rest.Keys| && |captures| == |captures.Keys|;
  }

  lemma StockKeeps(captures: Cache, track: Track, capture: Capture)
    requires ShapelyCache(captures) && RoomFor(captures, track)
    requires track in captures || |captures| < 8
    ensures ShapelyCache(Stocked(captures, track, capture))
    ensures Stocked(captures, track, capture)
         == captures[track := QueueOf(captures, track) + [capture]]
  {
    var stocked := Stocked(captures, track, capture);
    assert stocked.Keys == captures.Keys + {track};
    assert |stocked| == |stocked.Keys| && |captures| == |captures.Keys|;
    if track in captures {
      assert captures.Keys + {track} == captures.Keys;
    }
  }

  /** A full cache of other tracks always has one to give up. */
  lemma FullHasAnother(captures: Cache, track: Track)
    requires |captures| >= 8 && track !in captures
    ensures NeedsRoom(captures, track)
  {
    assert captures != map[];
    var key :| key in captures;
  }

  /** What insertion makes of the cache: the track has room, so no reading of it is
      popped, and room in the cache is made at another track's expense only. */
  lemma InsertionStocks(captures: Cache, track: Track, capture: Capture, victim: Track)
    requires ShapelyCache(captures) && RoomFor(captures, track)
    requires NeedsRoom(captures, track) ==> victim in captures && victim != track
    ensures var kept := if NeedsRoom(captures, track) then captures - {victim} else captures;
      && Stocked(kept, track, capture) == kept[track := QueueOf(captures, track) + [capture]]
      && ShapelyCache(Stocked(kept, track, capture))
  {
    if NeedsRoom(captures, track) {
      MinusKeeps(captures, victim);
      StockKeeps(captures - {victim}, track, capture);
    } else {
      if track !in captures && |captures| >= 8 {
        FullHasAnother(captures, track);
      }
      StockKeeps(captures, track, capture);
    }
  }

  /** Insertion never displaces: the demanded track gains its reading, and every
      other track but one keeps what it had. */
  lemma InsertKeepsDemanded(e: Engine, env: Env)
    requires Shapely(e) && e.worker.phase.Inserting?
    ensures Shapely(InsertStep(e, env))
    ensures var track, f := e.worker.phase.track, InsertStep(e, env);
      && Some(track) == e.worker.wanted
      && (f != e ==>
            && track in f.shared.captures
            && f.shared.captures[track] == QueueOf(e.shared.captures, track) + [e.worker.phase.capture]
            && forall t :: t in e.shared.captures && t != track
                           && (t != env.victim || |e.shared.captures| < 8 || track in e.shared.captures) ==>
                 t in f.shared.captures && f.shared.captures[t] == e.shared.captures[t])
  {
    var Inserting(track, capture) := e.worker.phase;
    var captures := e.shared.captures;
    if !NeedsRoom(captures, track) || (env.victim in captures && env.victim != track) {
      InsertionStocks(captures, track, capture, env.victim);
    }
  }

  lemma ShapeDrain(e: Engine, env: Env)
    requires Shapely(e) && e.worker.phase.Draining?
    ensures Shapely(DrainStep(e, env))
  {
    if e.shared.commands != [] && e.shared.commands[0].NoClick? {
      ClickFrame(e.(shared := e.shared.(commands := e.shared.commands[1..])), e.shared.commands[0].side, env);
    }
  }

  lemma ShapeEvict(e: Engine)
    requires Shapely(e) && e.worker.phase.Evicting?
    ensures Shapely(EvictStep(e))
  {
    MinusKeeps(e.shared.captures, e.worker.phase.request.track);
  }

  lemma ShapeChoose(e: Engine)
    requires Shapely(e) && e.worker.phase.Choosing?
    ensures Shapely(ChooseStep(e))
  {
  }

  lemma ShapeRead(e: Engine, env: Env)
    requires Shapely(e) && e.worker.phase.Reading?
    ensures Shapely(ReadStep(e, env))
  {
    ReadFrame(e, env);
  }

  lemma ShapePoll(e: Engine, env: Env)
    requires Shapely(e) && e.worker.phase.Polling?
    ensures Shapely(PollStep(e, env))
  {
    PollFrame(e, env);
  }

  lemma ShapeSmall(e: Engine, env: Env)
    requires Shapely(e)
    ensures e.worker.phase.Writing? ==> Shapely(WriteStep(e, env))
    ensures e.worker.phase.Reporting? ==> Shapely(ReportStep(e))
    ensures e.worker.phase.Wishing? ==> Shapely(WishStep(e))
    ensures e.worker.phase.Clearing? ==> Shapely(ClearStep(e))
    ensures e.worker.phase.Withdrawing? ==> Shapely(WithdrawStep(e))
  {
  }

  lemma ShapeWork(e: Engine, env: Env)
    requires Shapely(e)
    ensures Shapely(Work(e, env))
  {
    if QuietPhase(e.worker.phase) {
      WorkIsQuiet(e, env);
      ShapeQuiet(e, Work(e, env));
    } else {
      ShapeSmall(e, env);
      match e.worker.phase
      case Draining => ShapeDrain(e, env);
      case Evicting(_, _, _) => ShapeEvict(e);
      case Choosing => ShapeChoose(e);
      case Reading(_) => ShapeRead(e, env);
      case Polling => ShapePoll(e, env);
      case Inserting(_, _) => InsertKeepsDemanded(e, env);
      case _ =>
    }
  }

  lemma PopKeeps(captures: Cache, track: Track)
    requires ShapelyCache(captures) && QueueOf(captures, track) != []
    ensures ShapelyCache(captures[track := captures[track][1..]])
    ensures forall t :: RoomFor(captures, t) ==> RoomFor(captures[track := captures[track][1..]], t)
  {
    var popped := captures[track := captures[track][1..]];
    assert popped.Keys == captures.Keys;
    assert |popped| == |popped.Keys| && |captures| == |captures.Keys|;
  }

  lemma ShapeConsume(s: State, ask: Ask)
    requires Shapely(s.engine)
    ensures Shapely(Consume(s, ask).engine)
  {
    if ask.Pop? {
      var at := ClampTrack(ask.track, s.bridge.maxCylinders);
      if QueueOf(s.engine.shared.captures, at) != [] {
        PopKeeps(s.engine.shared.captures, at);
      }
    }
  }

  /** The cache has its shape in every state any interleaving can reach. */
  lemma {:induction false} ShapeOverRuns(status: Status, head: Track, max: nat, steps: seq<Step>)
    ensures Shapely(Run(Begin(status, head, max), steps).engine)
  {
    if steps != [] {
      var front := steps[..|steps| - 1];
      ShapeOverRuns(status, head, max, front);
      var s := Run(Begin(status, head, max), front);
      match steps[|steps| - 1]
      case WorkerStep(env) => ShapeWork(s.engine, env);
      case ConsumerStep(ask) => ShapeConsume(s, ask);
    }
  }
}
