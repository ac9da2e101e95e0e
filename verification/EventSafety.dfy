/** What a consumer is told: as long as the queue of events has room, everything there is
    to tell, each thing once and in the order it happened. */
module EventSafety {
  import opened Common
  import opened Controller
  import opened ControllerFrames
  import opened WriteSafety
  import GreaseweazleReads

  // ----- what there is to tell -----

  datatype News = Disk(sighting: nat, present: bool) | Outcome(id: nat, track: Track) | Loss(error: Error)

  function DueOf(a: Act): seq<News> {
    match a
    case Saw(sighting, present) => [Disk(sighting, present)]
    case Performed(id, request) => [Outcome(id, request.track)]
    case Gone(error) => [Loss(error)]
    case _ => []
  }

  function HeardOf(a: Act): seq<News> {
    match a
    case Warned(sighting, present) => [Disk(sighting, present)]
    case Seen(id, track) => [Outcome(id, track)]
    case Parted(error) => [Loss(error)]
    case _ => []
  }

  function WaitingOf(event: Event): seq<News> {
    match event
    case DiskChanged(present, sighting) => [Disk(sighting, present)]
    case WriteCompleted(id, track, _) => [Outcome(id, track)]
    case WriteFailed(id, track, _) => [Outcome(id, track)]
    case Disconnection(error) => [Loss(error)]
  }

  /** What the worker has in hand to tell. */
  function UnsentOf(phase: Phase): seq<News> {
    match phase
    case Clearing(news, sighting) => [Disk(sighting, news.diskPresent)]
    case Announcing(news, sighting) => [Disk(sighting, news.diskPresent)]
    case Reporting(id, request, _) => [Outcome(id, request.track)]
    case _ => []
  }

  /** Every sighting of another disk, every write performed and the loss of the drive has
      been heard of, or waits, or is about to be told, in this order. */
  predicate AllTold(e: Engine) {
    Flat(e.world.log, DueOf)
    == Flat(e.world.log, HeardOf) + Flat(e.shared.events, WaitingOf) + UnsentOf(e.worker.phase)
  }

  // ----- steps -----

  /** Nothing happened that is to be told, or that tells. */
  predicate NothingNew(e: Engine, f: Engine) {
    && Flat(f.world.log, DueOf) == Flat(e.world.log, DueOf)
    && Flat(f.world.log, HeardOf) == Flat(e.world.log, HeardOf)
    && f.shared.events == e.shared.events && UnsentOf(f.worker.phase) == UnsentOf(e.worker.phase)
  }

  /** The drive was lost, and word of it sent. */
  predicate LossTold(e: Engine, f: Engine, error: Error) {
    && Flat(f.world.log, DueOf) == Flat(e.world.log, DueOf) + [Loss(error)]
    && Flat(f.world.log, HeardOf) == Flat(e.world.log, HeardOf)
    && f.shared.events == Sent(e.shared.events, Disconnection(error))
    && UnsentOf(e.worker.phase) == UnsentOf(f.worker.phase) == []
  }

  ghost predicate Tells(e: Engine, f: Engine) {
    NothingNew(e, f) || exists error :: LossTold(e, f, error)
  }

  predicate Silent(a: Act) {
    DueOf(a) == [] && HeardOf(a) == []
  }

  lemma SilentIsNew(e: Engine, f: Engine)
    requires e.world.log <= f.world.log && forall i :: |e.world.log| <= i < |f.world.log| ==> Silent(f.world.log[i])
    requires f.shared.events == e.shared.events && UnsentOf(f.worker.phase) == UnsentOf(e.worker.phase)
    ensures NothingNew(e, f)
  {
    FlatSilent(e.world.log, f.world.log, DueOf);
    FlatSilent(e.world.log, f.world.log, HeardOf);
  }

  lemma Pushed(log: seq<Act>, a: Act)
    ensures Flat(log + [a], DueOf) == Flat(log, DueOf) + DueOf(a)
    ensures Flat(log + [a], HeardOf) == Flat(log, HeardOf) + HeardOf(a)
  {
    FlatPush(log, a, DueOf);
    FlatPush(log, a, HeardOf);
  }

  lemma NotedTells(e: Engine, f: Engine, error: Error)
    requires f.world.log == e.world.log + [Noted(error)] && f.shared.events == e.shared.events
    requires UnsentOf(e.worker.phase) == [] && UnsentOf(f.worker.phase) == []
    ensures NothingNew(e, f)
  {
    Pushed(e.world.log, Noted(error));
  }

  lemma LossTells(e: Engine, f: Engine, error: Error)
    requires f.world.log == e.world.log + [Noted(error)] + [Gone(error)]
    requires f.shared.events == Sent(e.shared.events, Disconnection(error))
    requires UnsentOf(e.worker.phase) == [] && UnsentOf(f.worker.phase) == []
    ensures LossTold(e, f, error)
  {
    Pushed(e.world.log, Noted(error));
    Pushed(e.world.log + [Noted(error)], Gone(error));
  }

  lemma NoteErrorTells(e: Engine, error: Error, next: Phase)
    requires UnsentOf(e.worker.phase) == [] && UnsentOf(next) == []
    ensures Tells(e, NoteError(e, error, next))
  {
    if Fatal(error) || e.worker.errors + 1 >= MAX_CONSECUTIVE_ERRORS {
      LossTells(e, NoteError(e, error, next), error);
    } else {
      NotedTells(e, NoteError(e, error, next), error);
    }
  }

  lemma TellsAfter(e: Engine, f: Engine, g: Engine)
    requires NothingNew(e, f) && Tells(f, g)
    ensures Tells(e, g)
  {
    if !NothingNew(f, g) {
      var error :| LossTold(f, g, error);
      assert LossTold(e, g, error);
    }
  }

  lemma NotesAfter(e: Engine, f: Engine, error: Error, next: Phase)
    requires NothingNew(e, f) && UnsentOf(e.worker.phase) == [] && UnsentOf(next) == []
    ensures Tells(e, NoteError(f, error, next))
  {
    NoteErrorTells(f, error, next);
    TellsAfter(e, f, NoteError(f, error, next));
  }

  lemma PositionNew(e: Engine, track: Track, env: Env)
    ensures NothingNew(e, Position(e, track, env).e)
  {
    PositionFrame(e, track, env);
    PositionSilent(e, track, env);
    SilentIsNew(e, Position(e, track, env).e);
  }

  lemma PositionSilent(e: Engine, track: Track, env: Env)
    ensures var before, after := e.world.log, Position(e, track, env).e.world.log;
      before <= after && forall i :: |before| <= i < |after| ==> Silent(after[i])
  {
  }

  lemma DrainTells(e: Engine, env: Env)
    requires e.worker.phase.Draining?
    ensures Tells(e, DrainStep(e, env))
  {
    if e.shared.commands != [] && e.shared.commands[0].NoClick? {
      var side := e.shared.commands[0].side;
      var taken := e.(shared := e.shared.(commands := e.shared.commands[1..]));
      match env.select
      case Failed(error, astray) => NotesAfter(e, Astray(taken, astray), error, Draining);
      case Done =>
        if env.call.Some? {
          NotesAfter(e, taken.(world := taken.world.(head := taken.world.head.(side := side))), env.call.value, Draining);
        }
    }
  }

  lemma PlaceTells(e: Engine, env: Env)
    requires e.worker.phase.Placing?
    ensures Tells(e, PlaceStep(e, env))
  {
    var moved := Position(PlaceStart(e), e.worker.phase.request.track, env);
    SilentIsNew(e, PlaceStart(e));
    PositionNew(PlaceStart(e), e.worker.phase.request.track, env);
    PositionFrame(PlaceStart(e), e.worker.phase.request.track, env);
    SilentIsNew(moved.e, PlaceStep(e, env));
  }

  lemma SteerTells(e: Engine, env: Env)
    requires e.worker.phase.Steering?
    ensures Tells(e, SteerStep(e, env))
  {
    if e.worker.phase.moves.Some? {
      var moved := Position(e, e.worker.phase.moves.value, env);
      PositionNew(e, e.worker.phase.moves.value, env);
      if moved.error.Some? {
        NotesAfter(e, moved.e, moved.error.value, Polling);
      } else {
        SilentIsNew(moved.e, SteerStep(e, env));
      }
    }
  }

  lemma SwitchedNew(e: Engine, wish: MotorWish)
    requires e.worker.phase.Switching?
    ensures var on := e.(shared := e.shared.(status := e.shared.status.(motorRunning := wish.enabled)));
      NothingNew(e, At(Healthy(Logged(on, MotorSet(wish))), Polling))
  {
    Pushed(e.world.log, MotorSet(wish));
    Pushed(e.world.log + [MotorSet(wish)], Cleared);
  }

  lemma SwitchIs(e: Engine, env: Env, wish: MotorWish)
    requires e.worker.phase == Switching(Some(wish))
    ensures var moved, f := Position(e, Track(e.worker.target.cylinder, wish.side), env), SwitchStep(e, env);
      var error := if moved.error.Some? then moved.error else env.call;
      && moved.e.worker.phase == e.worker.phase
      && if error.Some? then f == NoteError(moved.e, error.value, Polling)
         else f == At(Healthy(Logged(moved.e.(shared :=
                        moved.e.shared.(status := moved.e.shared.status.(motorRunning := wish.enabled))),
                        MotorSet(wish))), Polling)
  {
  }

  lemma SwitchTells(e: Engine, env: Env)
    requires e.worker.phase.Switching?
    ensures Tells(e, SwitchStep(e, env))
  {
    match e.worker.phase.wish
    case None =>
    case Some(wish) => SwitchedTells(e, env, wish);
  }

  lemma SwitchedTells(e: Engine, env: Env, wish: MotorWish)
    requires e.worker.phase == Switching(Some(wish))
    ensures Tells(e, SwitchStep(e, env))
  {
    var track := Track(e.worker.target.cylinder, wish.side);
    var moved := Position(e, track, env);
    SwitchIs(e, env, wish);
    PositionNew(e, track, env);
    if moved.error.Some? {
      NotesAfter(e, moved.e, moved.error.value, Polling);
    } else if env.call.Some? {
      NotesAfter(e, moved.e, env.call.value, Polling);
    } else {
      SwitchedNew(moved.e, wish);
    }
  }

  lemma ApproachTells(e: Engine, env: Env)
    requires e.worker.phase.Approaching?
    ensures Tells(e, ApproachStep(e, env))
  {
    var moved := Position(e, e.worker.phase.track, env);
    PositionNew(e, e.worker.phase.track, env);
    if moved.error.Some? {
      NotesAfter(e, moved.e, moved.error.value, Draining);
    } else {
      SilentIsNew(moved.e, ApproachStep(e, env));
    }
  }

  lemma ReadTells(e: Engine, env: Env)
    requires e.worker.phase.Reading?
    ensures Tells(e, ReadStep(e, env))
  {
    var given := Logged(e, Abandoned(e.worker.phase.track));
    SilentIsNew(e, given);
    match env.read
    case Publishing(_, _) => SilentIsNew(e, ReadStep(e, env));
    case ReadFailed(error) =>
      NotesAfter(e, given, error, Draining);
      SilentIsNew(e, At(given, Draining));
    case Captured(raw) =>
      if GreaseweazleReads.Validated(raw).Err? {
        NotesAfter(e, given, GreaseweazleReads.Validated(raw).error, Draining);
      } else {
        SilentIsNew(e, ReadStep(e, env));
      }
  }

  lemma SmallTells(e: Engine, env: Env)
    requires e.worker.phase.Measuring? || e.worker.phase.Writing? || e.worker.phase.Storing? || e.worker.phase.Stopping?
             || e.worker.phase.Withdrawing?
    ensures Tells(e, Work(e, env))
  {
    SilentIsNew(e, Work(e, env));
  }

  lemma WishTells(e: Engine, env: Env)
    requires e.worker.phase.Wishing? || e.worker.phase.Choosing? || e.worker.phase.Stopped?
    ensures Tells(e, Work(e, env))
  {
  }

  lemma CacheTells(e: Engine, env: Env)
    requires e.worker.phase.Clearing? || e.worker.phase.Inserting?
    ensures Tells(e, Work(e, env))
  {
  }

  /** The steps that come upon news or tell of it. */
  predicate Newsworthy(phase: Phase) {
    phase.Evicting? || phase.Reporting? || phase.Polling? || phase.Announcing?
  }

  lemma OthersTell(e: Engine, env: Env)
    requires !Newsworthy(e.worker.phase)
    ensures Tells(e, Work(e, env))
  {
    match e.worker.phase
    case Draining => DrainTells(e, env);
    case Placing(_, _) => PlaceTells(e, env);
    case Steering(_, _) => SteerTells(e, env);
    case Switching(_) => SwitchTells(e, env);
    case Approaching(_) => ApproachTells(e, env);
    case Reading(_) => ReadTells(e, env);
    case Measuring(_, _) => SmallTells(e, env);
    case Writing(_, _, _) => SmallTells(e, env);
    case Storing(_) => SmallTells(e, env);
    case Stopping => SmallTells(e, env);
    case Withdrawing(_, _) => SmallTells(e, env);
    case Clearing(_, _) => CacheTells(e, env);
    case Inserting(_, _) => CacheTells(e, env);
    case _ => WishTells(e, env);
  }

  lemma SentInRoom(events: seq<Event>, event: Event)
    requires |events| < 64
    ensures Flat(Sent(events, event), WaitingOf) == Flat(events, WaitingOf) + WaitingOf(event)
  {
    FlatPush(events, event, WaitingOf);
  }

  lemma ToldKept(e: Engine, f: Engine)
    requires AllTold(e) && Tells(e, f) && |e.shared.events| < 64
    ensures AllTold(f)
  {
    if !NothingNew(e, f) {
      var error :| LossTold(e, f, error);
      SentInRoom(e.shared.events, Disconnection(error));
    }
  }

  lemma SightTold(e: Engine, f: Engine, news: Status)
    requires AllTold(e) && e.worker.phase.Polling? && f.worker.phase == Clearing(news, e.world.sightings)
    requires f.shared.events == e.shared.events
    requires f.world.log == e.world.log + [Saw(e.world.sightings, news.diskPresent)] + [Reported(news)]
    ensures AllTold(f)
  {
    var saw := Saw(e.world.sightings, news.diskPresent);
    Pushed(e.world.log, saw);
    Pushed(e.world.log + [saw], Reported(news));
  }

  lemma PollTold(e: Engine, env: Env)
    requires AllTold(e) && e.worker.phase.Polling? && |e.shared.events| < 64
    ensures AllTold(PollStep(e, env))
  {
    var f := PollStep(e, env);
    if env.due && env.poll.PollFailed? {
      NoteErrorTells(e, env.poll.error, Choosing);
      ToldKept(e, f);
    } else if f.worker.phase.Clearing? {
      SightTold(e, f, f.worker.phase.news);
    } else {
      SilentIsNew(e, f);
    }
  }

  lemma EvictTold(e: Engine)
    requires AllTold(e) && e.worker.phase.Evicting?
    ensures AllTold(EvictStep(e))
  {
    Pushed(e.world.log, Performed(e.worker.phase.id, e.worker.phase.request));
  }

  lemma SendTold(e: Engine, f: Engine, event: Event)
    requires AllTold(e) && |e.shared.events| < 64 && WaitingOf(event) == UnsentOf(e.worker.phase)
    requires f.world.log == e.world.log && f.shared.events == Sent(e.shared.events, event)
    requires UnsentOf(f.worker.phase) == []
    ensures AllTold(f)
  {
    SentInRoom(e.shared.events, event);
  }

  lemma ReportTold(e: Engine)
    requires AllTold(e) && |e.shared.events| < 64 && e.worker.phase.Reporting?
    ensures AllTold(ReportStep(e))
  {
    var Reporting(id, request, outcome) := e.worker.phase;
    match outcome
    case None => SendTold(e, ReportStep(e), WriteCompleted(id, request.track, request.bitLen));
    case Some(error) => SendTold(e, ReportStep(e), WriteFailed(id, request.track, error));
  }

  lemma AnnounceTold(e: Engine)
    requires AllTold(e) && |e.shared.events| < 64 && e.worker.phase.Announcing?
    ensures AllTold(AnnounceStep(e))
  {
    SendTold(e, AnnounceStep(e), DiskChanged(e.worker.phase.news.diskPresent, e.worker.phase.sighting));
  }

  lemma OthersTold(e: Engine, env: Env)
    requires AllTold(e) && !Newsworthy(e.worker.phase) && |e.shared.events| < 64
    ensures AllTold(Work(e, env))
  {
    OthersTell(e, env);
    ToldKept(e, Work(e, env));
  }

  lemma WorkTold(e: Engine, env: Env)
    requires AllTold(e) && |e.shared.events| < 64
    ensures AllTold(Work(e, env))
  {
    match e.worker.phase
    case Polling => PollTold(e, env);
    case Evicting(_, _, _) => EvictTold(e);
    case Reporting(_, _, _) => ReportTold(e);
    case Announcing(_, _) => AnnounceTold(e);
    case _ => OthersTold(e, env);
  }

  /** The news an event brings is heard when it is polled. */
  lemma PolledIsHeard(s: State)
    requires !s.bridge.dropped && s.engine.shared.events != []
    ensures var e, f := s.engine, Consume(s, PollEvent).engine;
      && f.worker == e.worker && f.shared.events == e.shared.events[1..]
      && |f.world.log| == |e.world.log| + 1 && f.world.log[..|e.world.log|] == e.world.log
      && HeardOf(f.world.log[|e.world.log|]) == WaitingOf(e.shared.events[0])
      && DueOf(f.world.log[|e.world.log|]) == []
  {
  }

  lemma PollEventTold(s: State)
    requires AllTold(s.engine) && !s.bridge.dropped && s.engine.shared.events != []
    ensures AllTold(Consume(s, PollEvent).engine)
  {
    var e, f := s.engine, Consume(s, PollEvent).engine;
    PolledIsHeard(s);
    var a := f.world.log[|e.world.log|];
    assert f.world.log == e.world.log + [a];
    Pushed(e.world.log, a);
    FlatFront(e.shared.events, WaitingOf);
  }

  lemma ConsumeTold(s: State, ask: Ask)
    requires AllTold(s.engine)
    ensures AllTold(Consume(s, ask).engine)
  {
    if ask.PollEvent? && !s.bridge.dropped && s.engine.shared.events != [] {
      PollEventTold(s);
    } else {
      ConsumeFrame(s, ask);
      ConsumeSilent(s, ask);
      SilentIsNew(s.engine, Consume(s, ask).engine);
    }
  }

  lemma ConsumeSilent(s: State, ask: Ask)
    requires !ask.PollEvent? || s.bridge.dropped || s.engine.shared.events == []
    ensures var before, after := s.engine.world.log, Consume(s, ask).engine.world.log;
      forall i :: |before| <= i < |after| ==> Silent(after[i])
    ensures Consume(s, ask).engine.shared.events == s.engine.shared.events
  {
    ConsumeFrame(s, ask);
  }

  // ----- runs -----

  /** The queue of events has had room all along. */
  predicate Roomy(s: State, steps: seq<Step>) {
    && |Run(s, steps).engine.shared.events| < 64
    && (steps != [] ==> Roomy(s, steps[..|steps| - 1]))
  }

  /** In every run that leaves room in the queue of events, whatever happened is told:
      each disk seen to change, each write performed and the loss of the drive has been
      heard of, or waits in the queue, or is in the worker's hand, each once and in the
      order they happened. */
  lemma {:induction false} NothingIsSwallowed(status: Status, head: Track, max: nat, steps: seq<Step>)
    requires Roomy(Begin(status, head, max), steps)
    ensures AllTold(Run(Begin(status, head, max), steps).engine)
  {
    if steps != [] {
      var front := steps[..|steps| - 1];
      NothingIsSwallowed(status, head, max, front);
      var s := Run(Begin(status, head, max), front);
      match steps[|steps| - 1]
      case WorkerStep(env) => WorkTold(s.engine, env);
      case ConsumerStep(ask) => ConsumeTold(s, ask);
    }
  }

  lemma WorkFits(e: Engine, env: Env)
    requires |e.shared.events| <= 64 && |e.shared.commands| <= 64
    ensures |Work(e, env).shared.events| <= 64 && |Work(e, env).shared.commands| <= 64
  {
    WorkFrame(e, env);
    if !Newsworthy(e.worker.phase) {
      OthersTell(e, env);
    } else if e.worker.phase.Polling? {
      PollFrame(e, env);
    }
  }

  lemma ConsumeFits(s: State, ask: Ask)
    requires |s.engine.shared.events| <= 64 && |s.engine.shared.commands| <= 64
    ensures var after := Consume(s, ask).engine.shared; |after.events| <= 64 && |after.commands| <= 64
  {
  }

  /** Over every run no more than 64 events and 64 commands wait. */
  lemma {:induction false} QueuesFit(status: Status, head: Track, max: nat, steps: seq<Step>)
    ensures var shared := Run(Begin(status, head, max), steps).engine.shared;
      |shared.events| <= 64 && |shared.commands| <= 64
  {
    if steps != [] {
      var front := steps[..|steps| - 1];
      QueuesFit(status, head, max, front);
      var s := Run(Begin(status, head, max), front);
      match steps[|steps| - 1]
      case WorkerStep(env) => WorkFits(s.engine, env);
      case ConsumerStep(ask) => ConsumeFits(s, ask);
    }
  }
}
