/** What each kind of worker step leaves alone, so that an invariant need only
    look at the steps that touch it. */
module ControllerFrames {
  import opened Common
  import opened Controller
  import GreaseweazleReads

  /** The track a capture is under way for. */
  function Filling(phase: Phase): Option<Track> {
    match phase
    case Approaching(track) => Some(track)
    case Reading(track) => Some(track)
    case Withdrawing(track, _) => Some(track)
    case Inserting(track, _) => Some(track)
    case _ => None
  }

  /** Acts that make no write and no finished capture, and concern no wish. */
  predicate Minor(a: Act) {
    || a.Sought? || a.Placed? || a.Misplaced? || a.Measured? || a.Abandoned? || a.Reported? || a.Noted? || a.Cleared? || a.Gone?
    || a.MotorSet? || a.MotorOff? || a.Reached? || a.Published?
  }

  /** The history grew, by minor acts only. */
  ghost predicate MinorGrowth(before: seq<Act>, after: seq<Act>) {
    before <= after && forall i :: |before| <= i < |after| ==> Minor(after[i])
  }

  /** The phases that act on wishes, and the end. */
  predicate Directing(phase: Phase) {
    phase.Steering? || phase.Switching? || phase.Stopping?
  }

  /** The motor was not touched, and no destination reached. */
  ghost predicate Calm(before: seq<Act>, after: seq<Act>) {
    before <= after && forall i :: |before| <= i < |after| ==>
      !after[i].MotorSet? && !after[i].MotorOff? && !after[i].Reached?
  }

  /** Nothing was published or withdrawn. */
  ghost predicate Shelved(e: Engine, f: Engine) {
    && f.shared.partial == e.shared.partial
    && forall i :: |e.world.log| <= i < |f.world.log| ==> !f.world.log[i].Published?
  }

  /** Nothing changed that another invariant watches over. */
  ghost predicate Quiet(e: Engine, f: Engine) {
    && f.shared.captures == e.shared.captures
    && f.shared.commands == e.shared.commands
    && f.shared.desired == e.shared.desired
    && f.worker.target == e.worker.target
    && f.worker.wanted == e.worker.wanted
    && f.worker.generation == e.worker.generation
    && f.world.sightings == e.world.sightings
    && MinorGrowth(e.world.log, f.world.log)
  }

  /** Events are only ever added, at the end and while there is room. */
  predicate EventsGrow(before: seq<Event>, after: seq<Event>) {
    after == before || (|after| == |before| + 1 && before <= after)
  }

  /** An event that reports no write. */
  predicate NoWriteEvent(event: Event) {
    event.DiskChanged? || event.Disconnection?
  }

  ghost predicate OnlyNotices(before: seq<Event>, after: seq<Event>) {
    EventsGrow(before, after) && (|after| > |before| ==> NoWriteEvent(after[|before|]))
  }

  /** The one event a failing step may add. */
  ghost predicate OnlyFailures(before: seq<Event>, after: seq<Event>) {
    EventsGrow(before, after) && (|after| > |before| ==> after[|before|].Disconnection?)
  }

  /** A step that does not touch what other invariants watch, and where it leads. */
  ghost predicate QuietTo(e: Engine, f: Engine) {
    && Quiet(e, f) && Shelved(e, f)
    && (!Directing(e.worker.phase) ==> Calm(e.world.log, f.world.log))
    && (if e.worker.phase.Announcing? then OnlyNotices(e.shared.events, f.shared.events)
        else OnlyFailures(e.shared.events, f.shared.events))
    && match e.worker.phase
       case Placing(id, request) =>
         f.worker.phase == Measuring(id, request)
         || (f.worker.phase.Evicting? && f.worker.phase.id == id && f.worker.phase.request == request)
       case Measuring(id, request) =>
         (f.worker.phase.Writing? || f.worker.phase.Evicting?)
         && f.worker.phase.id == id && f.worker.phase.request == request
       case Steering(_, motor) =>
         f.worker.phase == Switching(motor) || f.worker.phase.Polling? || f.worker.phase.Stopping?
       case Switching(_) => f.worker.phase.Polling? || f.worker.phase.Stopping?
       case Announcing(_, _) => f.worker.phase.Storing?
       case Storing(_) => f.worker.phase.Choosing?
       case Approaching(track) =>
         f.worker.phase == Reading(track) || f.worker.phase.Draining? || f.worker.phase.Stopping?
       case Stopping => f.worker.phase.Stopped?
       case Stopped => f.worker.phase.Stopped?
       case _ => false
  }

  /** The phases whose every step is quiet. */
  predicate QuietPhase(phase: Phase) {
    || phase.Placing? || phase.Measuring? || phase.Steering? || phase.Switching?
    || phase.Announcing? || phase.Storing? || phase.Approaching? || phase.Stopping? || phase.Stopped?
  }

  lemma NoteErrorFrame(e: Engine, error: Error, next: Phase)
    ensures Quiet(e, NoteError(e, error, next)) && Shelved(e, NoteError(e, error, next))
    ensures Calm(e.world.log, NoteError(e, error, next).world.log)
    ensures OnlyFailures(e.shared.events, NoteError(e, error, next).shared.events)
    ensures var f := NoteError(e, error, next); f.worker.phase == next || f.worker.phase.Stopping?
  {
    var f := NoteError(e, error, next);
    assert f.world.log == e.world.log + [Noted(error)]
           || f.world.log == e.world.log + [Noted(error)] + [Gone(error)];
  }

  lemma PositionFrame(e: Engine, track: Track, env: Env)
    ensures var f := Position(e, track, env).e;
      && Quiet(e, f) && Shelved(e, f) && Calm(e.world.log, f.world.log)
      && f.shared.events == e.shared.events
      && f.worker.phase == e.worker.phase
      && f.worker.failed == e.worker.failed && f.worker.errors == e.worker.errors
      && f.shared.status.working == e.shared.status.working
  {
  }

  /** A movement of the head fails: the seek, if one is needed, or else the selection
      of the side, if that is. */
  predicate MoveFails(e: Engine, track: Track, env: Env) {
    || (Seeks(e, track) && env.seek.Failed?)
    || (Selects(e, track) && env.select.Failed?)
  }

  /** Positioning fails exactly when a movement it needs does. */
  lemma PositionFailsExactly(e: Engine, track: Track, env: Env)
    ensures Position(e, track, env).error.Some? <==> MoveFails(e, track, env)
  {
  }

  lemma QuietTwice(e: Engine, f: Engine, g: Engine)
    requires Quiet(e, f) && Quiet(f, g)
    ensures Quiet(e, g)
  {
  }

  lemma PlaceFrame(e: Engine, env: Env)
    requires e.worker.phase.Placing?
    ensures QuietTo(e, PlaceStep(e, env))
  {
    PositionFrame(PlaceStart(e), e.worker.phase.request.track, env);
  }

  lemma SteerFrame(e: Engine, env: Env)
    requires e.worker.phase.Steering?
    ensures QuietTo(e, SteerStep(e, env))
  {
    if e.worker.phase.moves.Some? {
      var moved := Position(e, e.worker.phase.moves.value, env);
      PositionFrame(e, e.worker.phase.moves.value, env);
      if moved.error.Some? {
        NoteErrorFrame(moved.e, moved.error.value, Polling);
        QuietTwice(e, moved.e, SteerStep(e, env));
      }
    }
  }

  /** How applying a motor wish ends: with the motor set, or with an error noted. */
  lemma SwitchEnds(e: Engine, env: Env, wish: MotorWish)
    requires e.worker.phase == Switching(Some(wish))
    ensures var moved, f := Position(e, Track(e.worker.target.cylinder, wish.side), env), SwitchStep(e, env);
      && f.shared.desired == e.shared.desired && f.worker.target == e.worker.target
      && f.worker.positioned == moved.e.worker.positioned && f.worker.physical == moved.e.worker.physical
      && (f.worker.phase.Polling? || f.worker.phase.Stopping?)
      && moved.e.worker.phase == e.worker.phase && moved.e.shared.desired == e.shared.desired
      && Calm(e.world.log, moved.e.world.log) && MinorGrowth(e.world.log, moved.e.world.log)
      && if moved.error.None? && env.call.None? then
           f.world.log == moved.e.world.log + [MotorSet(wish)] + [Cleared] && f.worker.phase.Polling?
         else
           && Calm(moved.e.world.log, f.world.log) && MinorGrowth(moved.e.world.log, f.world.log)
           && |f.world.log| > |moved.e.world.log| && f.world.log[|moved.e.world.log|].Noted?
  {
    var track := Track(e.worker.target.cylinder, wish.side);
    var moved := Position(e, track, env);
    PositionFrame(e, track, env);
    var error := if moved.error.Some? then moved.error else env.call;
    if error.Some? {
      NoteErrorFrame(moved.e, error.value, Polling);
    }
  }

  /** How acting on a destination ends: with it reached, or with an error noted. */
  lemma SteerEnds(e: Engine, env: Env, track: Track)
    requires e.worker.phase.Steering? && e.worker.phase.moves == Some(track)
    ensures var moved, f := Position(e, track, env), SteerStep(e, env);
      && f.shared.desired == e.shared.desired
      && moved.e.worker.phase == e.worker.phase && moved.e.shared.desired == e.shared.desired
      && Calm(e.world.log, moved.e.world.log) && MinorGrowth(e.world.log, moved.e.world.log)
      && f.worker.positioned == moved.e.worker.positioned && f.worker.physical == moved.e.worker.physical
      && f.worker.target == e.worker.target && f.world.head == moved.e.world.head
      && if moved.error.None? then
           && f.world.log == moved.e.world.log + [Reached(track)] + [Cleared]
           && f.worker.phase == Switching(e.worker.phase.motor)
         else
           && (f.worker.phase.Polling? || f.worker.phase.Stopping?)
           && Calm(moved.e.world.log, f.world.log) && MinorGrowth(moved.e.world.log, f.world.log)
           && |f.world.log| > |moved.e.world.log| && f.world.log[|moved.e.world.log|].Noted?
  {
    var moved := Position(e, track, env);
    PositionFrame(e, track, env);
    if moved.error.Some? {
      NoteErrorFrame(moved.e, moved.error.value, Polling);
    }
  }

  lemma SwitchFrame(e: Engine, env: Env)
    requires e.worker.phase.Switching?
    ensures QuietTo(e, SwitchStep(e, env))
  {
    if e.worker.phase.wish.Some? {
      var track := Track(e.worker.target.cylinder, e.worker.phase.wish.value.side);
      var moved := Position(e, track, env);
      PositionFrame(e, track, env);
      var error := if moved.error.Some? then moved.error else env.call;
      if error.Some? {
        NoteErrorFrame(moved.e, error.value, Polling);
        QuietTwice(e, moved.e, SwitchStep(e, env));
      }
    }
  }

  lemma ApproachFrame(e: Engine, env: Env)
    requires e.worker.phase.Approaching?
    ensures QuietTo(e, ApproachStep(e, env))
  {
    var moved := Position(e, e.worker.phase.track, env);
    PositionFrame(e, e.worker.phase.track, env);
    if moved.error.Some? {
      NoteErrorFrame(moved.e, moved.error.value, Draining);
      QuietTwice(e, moved.e, ApproachStep(e, env));
    }
  }

  lemma SmallFrames(e: Engine)
    ensures e.worker.phase.Measuring? ==> QuietTo(e, MeasureStep(e))
    ensures e.worker.phase.Announcing? ==> QuietTo(e, AnnounceStep(e))
    ensures e.worker.phase.Storing? ==> QuietTo(e, StoreStep(e))
    ensures e.worker.phase.Stopping? ==> QuietTo(e, StopStep(e))
    ensures e.worker.phase.Stopped? ==> QuietTo(e, e)
  {
  }

  lemma WorkIsQuiet(e: Engine, env: Env)
    requires QuietPhase(e.worker.phase)
    ensures QuietTo(e, Work(e, env))
  {
    SmallFrames(e);
    match e.worker.phase
    case Placing(_, _) => PlaceFrame(e, env);
    case Steering(_, _) => SteerFrame(e, env);
    case Switching(_) => SwitchFrame(e, env);
    case Approaching(_) => ApproachFrame(e, env);
    case _ =>
  }

  /** A click is quiet apart from the command it took. */
  lemma ClickFrame(e: Engine, side: Side, env: Env)
    ensures var f := Click(e, side, env);
      && Quiet(e, f) && Shelved(e, f) && Calm(e.world.log, f.world.log)
      && OnlyFailures(e.shared.events, f.shared.events)
      && (f.worker.phase.Draining? || f.worker.phase.Stopping?)
  {
    match env.select
    case Failed(error, astray) => NoteErrorFrame(Astray(e, astray), error, Draining);
    case Done =>
      var sided := e.(world := e.world.(head := e.world.head.(side := side)));
      if env.call.Some? {
        NoteErrorFrame(sided, env.call.value, Draining);
      }
  }

  /** Polling is quiet unless the disk is seen to have changed. */
  lemma PollFrame(e: Engine, env: Env)
    requires e.worker.phase.Polling?
    ensures var f := PollStep(e, env);
      && OnlyFailures(e.shared.events, f.shared.events) && Shelved(e, f)
      && if f.worker.phase.Clearing? then
           && Quiet(e, f.(world := e.world))
           && f.worker.phase.sighting == e.world.sightings && f.world.sightings == e.world.sightings + 1
           && f.world.log == e.world.log + [Saw(e.world.sightings, f.worker.phase.news.diskPresent)]
                                         + [Reported(f.worker.phase.news)]
         else
           && Quiet(e, f) && Calm(e.world.log, f.world.log)
           && (f.worker.phase.Choosing? || f.worker.phase.Storing? || f.worker.phase.Stopping?)
  {
    if env.due && env.poll.PollFailed? {
      NoteErrorFrame(e, env.poll.error, Choosing);
    }
  }

  /** Reading is quiet unless a capture is taken. */
  lemma ReadFrame(e: Engine, env: Env)
    requires e.worker.phase.Reading?
    ensures var f := ReadStep(e, env);
      && OnlyFailures(e.shared.events, f.shared.events)
      && if f.worker.phase.Withdrawing? then
           && Quiet(e, f.(world := e.world))
           && f.worker.phase.track == e.worker.phase.track
           && f.world == e.world.(log := e.world.log
                + [Took(e.worker.phase.track, e.world.head, e.worker.generation + 1, f.worker.phase.raw)])
         else
           && Quiet(e, f) && Calm(e.world.log, f.world.log)
           && (f.worker.phase == e.worker.phase || f.worker.phase.Draining? || f.worker.phase.Stopping?)
  {
    var given := Logged(e, Abandoned(e.worker.phase.track));
    match env.read
    case ReadFailed(error) =>
      NoteErrorFrame(given, error, Draining);
      QuietTwice(e, given, NoteError(given, error, Draining));
    case Captured(raw) =>
      var checked := GreaseweazleReads.Validated(raw);
      if checked.Err? {
        NoteErrorFrame(given, checked.error, Draining);
        QuietTwice(e, given, NoteError(given, checked.error, Draining));
      }
    case _ =>
  }

  // ----- every step of the worker -----

  /** Acts the consumer performs. */
  predicate ConsumerAct(a: Act) {
    a.Aimed? || a.Switched? || a.Served? || a.Retired? || a.Accepted? || a.Seen? || a.Warned? || a.Parted? || a.Glimpsed?
  }

  predicate FillsAsBefore(e: Engine, f: Engine) {
    var filling := Filling(f.worker.phase);
    filling.Some? ==> filling == Filling(e.worker.phase) || (e.worker.phase.Choosing? && filling.value == e.worker.target)
  }

  /** What every step of the worker leaves alone. */
  ghost predicate Framed(e: Engine, f: Engine) {
    && e.world.log <= f.world.log
    && (forall i :: |e.world.log| <= i < |f.world.log| ==> !ConsumerAct(f.world.log[i]))
    && (!e.worker.phase.Wishing? ==>
          && f.shared.desired == e.shared.desired
          && f.worker.target == e.worker.target
          && f.worker.wanted == e.worker.wanted
          && !f.worker.phase.Steering?
          && (f.worker.phase.Switching? ==> e.worker.phase.Steering? && f.worker.phase.wish == e.worker.phase.motor))
    && (!Directing(e.worker.phase) ==> Calm(e.world.log, f.world.log))
    && FillsAsBefore(e, f)
    && (!e.worker.phase.Reading? && !e.worker.phase.Withdrawing? ==> Shelved(e, f))
    && (f.shared.commands == e.shared.commands
        || (e.worker.phase.Draining? && e.shared.commands != [] && f.shared.commands == e.shared.commands[1..]))
  }

  lemma QuietFramed(e: Engine, f: Engine)
    requires QuietPhase(e.worker.phase) && QuietTo(e, f)
    ensures Framed(e, f)
  {
  }

  lemma DrainFramed(e: Engine, env: Env)
    requires e.worker.phase.Draining?
    ensures Framed(e, DrainStep(e, env))
  {
    if e.shared.commands != [] && e.shared.commands[0].NoClick? {
      ClickFrame(e.(shared := e.shared.(commands := e.shared.commands[1..])), e.shared.commands[0].side, env);
    }
  }

  lemma ReadFramed(e: Engine, env: Env)
    requires e.worker.phase.Reading?
    ensures Framed(e, ReadStep(e, env))
  {
    ReadFrame(e, env);
  }

  lemma PollFramed(e: Engine, env: Env)
    requires e.worker.phase.Polling?
    ensures Framed(e, PollStep(e, env))
  {
    PollFrame(e, env);
  }

  lemma WritingFramed(e: Engine, env: Env)
    ensures e.worker.phase.Writing? ==> Framed(e, WriteStep(e, env))
    ensures e.worker.phase.Evicting? ==> Framed(e, EvictStep(e))
    ensures e.worker.phase.Reporting? ==> Framed(e, ReportStep(e))
    ensures e.worker.phase.Wishing? ==> Framed(e, WishStep(e))
  {
  }

  lemma WatchingFramed(e: Engine)
    ensures e.worker.phase.Clearing? ==> Framed(e, ClearStep(e))
    ensures e.worker.phase.Choosing? ==> Framed(e, ChooseStep(e))
  {
  }

  lemma CachingFramed(e: Engine, env: Env)
    ensures e.worker.phase.Withdrawing? ==> Framed(e, WithdrawStep(e))
    ensures e.worker.phase.Inserting? ==> Framed(e, InsertStep(e, env))
  {
  }

  lemma WorkFrame(e: Engine, env: Env)
    ensures Framed(e, Work(e, env))
  {
    if QuietPhase(e.worker.phase) {
      WorkIsQuiet(e, env);
      QuietFramed(e, Work(e, env));
    } else {
      WritingFramed(e, env);
      WatchingFramed(e);
      CachingFramed(e, env);
      match e.worker.phase
      case Draining => DrainFramed(e, env);
      case Reading(_) => ReadFramed(e, env);
      case Polling => PollFramed(e, env);
      case _ =>
    }
  }

  // ----- the consumer, and runs -----

  /** What the consumer's calls leave alone. */
  lemma ConsumeFrame(s: State, ask: Ask)
    ensures var e, f := s.engine, Consume(s, ask).engine;
      && f.worker == e.worker
      && (f.world.log == e.world.log || (|f.world.log| == |e.world.log| + 1 && e.world.log <= f.world.log))
      && f.world == e.world.(log := f.world.log) && f.shared.partial == e.shared.partial
      && (!ask.Enqueue? && !ask.ClickRequest? && !ask.Drop? ==> f.shared.commands == e.shared.commands)
      && (!ask.PollEvent? ==> f.shared.events == e.shared.events)
      && (!ask.Enqueue? ==> Consume(s, ask).bridge.nextWrite == s.bridge.nextWrite)
      && (!ask.SetMotor? ==> f.shared.desired.motor == e.shared.desired.motor)
      && (!ask.Seek? && !ask.Demand? ==> f.shared.desired.target == e.shared.desired.target)
      && (!ask.Demand? ==> f.shared.desired.wanted == e.shared.desired.wanted)
      && (f.world.log != e.world.log ==>
            var a := f.world.log[|e.world.log|];
            && ConsumerAct(a)
            && (a.Accepted? ==> ask.Enqueue?)
            && (a.Seen? ==> ask.PollEvent?)
            && (a.Warned? || a.Parted? ==> ask.PollEvent?)
            && (a.Glimpsed? ==> ask.Glance?)
            && (a.Served? ==> ask.Look?)
            && (a.Glimpsed? ==> e.shared.partial == Some(a.partial))
            && (a.Aimed? ==> ask.Seek? || ask.Demand?)
            && (a.Aimed? && a.demanded ==> ask.Demand?)
            && (a.Switched? ==> ask.SetMotor?))
  {
  }

  lemma OneMore(s: State, steps: seq<Step>, step: Step)
    ensures Run(s, steps + [step]) == Next(Run(s, steps), step)
  {
    var all := steps + [step];
    assert all[..|all| - 1] == steps;
  }
}
