/** When the worker gives up, and how it stops, over every interleaving. */
module FailureSafety {
  import opened Common
  import opened Controller
  import opened ControllerFrames
  import opened WriteSafety
  import GreaseweazleReads

  // ----- giving up -----

  /** Errors noted since the last success. */
  function Trailing(log: seq<Act>): nat {
    if log == [] then 0
    else
      var front, last := log[..|log| - 1], log[|log| - 1];
      if last.Noted? then Trailing(front) + 1 else if last.Cleared? then 0 else Trailing(front)
  }

  /** At some point an error was fatal, or the twentieth in an unbroken run. */
  predicate Lost(log: seq<Act>) {
    log != [] &&
    var front, last := log[..|log| - 1], log[|log| - 1];
    || Lost(front)
    || (last.Noted? && (last.error.Disconnected? || last.error.WorkerStopped? || Trailing(log) >= 20))
  }

  function Disconnections(log: seq<Act>): nat {
    if log == [] then 0
    else Disconnections(log[..|log| - 1]) + (if log[|log| - 1].Gone? then 1 else 0)
  }

  predicate Stopping(phase: Phase) {
    phase.Stopping? || phase.Stopped?
  }

  /** The worker has failed exactly when the history says the drive is lost; it has
      then disconnected once, is not working, and does nothing but stop. */
  predicate FailsRightly(e: Engine) {
    && e.worker.errors == Trailing(e.world.log)
    && (e.worker.failed <==> Lost(e.world.log))
    && (!e.worker.failed ==> e.worker.errors < 20)
    && Disconnections(e.world.log) == (if e.worker.failed then 1 else 0)
    && (e.worker.failed ==> Stopping(e.worker.phase))
    && (e.worker.failed || e.worker.phase.Stopped? ==> !e.shared.status.working)
  }

  /** The worker, if stopping, has failed. */
  predicate FailsToStop(e: Engine) {
    Stopping(e.worker.phase) ==> e.worker.failed
  }

  predicate Irrelevant(a: Act) {
    !a.Noted? && !a.Cleared? && !a.Gone?
  }

  predicate PlainGrowth(before: seq<Act>, after: seq<Act>) {
    before <= after && forall i :: |before| <= i < |after| ==> Irrelevant(after[i])
  }

  lemma {:induction false} PlainGrowthTells(before: seq<Act>, after: seq<Act>)
    requires PlainGrowth(before, after)
    ensures Trailing(after) == Trailing(before) && Lost(after) == Lost(before)
    ensures Disconnections(after) == Disconnections(before)
    decreases |after|
  {
    if |after| == |before| {
      assert after == before;
    } else {
      PlainGrowthTells(before, after[..|after| - 1]);
    }
  }

  lemma Pushed(log: seq<Act>, a: Act)
    ensures Trailing(log + [a]) == (if a.Noted? then Trailing(log) + 1 else if a.Cleared? then 0 else Trailing(log))
    ensures Lost(log + [a])
         == (Lost(log) || (a.Noted? && (a.error.Disconnected? || a.error.WorkerStopped? || Trailing(log) + 1 >= 20)))
    ensures Disconnections(log + [a]) == Disconnections(log) + (if a.Gone? then 1 else 0)
  {
    assert (log + [a])[..|log|] == log;
  }

  lemma PlainKeeps(e: Engine, f: Engine)
    requires FailsRightly(e)
    requires f.worker.errors == e.worker.errors && f.worker.failed == e.worker.failed
    requires PlainGrowth(e.world.log, f.world.log)
    requires f.worker.failed ==> Stopping(f.worker.phase)
    requires f.worker.failed || f.worker.phase.Stopped? ==> !f.shared.status.working
    ensures FailsRightly(f)
  {
    PlainGrowthTells(e.world.log, f.world.log);
  }

  lemma NoteErrorKeeps(e: Engine, error: Error, next: Phase)
    requires FailsRightly(e) && !e.worker.failed && !Stopping(next)
    ensures FailsRightly(NoteError(e, error, next))
    ensures FailsToStop(NoteError(e, error, next))
  {
    Pushed(e.world.log, Noted(error));
    Pushed(e.world.log + [Noted(error)], Gone(error));
  }

  lemma HealthyKeeps(e: Engine)
    requires FailsRightly(e) && !e.worker.failed
    ensures FailsRightly(Healthy(e))
  {
    Pushed(e.world.log, Cleared);
  }

  lemma PositionKeeps(e: Engine, track: Track, env: Env)
    requires FailsRightly(e) && !e.worker.failed && !Stopping(e.worker.phase)
    ensures FailsRightly(Position(e, track, env).e) && !Position(e, track, env).e.worker.failed
    ensures Position(e, track, env).e.worker.phase == e.worker.phase
  {
    PlainKeeps(e, Position(e, track, env).e);
  }

  lemma ClickKeeps(e: Engine, side: Side, env: Env)
    requires FailsRightly(e) && e.worker.phase.Draining?
    ensures FailsRightly(Click(e, side, env)) && FailsToStop(Click(e, side, env))
  {
    match env.select
    case Failed(error, astray) =>
      PlainKeeps(e, Astray(e, astray));
      NoteErrorKeeps(Astray(e, astray), error, Draining);
    case Done =>
      var sided := e.(world := e.world.(head := e.world.head.(side := side)));
      PlainKeeps(e, sided);
      if env.call.Some? {
        NoteErrorKeeps(sided, env.call.value, Draining);
      }
  }

  lemma SteerKeeps(e: Engine, env: Env)
    requires FailsRightly(e) && e.worker.phase.Steering?
    ensures FailsRightly(SteerStep(e, env)) && FailsToStop(SteerStep(e, env))
  {
    var Steering(moves, motor) := e.worker.phase;
    if moves.Some? {
      var moved := Position(e, moves.value, env);
      PositionKeeps(e, moves.value, env);
      if moved.error.Some? {
        NoteErrorKeeps(moved.e, moved.error.value, Polling);
      } else {
        Pushed(moved.e.world.log, Reached(moves.value));
        HealthyKeeps(Logged(moved.e, Reached(moves.value)));
      }
    }
  }

  lemma AppliedKeeps(e: Engine, status: Status, wish: MotorWish)
    requires FailsRightly(e) && !e.worker.failed && !Stopping(e.worker.phase)
    ensures var on := e.(shared := e.shared.(status := status));
      var f := At(Healthy(Logged(on, MotorSet(wish))), Polling);
      FailsRightly(f) && FailsToStop(f)
  {
    Pushed(e.world.log, MotorSet(wish));
    Pushed(e.world.log + [MotorSet(wish)], Cleared);
  }

  lemma SwitchKeeps(e: Engine, env: Env)
    requires FailsRightly(e) && e.worker.phase.Switching?
    ensures FailsRightly(SwitchStep(e, env)) && FailsToStop(SwitchStep(e, env))
  {
    if e.worker.phase.wish.Some? {
      var wish := e.worker.phase.wish.value;
      var track := Track(e.worker.target.cylinder, wish.side);
      var moved := Position(e, track, env);
      PositionKeeps(e, track, env);
      var error := if moved.error.Some? then moved.error else env.call;
      if error.Some? {
        NoteErrorKeeps(moved.e, error.value, Polling);
      } else {
        AppliedKeeps(moved.e, moved.e.shared.status.(motorRunning := wish.enabled), wish);
      }
    }
  }

  lemma ApproachKeeps(e: Engine, env: Env)
    requires FailsRightly(e) && e.worker.phase.Approaching?
    ensures FailsRightly(ApproachStep(e, env)) && FailsToStop(ApproachStep(e, env))
  {
    var moved := Position(e, e.worker.phase.track, env);
    PositionKeeps(e, e.worker.phase.track, env);
    if moved.error.Some? {
      NoteErrorKeeps(moved.e, moved.error.value, Draining);
    }
  }

  lemma PollKeeps(e: Engine, env: Env)
    requires FailsRightly(e) && e.worker.phase.Polling?
    ensures FailsRightly(PollStep(e, env)) && FailsToStop(PollStep(e, env))
  {
    if env.due && env.poll.PollFailed? {
      NoteErrorKeeps(e, env.poll.error, Choosing);
    } else {
      PlainKeeps(e, PollStep(e, env));
    }
  }

  /** Giving a reading up, whether or not that counts as an error. */
  lemma AbandonKeeps(e: Engine, error: Error)
    requires FailsRightly(e) && e.worker.phase.Reading?
    ensures var given := Logged(e, Abandoned(e.worker.phase.track));
      && FailsRightly(At(given, Draining)) && FailsToStop(At(given, Draining))
      && FailsRightly(NoteError(given, error, Draining)) && FailsToStop(NoteError(given, error, Draining))
  {
    var given := Logged(e, Abandoned(e.worker.phase.track));
    PlainKeeps(e, given);
    PlainKeeps(e, At(given, Draining));
    NoteErrorKeeps(given, error, Draining);
  }

  lemma ReadKeeps(e: Engine, env: Env)
    requires FailsRightly(e) && e.worker.phase.Reading?
    ensures FailsRightly(ReadStep(e, env)) && FailsToStop(ReadStep(e, env))
  {
    match env.read
    case Publishing(_, _) => PlainKeeps(e, ReadStep(e, env));
    case ReadFailed(error) => AbandonKeeps(e, error);
    case Captured(raw) =>
      var checked := GreaseweazleReads.Validated(raw);
      if checked.Err? {
        AbandonKeeps(e, checked.error);
      } else {
        PlainKeeps(e, ReadStep(e, env));
      }
  }

  lemma WithdrawKeeps(e: Engine)
    requires FailsRightly(e) && e.worker.phase.Withdrawing?
    ensures FailsRightly(WithdrawStep(e)) && FailsToStop(WithdrawStep(e))
  {
    var without := e.(shared := e.shared.(partial := None),
                      worker := e.worker.(generation := e.worker.generation + 1));
    PlainKeeps(e, without);
    HealthyKeeps(without);
  }

  lemma StoreKeeps(e: Engine)
    requires FailsRightly(e) && e.worker.phase.Storing?
    ensures FailsRightly(StoreStep(e)) && FailsToStop(StoreStep(e))
  {
    var stored := e.(shared := e.shared.(status := e.worker.phase.news));
    PlainKeeps(e, stored);
    HealthyKeeps(stored);
  }

  lemma PlaceKeeps(e: Engine, env: Env)
    requires FailsRightly(e) && e.worker.phase.Placing?
    ensures FailsRightly(PlaceStep(e, env)) && FailsToStop(PlaceStep(e, env))
  {
    PlainKeeps(e, PlaceStart(e));
    PositionKeeps(PlaceStart(e), e.worker.phase.request.track, env);
  }

  lemma WritingKeeps(e: Engine, env: Env)
    requires FailsRightly(e)
    requires e.worker.phase.Measuring? || e.worker.phase.Reporting? || e.worker.phase.Wishing?
    ensures FailsRightly(Work(e, env)) && FailsToStop(Work(e, env))
  {
    PlainKeeps(e, Work(e, env));
  }

  lemma WatchingKeeps(e: Engine, env: Env)
    requires FailsRightly(e)
    requires e.worker.phase.Clearing? || e.worker.phase.Announcing? || e.worker.phase.Choosing?
             || e.worker.phase.Inserting?
    ensures FailsRightly(Work(e, env)) && FailsToStop(Work(e, env))
  {
    PlainKeeps(e, Work(e, env));
  }

  /** The next command is a shutdown about to be obeyed. */
  predicate ToldToStop(e: Engine) {
    e.worker.phase.Draining? && e.shared.commands != [] && e.shared.commands[0].Shutdown?
  }

  lemma DrainKeeps(e: Engine, env: Env)
    requires FailsRightly(e) && e.worker.phase.Draining?
    ensures FailsRightly(DrainStep(e, env))
    ensures ToldToStop(e) || FailsToStop(DrainStep(e, env))
  {
    if e.shared.commands != [] && e.shared.commands[0].NoClick? {
      ClickKeeps(e.(shared := e.shared.(commands := e.shared.commands[1..])), e.shared.commands[0].side, env);
    }
  }

  /** Apart from a shutdown, the worker only ever stops by failing. */
  lemma WorkKeeps(e: Engine, env: Env)
    requires FailsRightly(e)
    ensures FailsRightly(Work(e, env))
    ensures !Stopping(e.worker.phase) && !ToldToStop(e) ==> FailsToStop(Work(e, env))
  {
    match e.worker.phase
    case Draining => DrainKeeps(e, env);
    case Placing(_, _) => PlaceKeeps(e, env);
    case Writing(_, _, _) => PlainKeeps(e, WriteStep(e, env));
    case Evicting(_, _, _) => PlainKeeps(e, EvictStep(e));
    case Steering(_, _) => SteerKeeps(e, env);
    case Switching(_) => SwitchKeeps(e, env);
    case Polling => PollKeeps(e, env);
    case Storing(_) => StoreKeeps(e);
    case Approaching(_) => ApproachKeeps(e, env);
    case Reading(_) => ReadKeeps(e, env);
    case Withdrawing(_, _) => WithdrawKeeps(e);
    case Stopping => PlainKeeps(e, StopStep(e));
    case Stopped =>
    case Measuring(_, _) => WritingKeeps(e, env);
    case Reporting(_, _, _) => WritingKeeps(e, env);
    case Wishing => WritingKeeps(e, env);
    case _ => WatchingKeeps(e, env);
  }

  lemma ConsumeKeeps(s: State, ask: Ask)
    requires FailsRightly(s.engine)
    ensures FailsRightly(Consume(s, ask).engine)
  {
    PlainKeeps(s.engine, Consume(s, ask).engine);
  }

  /** Over every run the worker fails only on a fatal error or twenty in an unbroken
      run, and always then; it disconnects once, and is never working again. */
  lemma {:induction false} FailsRightlyOverRuns(status: Status, head: Track, max: nat, steps: seq<Step>)
    ensures FailsRightly(Run(Begin(status, head, max), steps).engine)
  {
    if steps != [] {
      var front := steps[..|steps| - 1];
      FailsRightlyOverRuns(status, head, max, front);
      var s := Run(Begin(status, head, max), front);
      match steps[|steps| - 1]
      case WorkerStep(env) => WorkKeeps(s.engine, env);
      case ConsumerStep(ask) => ConsumeKeeps(s, ask);
    }
  }

  // ----- what counts as an error -----

  /** The step meets an error that counts: a failed movement, call or status, or a failed
      or invalid reading, but for one that timed out. The errors of a write do not. */
  predicate Faulty(e: Engine, env: Env) {
    match e.worker.phase
    case Draining => e.shared.commands != [] && e.shared.commands[0].NoClick? && (env.select.Failed? || env.call.Some?)
    case Steering(moves, _) => moves.Some? && MoveFails(e, moves.value, env)
    case Switching(wish) =>
      wish.Some? && (MoveFails(e, Track(e.worker.target.cylinder, wish.value.side), env) || env.call.Some?)
    case Polling => env.due && env.poll.PollFailed?
    case Approaching(track) => MoveFails(e, track, env)
    case Reading(_) =>
      || (env.read.ReadFailed? && !env.read.error.Timeout?)
      || (env.read.Captured? && !(64 <= env.read.raw.bitLen <= |env.read.raw.words| * 16 && env.read.raw.bitLen <= 237_568))
    case _ => false
  }

  /** The step ends a run of errors: a destination reached, the motor set, a report stored
      or a reading finished. */
  predicate Heartening(e: Engine, env: Env) {
    match e.worker.phase
    case Steering(moves, _) => moves.Some? && !Faulty(e, env)
    case Switching(wish) => wish.Some? && !Faulty(e, env)
    case Storing(_) => true
    case Withdrawing(_, _) => true
    case _ => false
  }

  predicate CountsTo(e: Engine, env: Env, errors: nat) {
    errors == if Faulty(e, env) then e.worker.errors + 1 else if Heartening(e, env) then 0 else e.worker.errors
  }

  lemma NoteErrorCounts(e: Engine, error: Error, next: Phase)
    ensures NoteError(e, error, next).worker.errors == e.worker.errors + 1
  {
  }

  lemma MovedCounts(e: Engine, track: Track, env: Env)
    ensures Position(e, track, env).e.worker.errors == e.worker.errors
    ensures Position(e, track, env).error.Some? <==> MoveFails(e, track, env)
  {
    PositionFrame(e, track, env);
    PositionFailsExactly(e, track, env);
  }

  lemma SteerCounts(e: Engine, env: Env)
    requires e.worker.phase.Steering?
    ensures CountsTo(e, env, SteerStep(e, env).worker.errors)
  {
    if e.worker.phase.moves.Some? {
      MovedCounts(e, e.worker.phase.moves.value, env);
    }
  }

  lemma SwitchCounts(e: Engine, env: Env)
    requires e.worker.phase.Switching?
    ensures CountsTo(e, env, SwitchStep(e, env).worker.errors)
  {
    if e.worker.phase.wish.Some? {
      MovedCounts(e, Track(e.worker.target.cylinder, e.worker.phase.wish.value.side), env);
    }
  }

  lemma ApproachCounts(e: Engine, env: Env)
    requires e.worker.phase.Approaching?
    ensures CountsTo(e, env, ApproachStep(e, env).worker.errors)
  {
    MovedCounts(e, e.worker.phase.track, env);
  }

  lemma PlaceCounts(e: Engine, env: Env)
    requires e.worker.phase.Placing?
    ensures CountsTo(e, env, PlaceStep(e, env).worker.errors)
  {
    MovedCounts(PlaceStart(e), e.worker.phase.request.track, env);
  }

  lemma ReadCounts(e: Engine, env: Env)
    requires e.worker.phase.Reading?
    ensures CountsTo(e, env, ReadStep(e, env).worker.errors)
  {
  }

  lemma DrainCounts(e: Engine, env: Env)
    requires e.worker.phase.Draining?
    ensures CountsTo(e, env, DrainStep(e, env).worker.errors)
  {
  }

  lemma RestCounts(e: Engine, env: Env)
    requires !e.worker.phase.Steering? && !e.worker.phase.Switching? && !e.worker.phase.Approaching?
    requires !e.worker.phase.Placing? && !e.worker.phase.Reading? && !e.worker.phase.Draining?
    ensures CountsTo(e, env, Work(e, env).worker.errors)
  {
  }

  /** Over every run, a step of the worker adds to the errors in a row exactly if it meets
      one that counts, and ends the row exactly if it succeeds at something. */
  lemma ErrorsAreCountedExactly(status: Status, head: Track, max: nat, steps: seq<Step>, env: Env)
    ensures var e := Run(Begin(status, head, max), steps).engine;
      Trailing(Work(e, env).world.log)
      == if Faulty(e, env) then Trailing(e.world.log) + 1 else if Heartening(e, env) then 0 else Trailing(e.world.log)
  {
    var e := Run(Begin(status, head, max), steps).engine;
    FailsRightlyOverRuns(status, head, max, steps);
    WorkKeeps(e, env);
    match e.worker.phase
    case Steering(_, _) => SteerCounts(e, env);
    case Switching(_) => SwitchCounts(e, env);
    case Approaching(_) => ApproachCounts(e, env);
    case Placing(_, _) => PlaceCounts(e, env);
    case Reading(_) => ReadCounts(e, env);
    case Draining => DrainCounts(e, env);
    case _ => RestCounts(e, env);
  }

  // ----- stopping cleanly -----

  predicate ShutdownLast(commands: seq<Command>) {
    forall i :: 0 <= i < |commands| - 1 ==> !commands[i].Shutdown?
  }

  /** A worker that stops without having failed was told to by the last command
      there will ever be; and once the bridge is dropped, that command waits for a worker
      that has not stopped. */
  predicate StopsRightly(s: State) {
    var e := s.engine;
    && ShutdownLast(e.shared.commands)
    && (!s.bridge.dropped && e.shared.commands != [] ==> !e.shared.commands[|e.shared.commands| - 1].Shutdown?)
    && (Stopping(e.worker.phase) && !e.worker.failed ==> s.bridge.dropped && e.shared.commands == [])
    && (s.bridge.dropped && !Stopping(e.worker.phase) ==>
          e.shared.commands != [] && e.shared.commands[|e.shared.commands| - 1].Shutdown?)
  }

  /** Taking a shutdown stops the worker, and nothing else takes it. */
  lemma ShutdownIsObeyed(e: Engine, env: Env)
    ensures Work(e, env).shared.commands == e.shared.commands || e.worker.phase.Draining?
    ensures ToldToStop(e) ==> Work(e, env).worker.phase.Stopping?
    ensures Stopping(e.worker.phase) ==> Stopping(Work(e, env).worker.phase)
  {
    WorkFrame(e, env);
  }

  lemma StopsKept(s: State, f: Engine)
    requires StopsRightly(s)
    requires s.engine.worker.failed ==> f.worker.failed
    requires f.shared.commands == s.engine.shared.commands
             || (s.engine.shared.commands != [] && f.shared.commands == s.engine.shared.commands[1..]
                 && s.engine.worker.phase.Draining?)
    requires if ToldToStop(s.engine) then Stopping(f.worker.phase)
             else if Stopping(s.engine.worker.phase) then Stopping(f.worker.phase) else FailsToStop(f)
    requires ToldToStop(s.engine) ==> f.shared.commands == s.engine.shared.commands[1..]
    ensures StopsRightly(s.(engine := f))
  {
  }

  lemma FailedForGood(e: Engine, env: Env)
    requires FailsRightly(e)
    ensures e.worker.failed ==> Work(e, env).worker.failed
    ensures ToldToStop(e) ==> Work(e, env).shared.commands == e.shared.commands[1..]
  {
  }

  lemma WorkStops(s: State, env: Env)
    requires FailsRightly(s.engine) && StopsRightly(s)
    ensures StopsRightly(s.(engine := Work(s.engine, env)))
  {
    WorkKeeps(s.engine, env);
    WorkFrame(s.engine, env);
    ShutdownIsObeyed(s.engine, env);
    FailedForGood(s.engine, env);
    StopsKept(s, Work(s.engine, env));
  }

  lemma ConsumeStops(s: State, ask: Ask)
    requires StopsRightly(s)
    ensures StopsRightly(Consume(s, ask))
  {
  }

  lemma {:induction false} StopsRightlyOverRuns(status: Status, head: Track, max: nat, steps: seq<Step>)
    ensures StopsRightly(Run(Begin(status, head, max), steps))
  {
    if steps != [] {
      var front := steps[..|steps| - 1];
      StopsRightlyOverRuns(status, head, max, front);
      FailsRightlyOverRuns(status, head, max, front);
      var s := Run(Begin(status, head, max), front);
      match steps[|steps| - 1]
      case WorkerStep(env) => WorkStops(s, env);
      case ConsumerStep(ask) => ConsumeStops(s, ask);
    }
  }

  /** A dropped bridge stops its worker: unless it has failed or stopped, the shutdown is
      waiting behind every other command, and taking it is stopping. */
  lemma DropStopsTheWorker(status: Status, head: Track, max: nat, steps: seq<Step>, env: Env)
    requires Run(Begin(status, head, max), steps).bridge.dropped
    ensures var e := Run(Begin(status, head, max), steps).engine;
      || e.worker.phase.Stopping? || e.worker.phase.Stopped?
      || (&& e.shared.commands != [] && e.shared.commands[|e.shared.commands| - 1] == Shutdown
          && (e.worker.phase.Draining? && |e.shared.commands| == 1 ==> Work(e, env).worker.phase.Stopping?))
  {
    StopsRightlyOverRuns(status, head, max, steps);
    ShutdownIsObeyed(Run(Begin(status, head, max), steps).engine, env);
  }

  /** A clean stop comes after every write ever accepted has been performed. */
  lemma CleanStopPerformsAll(status: Status, head: Track, max: nat, steps: seq<Step>)
    requires var e := Run(Begin(status, head, max), steps).engine; Stopping(e.worker.phase) && !e.worker.failed
    ensures var log := Run(Begin(status, head, max), steps).engine.world.log;
      Flat(log, PerformedJob) == Flat(log, AcceptedJob)
  {
    StopsRightlyOverRuns(status, head, max, steps);
    WritesKeepTheirTurn(status, head, max, steps);
  }
}
