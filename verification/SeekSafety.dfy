/** What becomes of a seek: in runs without a device error the worker believes the head
    to be where it was asked for last, and where belief can be trusted it is there; an
    error of its movement can lose a seek. */
module SeekSafety {
  import opened Common
  import opened Controller
  import opened ControllerFrames
  import opened HeadSafety
  import opened WriteSafety
  import opened WishSafety
  import GreaseweazleReads

  function ReachedOf(a: Act): seq<Track> {
    if a.Reached? then [a.track] else []
  }

  /** The destination still to be acted on, if any. */
  function PendingAim(e: Engine): Option<Track> {
    if e.shared.desired.target.Some? then e.shared.desired.target
    else match e.worker.phase case Steering(moves, _) => moves case _ => None
  }

  /** The head was moved to the destination last asked for, or is about to be. */
  predicate AimFollows(e: Engine) {
    var aimed := Last(Flat(e.world.log, AimOf));
    if PendingAim(e).Some? then PendingAim(e) == aimed else Last(Flat(e.world.log, ReachedOf)) == aimed
  }

  /** Where the head was moved to last, unless a write or a motor wish has had it since. */
  function Settled(log: seq<Act>): Option<Track> {
    if log == [] then None
    else
      var last := log[|log| - 1];
      if last.Reached? then Some(last.track)
      else if last.Performed? || last.MotorSet? then None
      else Settled(log[..|log| - 1])
  }

  predicate WriteUnderway(phase: Phase) {
    phase.Measuring? || phase.Writing? || phase.Evicting?
  }

  /** Left alone, the head is believed where it was moved to, which is the destination
      last taken up. */
  predicate BelievedThere(e: Engine) {
    Settled(e.world.log).Some? && !WriteUnderway(e.worker.phase) ==>
      && e.worker.positioned && e.worker.physical == Settled(e.world.log).value
      && ((e.worker.phase.Steering? && e.worker.phase.moves.Some?) || e.worker.physical == e.worker.target)
  }

  lemma {:induction false} SettledGrows(before: seq<Act>, after: seq<Act>)
    requires before <= after
    requires forall i :: |before| <= i < |after| ==>
        !after[i].Reached? && !after[i].Performed? && !after[i].MotorSet?
    ensures Settled(after) == Settled(before)
    decreases |after|
  {
    if |after| == |before| {
      assert after == before;
    } else {
      SettledGrows(before, after[..|after| - 1]);
    }
  }

  lemma AimsKept(e: Engine, f: Engine)
    requires AimFollows(e) && PendingAim(f) == PendingAim(e)
    requires e.world.log <= f.world.log
    requires forall i :: |e.world.log| <= i < |f.world.log| ==> !f.world.log[i].Aimed? && !f.world.log[i].Reached?
    ensures AimFollows(f)
  {
    FlatSilent(e.world.log, f.world.log, AimOf);
    FlatSilent(e.world.log, f.world.log, ReachedOf);
  }

  /** After acting on a destination the head is believed to be there exactly when no
      movement that was needed failed; a known head that stays put when a movement
      fails is then really there or really elsewhere. */
  lemma SteerArrivesExactly(e: Engine, env: Env)
    requires e.worker.phase.Steering? && e.worker.phase.moves.Some?
    ensures var track, f := e.worker.phase.moves.value, SteerStep(e, env);
      var failed := MoveFails(e, track, env);
      && (f.worker.positioned && f.worker.physical == track <==> !failed)
      && (e.worker.positioned && e.world.head == e.worker.physical
          && (env.seek.Failed? ==> env.seek.astray.None?) && (env.select.Failed? ==> env.select.astray.None?) ==>
            (f.world.head == track <==> !failed))
  {
    SteerEnds(e, env, e.worker.phase.moves.value);
    PositionFailsExactly(e, e.worker.phase.moves.value, env);
  }

  lemma ReachedNow(e: Engine, f: Engine, track: Track)
    requires f.world.log == e.world.log + [Reached(track)] + [Cleared]
    ensures Last(Flat(f.world.log, ReachedOf)) == Some(track)
    ensures Last(Flat(f.world.log, AimOf)) == Last(Flat(e.world.log, AimOf))
    ensures Settled(f.world.log) == Some(track)
  {
    FlatPush(e.world.log, Reached(track), ReachedOf);
    FlatPush(e.world.log + [Reached(track)], Cleared, ReachedOf);
    FlatPush(e.world.log, Reached(track), AimOf);
    FlatPush(e.world.log + [Reached(track)], Cleared, AimOf);
    assert f.world.log[..|f.world.log| - 1] == e.world.log + [Reached(track)];
  }

  lemma PositionArrives(e: Engine, track: Track, env: Env)
    ensures var moved := Position(e, track, env);
      moved.error.None? ==> moved.e.worker.positioned && moved.e.worker.physical == track
  {
  }

  lemma ArrivedAims(e: Engine, f: Engine, track: Track)
    requires Last(Flat(e.world.log, AimOf)) == (if e.shared.desired.target.Some? then e.shared.desired.target else Some(track))
    requires f.world.log == e.world.log + [Reached(track)] + [Cleared]
    requires f.shared.desired == e.shared.desired && f.worker.phase.Switching?
    requires f.worker.positioned && f.worker.physical == track == f.worker.target
    ensures AimFollows(f) && BelievedThere(f)
  {
    ReachedNow(e, f, track);
  }

  lemma SteerNowhere(e: Engine)
    requires e.worker.phase.Steering? && e.worker.phase.moves.None? && AimFollows(e) && BelievedThere(e)
    ensures var f := At(e, Switching(e.worker.phase.motor)); AimFollows(f) && BelievedThere(f)
  {
  }

  lemma SteerSomewhere(e: Engine, env: Env, track: Track)
    requires e.worker.phase.Steering? && e.worker.phase.moves == Some(track) && track == e.worker.target
    requires AimFollows(e)
    requires ErrorFree(SteerStep(e, env).world.log)
    ensures AimFollows(SteerStep(e, env)) && BelievedThere(SteerStep(e, env))
  {
    var moved := Position(e, track, env).e;
    SteerEnds(e, env, track);
    PositionArrives(e, track, env);
    FlatSilent(e.world.log, moved.world.log, AimOf);
    ArrivedAims(moved, SteerStep(e, env), track);
  }

  lemma SteerAims(e: Engine, env: Env)
    requires e.worker.phase.Steering? && AimFollows(e) && BelievedThere(e)
    requires MovesToTarget(e)
    requires ErrorFree(SteerStep(e, env).world.log)
    ensures AimFollows(SteerStep(e, env)) && BelievedThere(SteerStep(e, env))
  {
    match e.worker.phase.moves
    case None => SteerNowhere(e);
    case Some(track) => SteerSomewhere(e, env, track);
  }

  lemma SwitchedNow(e: Engine, f: Engine, wish: MotorWish)
    requires f.world.log == e.world.log + [MotorSet(wish)] + [Cleared]
    ensures Flat(f.world.log, ReachedOf) == Flat(e.world.log, ReachedOf)
    ensures Flat(f.world.log, AimOf) == Flat(e.world.log, AimOf)
    ensures Settled(f.world.log).None?
  {
    FlatPush(e.world.log, MotorSet(wish), ReachedOf);
    FlatPush(e.world.log + [MotorSet(wish)], Cleared, ReachedOf);
    FlatPush(e.world.log, MotorSet(wish), AimOf);
    FlatPush(e.world.log + [MotorSet(wish)], Cleared, AimOf);
    assert f.world.log[..|f.world.log| - 1] == e.world.log + [MotorSet(wish)];
    assert Settled(e.world.log + [MotorSet(wish)]).None?;
  }

  lemma SwitchedAims(e: Engine, f: Engine, wish: MotorWish)
    requires AimFollows(e) && PendingAim(f) == PendingAim(e)
    requires f.world.log == e.world.log + [MotorSet(wish)] + [Cleared]
    ensures AimFollows(f) && BelievedThere(f)
  {
    SwitchedNow(e, f, wish);
  }

  lemma SwitchAims(e: Engine, env: Env)
    requires e.worker.phase.Switching? && AimFollows(e) && BelievedThere(e)
    requires ErrorFree(SwitchStep(e, env).world.log)
    ensures AimFollows(SwitchStep(e, env)) && BelievedThere(SwitchStep(e, env))
  {
    match e.worker.phase.wish
    case None =>
    case Some(wish) =>
      var moved := Position(e, Track(e.worker.target.cylinder, wish.side), env).e;
      SwitchEnds(e, env, wish);
      AimsKept(e, moved);
      SwitchedAims(moved, SwitchStep(e, env), wish);
  }

  /** The phases that may move the head. */
  predicate Moving(phase: Phase) {
    phase.Placing? || phase.Steering? || phase.Switching? || phase.Approaching?
  }

  lemma SmallStays(e: Engine, env: Env)
    requires !Moving(e.worker.phase)
    requires !e.worker.phase.Draining? && !e.worker.phase.Polling? && !e.worker.phase.Reading?
    ensures var f := Work(e, env);
      && f.worker.positioned == e.worker.positioned && f.worker.physical == e.worker.physical
      && (WriteUnderway(e.worker.phase) && !WriteUnderway(f.worker.phase) ==> e.worker.phase.Evicting?)
  {
  }

  lemma FailingStays(e: Engine, env: Env)
    requires e.worker.phase.Draining? || e.worker.phase.Polling? || e.worker.phase.Reading?
    ensures var f := Work(e, env);
      f.worker.positioned == e.worker.positioned && f.worker.physical == e.worker.physical
  {
    match env.read
    case Captured(raw) => if GreaseweazleReads.Validated(raw).Err? {}
    case _ =>
  }

  /** A step that moves nothing keeps the head where it was settled. */
  lemma StayingKept(e: Engine, f: Engine)
    requires AimFollows(e) && BelievedThere(e)
    requires f.worker.positioned == e.worker.positioned && f.worker.physical == e.worker.physical
    requires f.worker.target == e.worker.target && PendingAim(f) == PendingAim(e)
    requires WriteUnderway(f.worker.phase) || !WriteUnderway(e.worker.phase)
    requires !e.worker.phase.Steering? && !f.worker.phase.Steering?
    requires e.world.log <= f.world.log
    requires forall i :: |e.world.log| <= i < |f.world.log| ==>
        var a := f.world.log[i]; !a.Aimed? && !a.Reached? && !a.Performed? && !a.MotorSet?
    ensures AimFollows(f) && BelievedThere(f)
  {
    AimsKept(e, f);
    SettledGrows(e.world.log, f.world.log);
  }

  lemma StopAims(e: Engine)
    requires AimFollows(e) && BelievedThere(e) && e.worker.phase.Stopping?
    ensures AimFollows(StopStep(e)) && BelievedThere(StopStep(e))
  {
    AimsKept(e, StopStep(e));
    SettledGrows(e.world.log, StopStep(e).world.log);
  }

  lemma OtherAims(e: Engine, env: Env)
    requires AimFollows(e) && BelievedThere(e)
    requires !Moving(e.worker.phase)
    requires !e.worker.phase.Wishing? && !e.worker.phase.Evicting? && !e.worker.phase.Stopping?
    ensures AimFollows(Work(e, env)) && BelievedThere(Work(e, env))
  {
    WorkFrame(e, env);
    NothingPerformed(e, env);
    if e.worker.phase.Draining? || e.worker.phase.Polling? || e.worker.phase.Reading? {
      FailingStays(e, env);
    } else {
      SmallStays(e, env);
    }
    StayingKept(e, Work(e, env));
  }

  lemma NothingPerformed(e: Engine, env: Env)
    requires !e.worker.phase.Evicting?
    ensures e.world.log <= Work(e, env).world.log
    ensures forall i :: |e.world.log| <= i < |Work(e, env).world.log| ==> !Work(e, env).world.log[i].Performed?
  {
    if QuietPhase(e.worker.phase) {
      WorkIsQuiet(e, env);
    } else {
      match e.worker.phase
      case Draining =>
        if e.shared.commands != [] && e.shared.commands[0].NoClick? {
          ClickFrame(e.(shared := e.shared.(commands := e.shared.commands[1..])), e.shared.commands[0].side, env);
        }
      case Reading(_) => ReadFrame(e, env);
      case Polling => PollFrame(e, env);
      case _ =>
    }
  }

  lemma EvictAims(e: Engine)
    requires AimFollows(e) && e.worker.phase.Evicting?
    ensures AimFollows(EvictStep(e)) && BelievedThere(EvictStep(e))
  {
    var log := EvictStep(e).world.log;
    assert log[|log| - 1].Performed?;
    AimsKept(e, EvictStep(e));
  }

  lemma PlaceAims(e: Engine, env: Env)
    requires AimFollows(e) && e.worker.phase.Placing?
    ensures AimFollows(PlaceStep(e, env)) && BelievedThere(PlaceStep(e, env))
  {
    WorkFrame(e, env);
    PlaceFrame(e, env);
    AimsKept(e, PlaceStep(e, env));
  }

  /** A capture is made where the head is settled already. */
  lemma ApproachAims(e: Engine, env: Env)
    requires AimFollows(e) && BelievedThere(e) && e.worker.phase.Approaching? && e.worker.phase.track == e.worker.target
    requires ErrorFree(ApproachStep(e, env).world.log)
    ensures AimFollows(ApproachStep(e, env)) && BelievedThere(ApproachStep(e, env))
  {
    var f := ApproachStep(e, env);
    WorkFrame(e, env);
    ApproachFrame(e, env);
    AimsKept(e, f);
    SettledGrows(e.world.log, f.world.log);
  }

  lemma WishArrives(e: Engine)
    requires AimFollows(e) && BelievedThere(e) && e.worker.phase.Wishing?
    ensures AimFollows(WishStep(e)) && BelievedThere(WishStep(e))
  {
    AimsKept(e, WishStep(e));
  }

  predicate Arrives(e: Engine) {
    AimFollows(e) && BelievedThere(e)
  }

  lemma WishesArrive(e: Engine, env: Env)
    requires Arrives(e) && MovesToTarget(e)
    requires e.worker.phase.Steering? || e.worker.phase.Switching?
    requires ErrorFree(Work(e, env).world.log)
    ensures Arrives(Work(e, env))
  {
    if e.worker.phase.Steering? {
      assert Work(e, env) == SteerStep(e, env);
      SteerAims(e, env);
    } else {
      assert Work(e, env) == SwitchStep(e, env);
      SwitchAims(e, env);
    }
  }

  lemma CaptureArrives(e: Engine, env: Env)
    requires Arrives(e) && e.worker.phase.Approaching? && e.worker.phase.track == e.worker.target
    requires ErrorFree(Work(e, env).world.log)
    ensures Arrives(Work(e, env))
  {
    assert Work(e, env) == ApproachStep(e, env);
    ApproachAims(e, env);
  }

  lemma WriteArrives(e: Engine, env: Env)
    requires Arrives(e)
    requires e.worker.phase.Placing? || e.worker.phase.Evicting?
    ensures Arrives(Work(e, env))
  {
    if e.worker.phase.Placing? {
      assert Work(e, env) == PlaceStep(e, env);
      PlaceAims(e, env);
    } else {
      assert Work(e, env) == EvictStep(e);
      EvictAims(e);
    }
  }

  lemma RestArrives(e: Engine, env: Env)
    requires Arrives(e) && !Moving(e.worker.phase) && !e.worker.phase.Evicting?
    ensures Arrives(Work(e, env))
  {
    if e.worker.phase.Wishing? {
      assert Work(e, env) == WishStep(e);
      WishArrives(e);
    } else if e.worker.phase.Stopping? {
      assert Work(e, env) == StopStep(e);
      StopAims(e);
    } else {
      OtherAims(e, env);
    }
  }

  /** Movements are to the destination taken up. */
  predicate Bound(e: Engine) {
    MovesToTarget(e) && (e.worker.phase.Approaching? ==> e.worker.phase.track == e.worker.target)
  }

  lemma WorkArrives(e: Engine, env: Env)
    requires Bound(e) && Arrives(e)
    requires ErrorFree(Work(e, env).world.log)
    ensures Arrives(Work(e, env))
  {
    var phase := e.worker.phase;
    if phase.Steering? || phase.Switching? {
      WishesArrive(e, env);
    } else if phase.Approaching? {
      CaptureArrives(e, env);
    } else if phase.Placing? || phase.Evicting? {
      WriteArrives(e, env);
    } else {
      RestArrives(e, env);
    }
  }

  lemma AimedNow(log: seq<Act>, track: Track, demanded: bool)
    ensures var after := log + [Aimed(track, demanded)];
      && Last(Flat(after, AimOf)) == Some(track) && Settled(after) == Settled(log)
  {
    var after := log + [Aimed(track, demanded)];
    FlatPush(log, Aimed(track, demanded), AimOf);
    assert after[..|after| - 1] == log;
  }

  lemma AskedArrives(e: Engine, f: Engine, track: Track, demanded: bool)
    requires BelievedThere(e) && f.worker == e.worker && f.shared.desired.target == Some(track)
    requires f.world.log == e.world.log + [Aimed(track, demanded)]
    ensures Arrives(f)
  {
    AimedNow(e.world.log, track, demanded);
  }

  /** Any other call leaves the head and its destination alone. */
  lemma CallFrame(s: State, ask: Ask)
    requires s.bridge.dropped || (!ask.Seek? && !ask.Demand?)
    ensures var e, f := s.engine, Consume(s, ask).engine;
      && f.worker == e.worker && f.shared.desired.target == e.shared.desired.target
      && e.world.log <= f.world.log
      && forall i :: |e.world.log| <= i < |f.world.log| ==>
           var a := f.world.log[i]; !a.Aimed? && !a.Reached? && !a.Performed? && !a.MotorSet?
  {
    ConsumeFrame(s, ask);
  }

  lemma CallArrives(e: Engine, f: Engine)
    requires Arrives(e) && f.worker == e.worker && f.shared.desired.target == e.shared.desired.target
    requires e.world.log <= f.world.log
    requires forall i :: |e.world.log| <= i < |f.world.log| ==>
        var a := f.world.log[i]; !a.Aimed? && !a.Reached? && !a.Performed? && !a.MotorSet?
    ensures Arrives(f)
  {
    AimsKept(e, f);
    SettledGrows(e.world.log, f.world.log);
  }

  lemma ConsumeArrives(s: State, ask: Ask)
    requires Arrives(s.engine)
    ensures Arrives(Consume(s, ask).engine)
  {
    if (ask.Seek? || ask.Demand?) && !s.bridge.dropped {
      AskedArrives(s.engine, Consume(s, ask).engine, ClampTrack(ask.track, s.bridge.maxCylinders), ask.Demand?);
    } else {
      CallFrame(s, ask);
      CallArrives(s.engine, Consume(s, ask).engine);
    }
  }

  /** In every run without a device error, as far as the worker knows, the head is moved
      to the destination asked for last, or the latest is still on its way; and there it
      is believed to stay, until a write or a motor wish takes it elsewhere. */
  lemma {:induction false} SeekFollowsWithoutErrors(status: Status, head: Track, max: nat, steps: seq<Step>)
    requires ErrorFree(Run(Begin(status, head, max), steps).engine.world.log)
    ensures AimFollows(Run(Begin(status, head, max), steps).engine)
    ensures BelievedThere(Run(Begin(status, head, max), steps).engine)
  {
    if steps != [] {
      var front := steps[..|steps| - 1];
      var s := Run(Begin(status, head, max), front);
      StopsForGood(s, steps[|steps| - 1]);
      ErrorFreeBefore(s.engine.world.log, Run(Begin(status, head, max), steps).engine.world.log);
      SeekFollowsWithoutErrors(status, head, max, front);
      LatestAimWins(status, head, max, front);
      match steps[|steps| - 1]
      case WorkerStep(env) => WorkArrives(s.engine, env);
      case ConsumerStep(ask) => ConsumeArrives(s, ask);
    }
  }

  /** Where the worker's belief can be trusted, the head is really there: nothing but a
      write or a motor wish takes it away from the destination reached last. */
  lemma HeadFollowsWithoutErrors(status: Status, head: Track, max: nat, steps: seq<Step>)
    requires ErrorFree(Run(Begin(status, head, max), steps).engine.world.log)
    requires TameRun(Begin(status, head, max), steps)
    ensures var e := Run(Begin(status, head, max), steps).engine;
      && AimFollows(e)
      && (Settled(e.world.log).Some? && !WriteUnderway(e.worker.phase) ==>
            && e.world.head == Settled(e.world.log).value
            && ((e.worker.phase.Steering? && e.worker.phase.moves.Some?) || e.world.head == e.worker.target))
  {
    SeekFollowsWithoutErrors(status, head, max, steps);
    HeadIsWhereAsked(status, head, max, steps);
  }

  // ----- a seek to the wrong side -----

  /** Nothing to do, and no error so far. */
  predicate AtRest(e: Engine) {
    && e.worker.phase.Draining? && e.shared.commands == [] && e.worker.wanted.None?
    && ErrorFree(e.world.log)
  }

  /** The worker believes its head at home, where it took it last. */
  predicate SettledHome(e: Engine) {
    && e.worker.positioned && e.worker.physical == HOME && e.shared.desired == NO_WISH
    && Settled(e.world.log) == Some(HOME)
  }

  lemma TakesTheSeek(e: Engine)
    requires AtRest(e) && e.shared.desired == Desired(None, Some(HOME), None)
    ensures var f := Works(e, OBEDIENT, 2);
      && f.worker.phase == Steering(Some(HOME), None) && f.worker.wanted.None?
      && f.shared.desired == NO_WISH && f.shared.commands == [] && f.world == e.world
      && f.worker.positioned == e.worker.positioned && f.worker.physical == e.worker.physical
  {
    var a := Work(e, OBEDIENT);
    assert a == At(e, Wishing);
    assert Works(a, OBEDIENT, 1) == Work(a, OBEDIENT);
  }

  lemma ObeysHome(e: Engine)
    requires ErrorFree(e.world.log)
    ensures var m := Position(e, HOME, OBEDIENT);
      && m.error.None? && ErrorFree(m.e.world.log)
      && m.e.worker == e.worker.(positioned := true, physical := HOME)
      && m.e.shared.desired == e.shared.desired && m.e.shared.commands == e.shared.commands
      && (e.worker.positioned && e.worker.physical == HOME ==> m.e.world == e.world)
  {
  }

  lemma ArrivesHome(m: Engine)
    requires ErrorFree(m.world.log) && m.worker.positioned && m.worker.physical == HOME && m.shared.desired == NO_WISH
    ensures var f := At(Healthy(Logged(m, Reached(HOME))), Switching(None)); ErrorFree(f.world.log) && SettledHome(f)
  {
    ReachedNow(m, At(Healthy(Logged(m, Reached(HOME))), Switching(None)), HOME);
  }

  lemma ReachesHome(e: Engine)
    requires e.worker.phase == Steering(Some(HOME), None) && e.worker.wanted.None?
    requires e.shared.desired == NO_WISH && e.shared.commands == [] && ErrorFree(e.world.log)
    ensures var f := SteerStep(e, OBEDIENT);
      && f.worker.phase == Switching(None) && f.worker.wanted.None? && f.shared.commands == []
      && ErrorFree(f.world.log) && SettledHome(f)
      && (e.worker.positioned && e.worker.physical == HOME ==>
            f.world.head == e.world.head && f.world.log == e.world.log + [Reached(HOME)] + [Cleared])
  {
    var moved := Position(e, HOME, OBEDIENT).e;
    ObeysHome(e);
    ArrivesHome(moved);
    assert SteerStep(e, OBEDIENT) == At(Healthy(Logged(moved, Reached(HOME))), Switching(None));
  }

  lemma RestsAgain(e: Engine)
    requires e.worker.phase == Switching(None) && e.worker.wanted.None?
    ensures Works(e, OBEDIENT, 3) == At(e, Draining)
  {
    var a := Work(e, OBEDIENT);
    assert a == At(e, Polling);
    ComesRound(a);
    assert Works(e, OBEDIENT, 3) == Works(a, OBEDIENT, 2);
  }

  /** Any run at rest can be extended by a seek of the home track. */
  lemma SeekHome(s: State, steps: seq<Step>) returns (longer: seq<Step>)
    requires var t := Run(s, steps); AtRest(t.engine) && t.engine.shared.desired == NO_WISH && !t.bridge.dropped
    ensures var t, u := Run(s, steps), Run(s, longer);
      && AtRest(u.engine) && SettledHome(u.engine) && u.bridge == t.bridge
      && (t.engine.worker.positioned && t.engine.worker.physical == HOME ==>
            && u.engine.world.head == t.engine.world.head
            && u.engine.world.log == t.engine.world.log + [Aimed(HOME, false)] + [Reached(HOME)] + [Cleared])
  {
    OneMore(s, steps, ConsumerStep(Seek(HOME)));
    longer := steps + [ConsumerStep(Seek(HOME))];
    TakesTheSeek(Run(s, longer).engine);
    longer := MoreWorks(s, longer, Run(s, longer), OBEDIENT, 2);
    ReachesHome(Run(s, longer).engine);
    OneWork(s, longer, OBEDIENT);
    longer := longer + [WorkerStep(OBEDIENT)];
    RestsAgain(Run(s, longer).engine);
    longer := MoreWorks(s, longer, Run(s, longer), OBEDIENT, 3);
  }

  /** A no-click step of the other side between two seeks of one track, on a device
      that never fails: the second moves nothing, counts as reached, and leaves the head
      on the wrong side. */
  lemma ClickMisleadsASeek(status: Status, head: Track, max: nat) returns (steps: seq<Step>)
    ensures var e := Run(Begin(status, head, max), steps).engine;
      && ErrorFree(e.world.log) && e.worker.phase.Draining?
      && |e.world.log| >= 3 && e.world.log[|e.world.log| - 3..] == [Aimed(HOME, false), Reached(HOME), Cleared]
      && e.world.head.side == Upper
  {
    var s := Begin(status, head, max);
    steps := SeekHome(s, []);
    steps := ClickUpper(s, steps);
    steps := SeekHome(s, steps);
  }

  // ----- losing a seek -----

  /** Nobody wants the head anywhere. */
  predicate Idle(e: Engine) {
    && e.shared.desired == NO_WISH && e.worker.wanted.None?
    && (forall i :: 0 <= i < |e.shared.commands| ==> e.shared.commands[i].Shutdown?)
    && match e.worker.phase
       case Draining => true
       case Wishing => true
       case Steering(moves, motor) => moves.None? && motor.None?
       case Switching(wish) => wish.None?
       case Polling => true
       case Clearing(_, _) => true
       case Announcing(_, _) => true
       case Storing(_) => true
       case Choosing => true
       case Stopping => true
       case Stopped => true
       case _ => false
  }

  lemma IdleWork(e: Engine, env: Env)
    requires Idle(e)
    ensures Idle(Work(e, env)) && Work(e, env).world.head == e.world.head
  {
  }

  /** The calls that ask for no movement. */
  predicate Unmoving(ask: Ask) {
    ask.Look? || ask.Glance? || ask.Pop? || ask.Vet? || ask.PollEvent? || ask.Drop?
  }

  lemma IdleConsume(s: State, ask: Ask)
    requires Idle(s.engine) && Unmoving(ask)
    ensures Idle(Consume(s, ask).engine) && Consume(s, ask).engine.world.head == s.engine.world.head
  {
  }

  lemma {:induction false} IdleRuns(s: State, steps: seq<Step>)
    requires Idle(s.engine)
    requires forall step :: step in steps && step.ConsumerStep? ==> Unmoving(step.ask)
    ensures Idle(Run(s, steps).engine) && Run(s, steps).engine.world.head == s.engine.world.head
  {
    if steps != [] {
      IdleRuns(s, steps[..|steps| - 1]);
      var t := Run(s, steps[..|steps| - 1]);
      match steps[|steps| - 1]
      case WorkerStep(env) => IdleWork(t.engine, env);
      case ConsumerStep(ask) =>
        assert steps[|steps| - 1] in steps;
        IdleConsume(t, ask);
    }
  }

  /** One passing error of the movement loses a seek for good: the worker lives on,
      the destination stands, and however it runs, nothing ever moves the head there
      until somebody asks for a movement again. */
  lemma SeekWishIsLost(status: Status, head: Track, max: nat, track: Track, later: seq<Step>) returns (steps: seq<Step>)
    requires forall step :: step in later && step.ConsumerStep? ==> Unmoving(step.ask)
    ensures var s := Run(Begin(status, head, max), steps);
      && !s.engine.worker.failed
      && Destination(s.engine.world.log) == ClampTrack(track, max)
      && Run(s, later).engine.world.head == head
  {
    var s, aim := Begin(status, head, max), ClampTrack(track, max);
    OneMore(s, [], ConsumerStep(Seek(track)));
    steps := [] + [ConsumerStep(Seek(track))];
    Slips(Run(s, steps).engine, aim);
    steps := ThreeSlips(s, steps, aim);
    FlatOne(Aimed(aim, false), AimOf);
    FlatSilent([Aimed(aim, false)], Run(s, steps).engine.world.log, AimOf);
    IdleRuns(Run(s, steps), later);
  }
}
