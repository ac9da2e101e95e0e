/** What becomes of motor wishes: the motor follows the latest in runs without a
    device error, an error of the head can lose one, and a stopped worker has asked
    for the motor to be switched off. */
module MotorSafety {
  import opened Common
  import opened Controller
  import opened ControllerFrames
  import opened WriteSafety
  import opened WishSafety

  function WishOf(a: Act): seq<MotorWish> {
    if a.Switched? then [a.wish] else []
  }

  /** A call to switch the motor: for a wish, or at the very end. */
  datatype MotorCall = Wished(wish: MotorWish) | Final

  function CallOf(a: Act): seq<MotorCall> {
    match a
    case MotorSet(wish) => [Wished(wish)]
    case MotorOff => [Final]
    case _ => []
  }

  function Calls(log: seq<Act>): seq<MotorCall> {
    Flat(log, CallOf)
  }

  /** The motor wish still to be applied, if any. */
  function PendingMotor(e: Engine): Option<MotorWish> {
    if e.shared.desired.motor.Some? then e.shared.desired.motor
    else
      match e.worker.phase
      case Steering(_, motor) => motor
      case Switching(wish) => wish
      case _ => None
  }

  /** The motor is as last wished, or is about to be. */
  predicate MotorFollows(e: Engine) {
    var wished := Last(Flat(e.world.log, WishOf));
    if PendingMotor(e).Some? then PendingMotor(e) == wished
    else Last(Calls(e.world.log)) == if wished.Some? then Some(Wished(wished.value)) else None
  }

  /** Steps that neither take up a wish nor express one. */
  lemma MotorKept(e: Engine, f: Engine)
    requires MotorFollows(e) && PendingMotor(f) == PendingMotor(e)
    requires e.world.log <= f.world.log
    requires forall i :: |e.world.log| <= i < |f.world.log| ==>
        !f.world.log[i].Switched? && !f.world.log[i].MotorSet? && !f.world.log[i].MotorOff?
    ensures MotorFollows(f)
  {
    FlatSilent(e.world.log, f.world.log, WishOf);
    FlatSilent(e.world.log, f.world.log, CallOf);
  }

  /** A motor wish in hand survives the destination of its pass exactly when no movement
      needed for it fails. */
  lemma SteerKeepsMotorExactly(e: Engine, env: Env)
    requires e.worker.phase.Steering? && e.worker.phase.motor.Some? && e.shared.desired.motor.None?
    ensures var moves, f := e.worker.phase.moves, SteerStep(e, env);
      PendingMotor(f) == (if moves.Some? && MoveFails(e, moves.value, env) then None else PendingMotor(e))
  {
    if e.worker.phase.moves.Some? {
      PositionFailsExactly(e, e.worker.phase.moves.value, env);
      SteerEnds(e, env, e.worker.phase.moves.value);
    }
  }

  lemma SteerMotor(e: Engine, env: Env)
    requires e.worker.phase.Steering? && MotorFollows(e)
    requires ErrorFree(SteerStep(e, env).world.log)
    ensures MotorFollows(SteerStep(e, env))
  {
    if e.worker.phase.moves.Some? {
      SteerEnds(e, env, e.worker.phase.moves.value);
    }
    MotorKept(e, SteerStep(e, env));
  }

  lemma AppliedMotor(e: Engine, f: Engine, wish: MotorWish)
    requires MotorFollows(e) && e.worker.phase == Switching(Some(wish))
    requires f.shared.desired == e.shared.desired && f.worker.phase.Polling?
    requires f.world.log == e.world.log + [MotorSet(wish)] + [Cleared]
    ensures MotorFollows(f)
  {
    FlatPush(e.world.log, MotorSet(wish), WishOf);
    FlatPush(e.world.log, MotorSet(wish), CallOf);
    FlatPush(e.world.log + [MotorSet(wish)], Cleared, WishOf);
    FlatPush(e.world.log + [MotorSet(wish)], Cleared, CallOf);
  }

  lemma SwitchMotor(e: Engine, env: Env)
    requires e.worker.phase.Switching? && MotorFollows(e)
    requires ErrorFree(SwitchStep(e, env).world.log)
    ensures MotorFollows(SwitchStep(e, env))
  {
    var f := SwitchStep(e, env);
    if e.worker.phase.wish.Some? {
      var wish := e.worker.phase.wish.value;
      var moved := Position(e, Track(e.worker.target.cylinder, wish.side), env);
      SwitchEnds(e, env, wish);
      if moved.error.None? && env.call.None? {
        MotorKept(e, moved.e);
        AppliedMotor(moved.e, f, wish);
      }
    }
  }

  lemma WishMotor(e: Engine)
    requires e.worker.phase.Wishing? && MotorFollows(e)
    ensures MotorFollows(WishStep(e))
  {
    MotorKept(e, WishStep(e));
  }

  lemma WorkMotor(e: Engine, env: Env)
    requires MotorFollows(e) && ErrorFree(Work(e, env).world.log)
    requires !Work(e, env).worker.phase.Stopped?
    ensures MotorFollows(Work(e, env))
  {
    match e.worker.phase
    case Steering(_, _) => SteerMotor(e, env);
    case Switching(_) => SwitchMotor(e, env);
    case Wishing => WishMotor(e);
    case _ =>
      WorkFrame(e, env);
      MotorKept(e, Work(e, env));
  }

  lemma ConsumeMotor(s: State, ask: Ask)
    requires MotorFollows(s.engine)
    ensures MotorFollows(Consume(s, ask).engine)
  {
    var e, f := s.engine, Consume(s, ask).engine;
    if ask.SetMotor? && !s.bridge.dropped {
      FlatPush(e.world.log, Switched(MotorWish(ask.side, ask.enabled)), WishOf);
    } else {
      ConsumeFrame(s, ask);
      MotorKept(e, f);
    }
  }

  /** In every run without a device error, and until it stops, the motor is as last
      wished, or the latest wish is still on its way. */
  lemma {:induction false} MotorFollowsWithoutErrors(status: Status, head: Track, max: nat, steps: seq<Step>)
    requires ErrorFree(Run(Begin(status, head, max), steps).engine.world.log)
    requires !Run(Begin(status, head, max), steps).engine.worker.phase.Stopped?
    ensures MotorFollows(Run(Begin(status, head, max), steps).engine)
  {
    if steps != [] {
      var front := steps[..|steps| - 1];
      var s := Run(Begin(status, head, max), front);
      StopsForGood(s, steps[|steps| - 1]);
      ErrorFreeBefore(s.engine.world.log, Run(Begin(status, head, max), steps).engine.world.log);
      MotorFollowsWithoutErrors(status, head, max, front);
      match steps[|steps| - 1]
      case WorkerStep(env) => WorkMotor(s.engine, env);
      case ConsumerStep(ask) => ConsumeMotor(s, ask);
    }
  }

  // ----- the motor at the end -----

  /** Asking for the motor to be switched off is the last motor call of a stopped
      worker, made once, and of no other. */
  predicate StopsTheMotor(e: Engine) {
    CallsEnd(Calls(e.world.log), e.worker.phase.Stopped?)
  }

  lemma WorkStopsFrom(e: Engine, env: Env)
    ensures Work(e, env).worker.phase.Stopped? <==> e.worker.phase.Stopping? || e.worker.phase.Stopped?
  {
    if QuietPhase(e.worker.phase) {
      WorkIsQuiet(e, env);
    } else {
      match e.worker.phase
      case Draining =>
        if e.shared.commands != [] && e.shared.commands[0].NoClick? {
          ClickFrame(e.(shared := e.shared.(commands := e.shared.commands[1..])), e.shared.commands[0].side, env);
        }
      case Reading(_) => ReadFrame(e, env);
      case Polling => PollFrame(e, env);
      case _ =>
    }
  }

  lemma SwitchCalls(e: Engine, env: Env, wish: MotorWish)
    requires e.worker.phase == Switching(Some(wish))
    ensures var moved := Position(e, Track(e.worker.target.cylinder, wish.side), env);
      Calls(SwitchStep(e, env).world.log)
        == Calls(e.world.log) + (if moved.error.None? && env.call.None? then [Wished(wish)] else [])
  {
    var moved := Position(e, Track(e.worker.target.cylinder, wish.side), env);
    SwitchEnds(e, env, wish);
    FlatSilent(e.world.log, moved.e.world.log, CallOf);
    if moved.error.None? && env.call.None? {
      FlatPush(moved.e.world.log, MotorSet(wish), CallOf);
      FlatPush(moved.e.world.log + [MotorSet(wish)], Cleared, CallOf);
    } else {
      FlatSilent(moved.e.world.log, SwitchStep(e, env).world.log, CallOf);
    }
  }

  /** A wish in hand is applied exactly when neither a movement needed for its side nor
      the device's motor call fails. */
  lemma SwitchAppliesExactly(e: Engine, env: Env)
    requires e.worker.phase.Switching? && e.worker.phase.wish.Some?
    ensures var wish := e.worker.phase.wish.value;
      var track := Track(e.worker.target.cylinder, wish.side);
      Calls(SwitchStep(e, env).world.log)
        == Calls(e.world.log) + (if !MoveFails(e, track, env) && env.call.None? then [Wished(wish)] else [])
    ensures var wish, f := e.worker.phase.wish.value, SwitchStep(e, env);
      Calls(f.world.log) != Calls(e.world.log) ==>
        && f.shared.status.motorRunning == wish.enabled && f.worker.positioned
        && f.worker.physical == Track(e.worker.target.cylinder, wish.side)
  {
    var wish := e.worker.phase.wish.value;
    SwitchCalls(e, env, wish);
    PositionFailsExactly(e, Track(e.worker.target.cylinder, wish.side), env);
  }

  predicate SwitchesNow(phase: Phase) {
    phase.Switching? && phase.wish.Some?
  }

  lemma OtherCalls(e: Engine, env: Env)
    requires !e.worker.phase.Stopping? && !SwitchesNow(e.worker.phase)
    ensures Calls(Work(e, env).world.log) == Calls(e.world.log)
  {
    WorkFrame(e, env);
    if e.worker.phase.Steering? && e.worker.phase.moves.Some? {
      SteerEnds(e, env, e.worker.phase.moves.value);
    }
    FlatSilent(e.world.log, Work(e, env).world.log, CallOf);
  }

  lemma StopCalls(e: Engine)
    requires e.worker.phase.Stopping?
    ensures Calls(StopStep(e).world.log) == Calls(e.world.log) + [Final]
  {
    FlatPush(e.world.log, MotorOff, CallOf);
  }

  /** The calls of a worker that has not stopped, and then those of one that has. */
  predicate CallsEnd(calls: seq<MotorCall>, stopped: bool) {
    if stopped then calls != [] && Last(calls) == Some(Final) && Final !in calls[..|calls| - 1]
    else Final !in calls
  }

  lemma CallsGrow(calls: seq<MotorCall>, more: seq<MotorCall>)
    requires CallsEnd(calls, false)
    requires more == [] || (|more| == 1 && more[0] != Final)
    ensures CallsEnd(calls + more, false)
    ensures CallsEnd(calls + [Final], true)
  {
    assert (calls + [Final])[..|calls|] == calls;
  }

  lemma StopStopsMotor(e: Engine)
    requires StopsTheMotor(e) && e.worker.phase.Stopping?
    ensures StopsTheMotor(StopStep(e))
  {
    StopCalls(e);
    CallsGrow(Calls(e.world.log), []);
  }

  lemma SwitchStopsMotor(e: Engine, env: Env)
    requires StopsTheMotor(e) && SwitchesNow(e.worker.phase)
    ensures StopsTheMotor(SwitchStep(e, env))
  {
    var wish := e.worker.phase.wish.value;
    var moved := Position(e, Track(e.worker.target.cylinder, wish.side), env);
    SwitchEnds(e, env, wish);
    SwitchAppliesExactly(e, env);
    CallsGrow(Calls(e.world.log), if moved.error.None? && env.call.None? then [Wished(wish)] else []);
  }

  lemma SameCalls(e: Engine, f: Engine)
    requires StopsTheMotor(e) && Calls(f.world.log) == Calls(e.world.log)
    requires f.worker.phase.Stopped? == e.worker.phase.Stopped?
    ensures StopsTheMotor(f)
  {
  }

  lemma OtherStopsMotor(e: Engine, env: Env)
    requires StopsTheMotor(e) && !e.worker.phase.Stopping? && !SwitchesNow(e.worker.phase)
    ensures StopsTheMotor(Work(e, env))
  {
    WorkStopsFrom(e, env);
    OtherCalls(e, env);
    SameCalls(e, Work(e, env));
  }

  lemma LastStopsMotor(e: Engine, env: Env)
    requires StopsTheMotor(e) && e.worker.phase.Stopping?
    ensures StopsTheMotor(Work(e, env))
  {
    assert Work(e, env) == StopStep(e);
    StopStopsMotor(e);
  }

  lemma WishStopsMotor(e: Engine, env: Env)
    requires StopsTheMotor(e) && SwitchesNow(e.worker.phase)
    ensures StopsTheMotor(Work(e, env))
  {
    assert Work(e, env) == SwitchStep(e, env);
    SwitchStopsMotor(e, env);
  }

  lemma WorkStopsMotor(e: Engine, env: Env)
    requires StopsTheMotor(e)
    ensures StopsTheMotor(Work(e, env))
  {
    if e.worker.phase.Stopping? {
      LastStopsMotor(e, env);
    } else if SwitchesNow(e.worker.phase) {
      WishStopsMotor(e, env);
    } else {
      OtherStopsMotor(e, env);
    }
  }

  lemma ConsumeCalls(s: State, ask: Ask)
    ensures Calls(Consume(s, ask).engine.world.log) == Calls(s.engine.world.log)
  {
    ConsumeFrame(s, ask);
    FlatSilent(s.engine.world.log, Consume(s, ask).engine.world.log, CallOf);
  }

  /** In every run, a worker that has stopped, cleanly or by failing, has asked for the
      motor to be switched off, as its last motor call; what the device answered to it
      nobody looks at. */
  lemma {:induction false} StoppedIsOff(status: Status, head: Track, max: nat, steps: seq<Step>)
    ensures StopsTheMotor(Run(Begin(status, head, max), steps).engine)
  {
    if steps != [] {
      var front := steps[..|steps| - 1];
      StoppedIsOff(status, head, max, front);
      var s := Run(Begin(status, head, max), front);
      match steps[|steps| - 1]
      case WorkerStep(env) => WorkStopsMotor(s.engine, env);
      case ConsumerStep(ask) =>
        ConsumeCalls(s, ask);
        ConsumeFrame(s, ask);
    }
  }

  // ----- losing a motor wish -----

  lemma WorkWithoutWish(e: Engine, env: Env)
    requires PendingMotor(e).None?
    ensures PendingMotor(Work(e, env)).None?
  {
    if e.worker.phase.Steering? && e.worker.phase.moves.Some? {
      SteerEnds(e, env, e.worker.phase.moves.value);
    } else if !e.worker.phase.Wishing? && !e.worker.phase.Switching? {
      WorkFrame(e, env);
    }
  }

  /** What stopping adds to the motor calls. */
  function LastCall(before: Phase, after: Phase): seq<MotorCall> {
    if after.Stopped? && !before.Stopped? then [Final] else []
  }

  lemma NoWishWork(e: Engine, env: Env)
    requires PendingMotor(e).None?
    ensures PendingMotor(Work(e, env)).None?
    ensures e.worker.phase.Stopped? ==> Work(e, env).worker.phase.Stopped?
    ensures Calls(Work(e, env).world.log) == Calls(e.world.log) + LastCall(e.worker.phase, Work(e, env).worker.phase)
  {
    WorkWithoutWish(e, env);
    WorkStopsFrom(e, env);
    if e.worker.phase.Stopping? {
      StopCalls(e);
    } else {
      OtherCalls(e, env);
    }
  }

  lemma NoWishConsume(s: State, ask: Ask)
    requires PendingMotor(s.engine).None? && !ask.SetMotor?
    ensures var f := Consume(s, ask).engine;
      PendingMotor(f).None? && f.worker.phase == s.engine.worker.phase && Calls(f.world.log) == Calls(s.engine.world.log)
  {
    ConsumeFrame(s, ask);
    ConsumeCalls(s, ask);
  }

  /** With no wish pending, the motor is touched only to switch it off at the end,
      until it is wished for anew. */
  lemma {:induction false} NoWishNoMotor(s: State, steps: seq<Step>)
    requires PendingMotor(s.engine).None?
    requires forall step :: step in steps && step.ConsumerStep? ==> !step.ask.SetMotor?
    ensures PendingMotor(Run(s, steps).engine).None?
    ensures s.engine.worker.phase.Stopped? ==> Run(s, steps).engine.worker.phase.Stopped?
    ensures Calls(Run(s, steps).engine.world.log)
         == Calls(s.engine.world.log) + LastCall(s.engine.worker.phase, Run(s, steps).engine.worker.phase)
  {
    if steps != [] {
      var front := steps[..|steps| - 1];
      NoWishNoMotor(s, front);
      var t := Run(s, front);
      match steps[|steps| - 1]
      case WorkerStep(env) => NoWishWork(t.engine, env);
      case ConsumerStep(ask) =>
        assert steps[|steps| - 1] in steps;
        NoWishConsume(t, ask);
    }
  }

  lemma WishThenSlip(status: Status, head: Track, max: nat, wish: MotorWish) returns (steps: seq<Step>)
    ensures var e := Run(Begin(status, head, max), steps).engine;
      AboutToSlip(e, ClampTrack(HOME, max)) && e.world.log == [Switched(wish)] + [Aimed(ClampTrack(HOME, max), false)]
  {
    var s := Begin(status, head, max);
    steps := [];
    OneMore(s, steps, ConsumerStep(SetMotor(wish.side, wish.enabled)));
    steps := steps + [ConsumerStep(SetMotor(wish.side, wish.enabled))];
    OneMore(s, steps, ConsumerStep(Seek(HOME)));
    steps := steps + [ConsumerStep(Seek(HOME))];
  }

  /** One passing error of the seek in the same pass loses a motor wish for good:
      the worker lives on, and however it runs, the motor is not touched again but
      to switch it off at the end. */
  lemma MotorWishIsLost(status: Status, head: Track, max: nat, wish: MotorWish, later: seq<Step>) returns (steps: seq<Step>)
    requires forall step :: step in later && step.ConsumerStep? ==> !step.ask.SetMotor?
    ensures var s := Run(Begin(status, head, max), steps);
      && !s.engine.worker.failed
      && Last(Flat(s.engine.world.log, WishOf)) == Some(wish)
      && Calls(Run(s, later).engine.world.log) == LastCall(Polling, Run(s, later).engine.worker.phase)
  {
    var s := Begin(status, head, max);
    steps := WishThenSlip(status, head, max, wish);
    Slips(Run(s, steps).engine, ClampTrack(HOME, max));
    steps := ThreeSlips(s, steps, ClampTrack(HOME, max));
    var log := Run(s, steps).engine.world.log;
    FlatOne(Switched(wish), WishOf);
    FlatSilent([Switched(wish)], log, WishOf);
    FlatSilent([], log, CallOf);
    NoWishNoMotor(Run(s, steps), later);
  }
}
