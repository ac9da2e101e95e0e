/** What a consumer sees of a capture under way: the last publication, which outlives
    a reading that failed and then goes stale with the next write or change of disk. */
module PartialSafety {
  import opened Common
  import opened Controller
  import opened ControllerFrames
  import opened HeadSafety
  import GreaseweazleReads

  // ----- what is served -----

  function LastPublished(log: seq<Act>): Option<Partial> {
    if log == [] then None
    else if log[|log| - 1].Published? then Some(log[|log| - 1].partial)
    else LastPublished(log[..|log| - 1])
  }

  /** What lies ready is the last publication, until a finished capture withdraws it. */
  predicate ShelfTrue(e: Engine) {
    e.shared.partial.Some? ==> e.shared.partial == LastPublished(e.world.log)
  }

  /** Every partial ever served was the last publication at that moment. */
  ghost predicate GlimpsesTrue(log: seq<Act>) {
    forall j :: 0 <= j < |log| && log[j].Glimpsed? ==> LastPublished(log[..j]) == Some(log[j].partial)
  }

  lemma {:induction false} PublishedBefore(before: seq<Act>, after: seq<Act>)
    requires before <= after && forall i :: |before| <= i < |after| ==> !after[i].Published?
    ensures LastPublished(after) == LastPublished(before)
    decreases |after|
  {
    if |after| == |before| {
      assert after == before;
    } else {
      PublishedBefore(before, after[..|after| - 1]);
    }
  }

  lemma GlimpsesGrow(before: seq<Act>, after: seq<Act>)
    requires GlimpsesTrue(before) && before <= after
    requires forall i :: |before| <= i < |after| ==>
        after[i].Glimpsed? ==> LastPublished(after[..i]) == Some(after[i].partial)
    ensures GlimpsesTrue(after)
  {
    forall j | 0 <= j < |after| && after[j].Glimpsed?
      ensures LastPublished(after[..j]) == Some(after[j].partial)
    {
      if j < |before| {
        assert before[j] == after[j] && before[..j] == after[..j];
      }
    }
  }

  lemma ShelfKept(e: Engine, f: Engine)
    requires ShelfTrue(e) && Shelved(e, f) && e.world.log <= f.world.log
    ensures ShelfTrue(f)
  {
    PublishedBefore(e.world.log, f.world.log);
  }

  lemma ReadShelf(e: Engine, env: Env)
    requires ShelfTrue(e) && e.worker.phase.Reading?
    ensures ShelfTrue(ReadStep(e, env))
  {
    if env.read.Publishing? {
      var log := ReadStep(e, env).world.log;
      assert log[|log| - 1].Published?;
    } else {
      ReadFrame(e, env);
      NothingPublished(e, env);
      ShelfKept(e, ReadStep(e, env));
    }
  }

  lemma NothingPublished(e: Engine, env: Env)
    requires e.worker.phase.Reading? && !env.read.Publishing?
    ensures Shelved(e, ReadStep(e, env))
  {
    var given := Logged(e, Abandoned(e.worker.phase.track));
    match env.read
    case ReadFailed(error) =>
      if !error.Timeout? {
        NoteErrorFrame(given, error, Draining);
      }
    case Captured(raw) =>
      if GreaseweazleReads.Validated(raw).Err? {
        NoteErrorFrame(given, GreaseweazleReads.Validated(raw).error, Draining);
      }
  }

  lemma WorkShelf(e: Engine, env: Env)
    requires ShelfTrue(e)
    ensures ShelfTrue(Work(e, env))
  {
    if e.worker.phase.Reading? {
      ReadShelf(e, env);
    } else if !e.worker.phase.Withdrawing? {
      WorkFrame(e, env);
      ShelfKept(e, Work(e, env));
    }
  }

  lemma WorkGlimpses(e: Engine, env: Env)
    requires GlimpsesTrue(e.world.log)
    ensures GlimpsesTrue(Work(e, env).world.log)
  {
    WorkFrame(e, env);
    GlimpsesGrow(e.world.log, Work(e, env).world.log);
  }

  lemma ConsumeShelf(s: State, ask: Ask)
    requires ShelfTrue(s.engine) && GlimpsesTrue(s.engine.world.log)
    ensures ShelfTrue(Consume(s, ask).engine) && GlimpsesTrue(Consume(s, ask).engine.world.log)
  {
    var log, after := s.engine.world.log, Consume(s, ask).engine.world.log;
    ConsumeFrame(s, ask);
    ShelfKept(s.engine, Consume(s, ask).engine);
    if |after| > |log| {
      assert after[..|log|] == log;
    }
    GlimpsesGrow(log, after);
  }

  /** Over every run, a consumer is only ever served the last publication. */
  lemma {:induction false} GlimpsesAreTheLast(status: Status, head: Track, max: nat, steps: seq<Step>)
    ensures var e := Run(Begin(status, head, max), steps).engine; ShelfTrue(e) && GlimpsesTrue(e.world.log)
  {
    if steps != [] {
      var front := steps[..|steps| - 1];
      GlimpsesAreTheLast(status, head, max, front);
      var s := Run(Begin(status, head, max), front);
      match steps[|steps| - 1]
      case WorkerStep(env) =>
        WorkShelf(s.engine, env);
        WorkGlimpses(s.engine, env);
      case ConsumerStep(ask) => ConsumeShelf(s, ask);
    }
  }

  // ----- when it is fresh -----

  predicate Disturbs(a: Act, track: Track) {
    (a.Wrote? && a.request.track == track) || a.Saw?
  }

  /** The track has been disturbed since the last publication. */
  predicate Stale(log: seq<Act>, track: Track) {
    log != [] &&
    var front, last := log[..|log| - 1], log[|log| - 1];
    !last.Published? && (Disturbs(last, track) || Stale(front, track))
  }

  /** A reading of the track has ended without a capture since the last publication. */
  predicate GivenUp(log: seq<Act>, track: Track) {
    log != [] &&
    var front, last := log[..|log| - 1], log[|log| - 1];
    !last.Published? && (last == Abandoned(track) || GivenUp(front, track))
  }

  /** Since the last publication a reading of the track was given up, and after that
      the track was disturbed. */
  predicate DisturbedSinceGivenUp(log: seq<Act>, track: Track) {
    log != [] &&
    var front, last := log[..|log| - 1], log[|log| - 1];
    !last.Published? && ((Disturbs(last, track) && GivenUp(front, track)) || DisturbedSinceGivenUp(front, track))
  }

  /** The worker is at a reading of the track. */
  predicate ReadingOf(phase: Phase, track: Track) {
    (phase.Reading? || phase.Withdrawing?) && phase.track == track
  }

  /** What lies ready is of a reading still under way, or of one that was given up,
      and nothing disturbed its track before that; a finished capture leaves nothing. */
  predicate ShelfInOrder(e: Engine) {
    && (e.worker.phase.Inserting? ==> e.shared.partial.None?)
    && (e.shared.partial.Some? ==>
          var track := e.shared.partial.value.track;
          && (GivenUp(e.world.log, track) || ReadingOf(e.worker.phase, track))
          && (Stale(e.world.log, track) ==> DisturbedSinceGivenUp(e.world.log, track)))
  }

  lemma {:induction false} DisturbedIsStale(log: seq<Act>, track: Track)
    ensures DisturbedSinceGivenUp(log, track) ==> GivenUp(log, track) && Stale(log, track)
  {
    if log != [] {
      DisturbedIsStale(log[..|log| - 1], track);
    }
  }

  /** Without a new publication, what is given up remains so, and as long as the track
      is not disturbed before, whatever goes stale does so afterwards. */
  lemma {:induction false} OrderKept(before: seq<Act>, after: seq<Act>, track: Track)
    requires before <= after && forall i :: |before| <= i < |after| ==> !after[i].Published?
    requires GivenUp(before, track) || forall i :: |before| <= i < |after| ==> !Disturbs(after[i], track)
    requires Stale(before, track) ==> DisturbedSinceGivenUp(before, track)
    ensures GivenUp(before, track) ==> GivenUp(after, track)
    ensures Stale(after, track) ==> DisturbedSinceGivenUp(after, track)
    decreases |after|
  {
    if |after| == |before| {
      assert after == before;
    } else {
      OrderKept(before, after[..|after| - 1], track);
    }
  }

  lemma {:induction false} GivenUpAt(before: seq<Act>, after: seq<Act>, track: Track, i: nat)
    requires before <= after && |before| <= i < |after| && after[i] == Abandoned(track)
    requires forall k :: |before| <= k < |after| ==> !after[k].Published?
    ensures GivenUp(after, track)
    decreases |after|
  {
    if i < |after| - 1 {
      GivenUpAt(before, after[..|after| - 1], track, i);
    }
  }

  /** How a reading that publishes nothing more ends, or goes on to its capture. */
  lemma ReadingEnds(e: Engine, env: Env)
    requires e.worker.phase.Reading? && !env.read.Publishing?
    ensures var f := ReadStep(e, env);
      && Shelved(e, f) && e.world.log <= f.world.log
      && (forall i, track :: |e.world.log| <= i < |f.world.log| ==> !Disturbs(f.world.log[i], track))
      && !f.worker.phase.Inserting?
      && (ReadingOf(f.worker.phase, e.worker.phase.track)
          || (|f.world.log| > |e.world.log| && f.world.log[|e.world.log|] == Abandoned(e.worker.phase.track)))
  {
    ReadFrame(e, env);
    NothingPublished(e, env);
  }

  lemma ReadInOrder(e: Engine, env: Env)
    requires ShelfInOrder(e) && e.worker.phase.Reading?
    ensures ShelfInOrder(ReadStep(e, env))
  {
    var f := ReadStep(e, env);
    if env.read.Publishing? {
      assert f.world.log[|f.world.log| - 1].Published?;
    } else {
      ReadingEnds(e, env);
      if e.shared.partial.Some? {
        var track := e.shared.partial.value.track;
        OrderKept(e.world.log, f.world.log, track);
        if !ReadingOf(f.worker.phase, track) && !GivenUp(e.world.log, track) {
          GivenUpAt(e.world.log, f.world.log, track, |e.world.log|);
        }
      }
    }
  }

  /** Only a withdrawn capture is inserted. */
  lemma InsertsFrom(e: Engine, env: Env)
    requires Work(e, env).worker.phase.Inserting?
    ensures e.worker.phase.Withdrawing? || e.worker.phase.Inserting?
  {
    if QuietPhase(e.worker.phase) {
      WorkIsQuiet(e, env);
    } else {
      match e.worker.phase
      case Draining =>
        if e.shared.commands != [] && e.shared.commands[0].NoClick? {
          ClickFrame(e.(shared := e.shared.(commands := e.shared.commands[1..])), e.shared.commands[0].side, env);
        }
      case Reading(_) => ReadFrame(e, env);
      case Polling => PollFrame(e, env);
      case _ =>
    }
  }

  lemma WorkInOrder(e: Engine, env: Env)
    requires ShelfInOrder(e)
    ensures ShelfInOrder(Work(e, env))
  {
    if e.worker.phase.Reading? {
      ReadInOrder(e, env);
    } else if !e.worker.phase.Withdrawing? {
      var f := Work(e, env);
      WorkFrame(e, env);
      if f.worker.phase.Inserting? {
        InsertsFrom(e, env);
      }
      if e.shared.partial.Some? {
        OrderKept(e.world.log, f.world.log, e.shared.partial.value.track);
      }
    }
  }

  lemma ConsumeInOrder(s: State, ask: Ask)
    requires ShelfInOrder(s.engine)
    ensures ShelfInOrder(Consume(s, ask).engine)
  {
    ConsumeFrame(s, ask);
    if s.engine.shared.partial.Some? {
      OrderKept(s.engine.world.log, Consume(s, ask).engine.world.log, s.engine.shared.partial.value.track);
    }
  }

  /** Over every run: between a publication and the end of its reading the track is
      not written and no change of disk is seen, and a finished capture withdraws what
      was published of it. */
  lemma {:induction false} PartialsAreInOrder(status: Status, head: Track, max: nat, steps: seq<Step>)
    ensures ShelfInOrder(Run(Begin(status, head, max), steps).engine)
  {
    if steps != [] {
      var front := steps[..|steps| - 1];
      PartialsAreInOrder(status, head, max, front);
      var s := Run(Begin(status, head, max), front);
      match steps[|steps| - 1]
      case WorkerStep(env) => WorkInOrder(s.engine, env);
      case ConsumerStep(ask) => ConsumeInOrder(s, ask);
    }
  }

  /** Every partial ever served that was stale had its reading given up first. */
  ghost predicate GlimpsesInOrder(log: seq<Act>) {
    forall j :: 0 <= j < |log| && log[j].Glimpsed? && Stale(log[..j], log[j].partial.track) ==>
      DisturbedSinceGivenUp(log[..j], log[j].partial.track)
  }

  lemma GlimpsesInOrderGrow(before: seq<Act>, after: seq<Act>)
    requires GlimpsesInOrder(before) && before <= after
    requires forall i :: |before| <= i < |after| && after[i].Glimpsed? && Stale(after[..i], after[i].partial.track) ==>
        DisturbedSinceGivenUp(after[..i], after[i].partial.track)
    ensures GlimpsesInOrder(after)
  {
    forall j | 0 <= j < |after| && after[j].Glimpsed? && Stale(after[..j], after[j].partial.track)
      ensures DisturbedSinceGivenUp(after[..j], after[j].partial.track)
    {
      if j < |before| {
        assert before[j] == after[j] && before[..j] == after[..j];
      }
    }
  }

  lemma ConsumeGlimpsesInOrder(s: State, ask: Ask)
    requires ShelfInOrder(s.engine) && GlimpsesInOrder(s.engine.world.log)
    ensures GlimpsesInOrder(Consume(s, ask).engine.world.log)
  {
    var log, after := s.engine.world.log, Consume(s, ask).engine.world.log;
    ConsumeFrame(s, ask);
    if |after| > |log| {
      assert after[..|log|] == log;
    }
    GlimpsesInOrderGrow(log, after);
  }

  lemma {:induction false} GlimpsesAreInOrder(status: Status, head: Track, max: nat, steps: seq<Step>)
    ensures GlimpsesInOrder(Run(Begin(status, head, max), steps).engine.world.log)
  {
    if steps != [] {
      var front := steps[..|steps| - 1];
      GlimpsesAreInOrder(status, head, max, front);
      var s := Run(Begin(status, head, max), front);
      match steps[|steps| - 1]
      case WorkerStep(env) =>
        WorkFrame(s.engine, env);
        GlimpsesInOrderGrow(s.engine.world.log, Work(s.engine, env).world.log);
      case ConsumerStep(ask) =>
        PartialsAreInOrder(status, head, max, front);
        ConsumeGlimpsesInOrder(s, ask);
    }
  }

  /** Over every run, a partial a consumer is served is stale exactly when its reading
      was given up and its track disturbed after that; so what the reading still under
      way has published is never stale. */
  lemma PartialsAreFreshExactly(status: Status, head: Track, max: nat, steps: seq<Step>, j: nat)
    requires var log := Run(Begin(status, head, max), steps).engine.world.log; j < |log| && log[j].Glimpsed?
    ensures var log := Run(Begin(status, head, max), steps).engine.world.log;
      var partial := log[j].partial;
      && LastPublished(log[..j]) == Some(partial)
      && (Stale(log[..j], partial.track) <==> DisturbedSinceGivenUp(log[..j], partial.track))
      && (!GivenUp(log[..j], partial.track) ==> !Stale(log[..j], partial.track))
  {
    var log := Run(Begin(status, head, max), steps).engine.world.log;
    GlimpsesAreTheLast(status, head, max, steps);
    GlimpsesAreInOrder(status, head, max, steps);
    DisturbedIsStale(log[..j], log[j].partial.track);
  }

  // ----- a stale partial -----

  lemma {:induction false} DisturbedBy(before: seq<Act>, after: seq<Act>, track: Track, i: nat)
    requires before <= after && |before| <= i < |after| && Disturbs(after[i], track)
    requires forall k :: |before| <= k < |after| ==> !after[k].Published?
    ensures Stale(after, track)
    decreases |after|
  {
    if i < |after| - 1 {
      DisturbedBy(before, after[..|after| - 1], track, i);
    }
  }

  const PIECE := Partial(HOME, [0], 16)

  const PUBLISHING := Env(Done, Done, None, false, PollFailed(Timeout), Publishing([0], 16), HOME)

  /** A drive that can be read, with nothing queued, cached or posted. */
  predicate Readable(e: Engine) {
    && e.shared.commands == [] && e.shared.events == [] && e.shared.captures == map[]
    && e.shared.status.working && e.shared.status.motorRunning && e.shared.status.diskPresent
    && !e.shared.status.writeProtected
  }

  predicate Wanted(e: Engine) {
    e.worker.target == HOME && e.worker.wanted == Some(HOME)
  }

  lemma TakesUpHome(e: Engine)
    requires e.worker.phase.Draining? && Readable(e) && e.shared.desired == Desired(None, Some(HOME), Some(HOME))
    ensures var f := Works(e, OBEDIENT, 2);
      f.worker.phase == Steering(Some(HOME), None) && Wanted(f) && Readable(f)
  {
    var a := Work(e, OBEDIENT);
    assert a == At(e, Wishing);
    assert Works(a, OBEDIENT, 1) == Work(a, OBEDIENT);
  }

  lemma SteersHome(e: Engine)
    requires e.worker.phase == Steering(Some(HOME), None) && Wanted(e) && Readable(e)
    ensures var f := Works(e, OBEDIENT, 2); f.worker.phase.Polling? && Wanted(f) && Readable(f)
  {
    var a := Work(e, OBEDIENT);
    assert a.worker.phase == Switching(None) && Wanted(a) && Readable(a);
    assert Works(a, OBEDIENT, 1) == Work(a, OBEDIENT) == At(a, Polling);
  }

  lemma ChoosesHome(e: Engine)
    requires e.worker.phase.Polling? && Wanted(e) && Readable(e)
    ensures var f := Works(e, OBEDIENT, 2); f.worker.phase == Approaching(HOME) && Readable(f)
  {
    var a := Work(e, OBEDIENT);
    assert a == At(e, Choosing);
    assert Works(a, OBEDIENT, 1) == Work(a, OBEDIENT);
  }

  lemma ApproachesHome(e: Engine)
    requires e.worker.phase == Approaching(HOME) && Readable(e)
    ensures var f := Works(e, OBEDIENT, 1); f.worker.phase == Reading(HOME) && Readable(f)
  {
    var f := Work(e, OBEDIENT);
    assert f.worker.phase == Reading(HOME) && Readable(f);
    assert Works(e, OBEDIENT, 1) == Works(f, OBEDIENT, 0) == f;
  }

  /** A piece of the track is published, and then the reading times out. */
  lemma PublishesAndFails(e: Engine)
    requires e.worker.phase == Reading(HOME) && Readable(e)
    ensures var f := Work(Work(e, PUBLISHING), OBEDIENT);
      && f.worker.phase.Draining? && Readable(f)
      && f.shared.partial == Some(PIECE) && f.world.log == e.world.log + [Published(PIECE)] + [Abandoned(HOME)]
  {
    var a := Work(e, PUBLISHING);
    assert a.worker.phase == Reading(HOME) && Readable(a) && a.world.log == e.world.log + [Published(PIECE)];
    assert Work(a, OBEDIENT) == At(Logged(a, Abandoned(HOME)), Draining);
  }

  lemma HomeIsRead(s: State, steps: seq<Step>) returns (longer: seq<Step>)
    requires var e := Run(s, steps).engine;
      e.worker.phase.Draining? && Readable(e) && e.shared.desired == Desired(None, Some(HOME), Some(HOME))
    ensures var f := Run(s, longer).engine; f.worker.phase == Reading(HOME) && Readable(f)
    ensures Run(s, longer).bridge == Run(s, steps).bridge
  {
    TakesUpHome(Run(s, steps).engine);
    longer := MoreWorks(s, steps, Run(s, steps), OBEDIENT, 2);
    SteersHome(Run(s, longer).engine);
    longer := MoreWorks(s, longer, Run(s, longer), OBEDIENT, 2);
    ChoosesHome(Run(s, longer).engine);
    longer := MoreWorks(s, longer, Run(s, longer), OBEDIENT, 2);
    ApproachesHome(Run(s, longer).engine);
    longer := MoreWorks(s, longer, Run(s, longer), OBEDIENT, 1);
  }

  /** A capture that publishes a piece of the home track and fails. */
  lemma PieceIsLeft(status: Status, head: Track, max: nat) returns (steps: seq<Step>)
    requires status.working && status.motorRunning && status.diskPresent && !status.writeProtected
    ensures var t := Run(Begin(status, head, max), steps);
      && t.engine.worker.phase.Draining? && Readable(t.engine) && t.engine.shared.partial == Some(PIECE)
      && t.bridge == Controller.Bridge.Bridge(1, max, None, false)
      && t.engine.world.log != [] && t.engine.world.log[|t.engine.world.log| - 1] == Abandoned(HOME)
  {
    var s := Begin(status, head, max);
    OneMore(s, [], ConsumerStep(Demand(HOME)));
    steps := HomeIsRead(s, [] + [ConsumerStep(Demand(HOME))]);
    PublishesAndFails(Run(s, steps).engine);
    OneWork(s, steps, PUBLISHING);
    steps := steps + [WorkerStep(PUBLISHING)];
    OneWork(s, steps, OBEDIENT);
    steps := steps + [WorkerStep(OBEDIENT)];
  }

  lemma HearsAndGlimpses(t: State)
    requires !t.bridge.dropped && t.engine.shared.events == [WriteCompleted(1, HOME, 16)]
    requires t.engine.shared.partial == Some(PIECE)
    ensures Consume(Consume(t, PollEvent), Glance(HOME)).engine.world.log
         == t.engine.world.log + [Seen(1, HOME)] + [Glimpsed(PIECE)]
  {
    assert Consume(t, PollEvent).engine.shared.partial == Some(PIECE);
    assert ClampTrack(HOME, t.bridge.maxCylinders) == HOME;
  }

  /** A capture publishes a piece of a track and fails; the track is written; and the
      consumer, having heard of the write, is still served the piece. */
  lemma StalePartialIsServed(status: Status, head: Track, max: nat) returns (steps: seq<Step>)
    requires status.working && status.motorRunning && status.diskPresent && !status.writeProtected
    ensures var log := Run(Begin(status, head, max), steps).engine.world.log;
      && |log| >= 2 && log[|log| - 2] == Seen(1, HOME) && log[|log| - 1] == Glimpsed(PIECE)
      && Stale(log[..|log| - 1], HOME)
  {
    var s := Begin(status, head, max);
    steps := PieceIsLeft(status, head, max);
    steps := SubmitHome(s, steps);
    var e := Run(s, steps).engine;
    steps := HomeIsWritten(s, steps, 1);
    var t := Run(s, steps);
    HearsAndGlimpses(t);
    OneMore(s, steps, ConsumerStep(PollEvent));
    steps := steps + [ConsumerStep(PollEvent)];
    OneMore(s, steps, ConsumerStep(Glance(HOME)));
    steps := steps + [ConsumerStep(Glance(HOME))];
    StaleAfter(e.world.log, t.engine.world.log, t.engine.world.head);
    assert (t.engine.world.log + [Seen(1, HOME)] + [Glimpsed(PIECE)])[..|t.engine.world.log| + 1]
        == t.engine.world.log + [Seen(1, HOME)];
  }

  lemma StaleAfter(before: seq<Act>, after: seq<Act>, head: Track)
    requires before <= after && Wrote(1, HOME_WRITE, true, head, None) in after[|before|..]
    requires forall k :: |before| <= k < |after| ==> !after[k].Published?
    ensures Stale(after + [Seen(1, HOME)], HOME)
  {
    var i :| 0 <= i < |after| - |before| && after[|before|..][i] == Wrote(1, HOME_WRITE, true, head, None);
    var longer := after + [Seen(1, HOME)];
    assert longer[|before| + i] == Wrote(1, HOME_WRITE, true, head, None);
    DisturbedBy(before, longer, HOME, |before| + i);
  }
}
