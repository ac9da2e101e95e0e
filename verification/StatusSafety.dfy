/** What the snapshot says of the disk: what the device reported last; and that no change
    of disk between two reports goes unnoticed. */
module StatusSafety {
  import opened Common
  import opened Controller
  import opened ControllerFrames
  import opened HeadSafety
  import GreaseweazleReads

  /** The last report of the device, or what was known before any. */
  function LastReport(log: seq<Act>, initial: Status): Status {
    if log == [] then initial
    else if log[|log| - 1].Reported? then log[|log| - 1].status
    else LastReport(log[..|log| - 1], initial)
  }

  /** Whether the motor runs, by the last report or the last call that set it. */
  function Spinning(log: seq<Act>, initial: Status): bool {
    if log == [] then initial.motorRunning
    else
      var last := log[|log| - 1];
      if last.Reported? then last.status.motorRunning
      else if last.MotorSet? then last.wish.enabled
      else Spinning(log[..|log| - 1], initial)
  }

  /** The two agree about the disk and the drive. */
  predicate SameDisk(a: Status, b: Status) {
    a.ready == b.ready && a.diskPresent == b.diskPresent && a.writeProtected == b.writeProtected
  }

  /** The snapshot is the last report, but for one the worker is about to store. */
  predicate Reports(e: Engine, initial: Status) {
    var last := LastReport(e.world.log, initial);
    match e.worker.phase
    case Clearing(news, _) => news == last && news.diskPresent != e.shared.status.diskPresent
    case Announcing(news, _) => news == last && news.diskPresent != e.shared.status.diskPresent
    case Storing(news) => news == last
    case _ => SameDisk(e.shared.status, last)
  }

  /** What is known of the motor is what was reported or done to it last. */
  predicate Turns(e: Engine, initial: Status) {
    (if Informed(e.worker.phase) then e.worker.phase.news else e.shared.status).motorRunning
    == Spinning(e.world.log, initial)
  }

  lemma {:induction false} ReportedBefore(before: seq<Act>, after: seq<Act>, initial: Status)
    requires before <= after && forall i :: |before| <= i < |after| ==> !after[i].Reported?
    ensures LastReport(after, initial) == LastReport(before, initial)
    ensures (forall i :: |before| <= i < |after| ==> !after[i].MotorSet?) ==>
        Spinning(after, initial) == Spinning(before, initial)
    decreases |after|
  {
    if |after| == |before| {
      assert after == before;
    } else {
      ReportedBefore(before, after[..|after| - 1], initial);
    }
  }

  /** The phases in which a report is in the worker's hand. */
  predicate Informed(phase: Phase) {
    phase.Clearing? || phase.Announcing? || phase.Storing?
  }

  /** A step that reports nothing and says nothing of the disk. */
  predicate Speechless(e: Engine, f: Engine) {
    && e.world.log <= f.world.log
    && (forall i :: |e.world.log| <= i < |f.world.log| ==> !f.world.log[i].Reported? && !f.world.log[i].Saw?)
    && SameDisk(f.shared.status, e.shared.status) && !Informed(f.worker.phase)
  }

  /** Nor sets the motor. */
  predicate Uninformed(e: Engine, f: Engine) {
    && Speechless(e, f)
    && (forall i :: |e.world.log| <= i < |f.world.log| ==> !f.world.log[i].MotorSet?)
    && f.shared.status.motorRunning == e.shared.status.motorRunning
  }

  lemma NoteErrorSays(e: Engine, error: Error, next: Phase)
    requires !Informed(next)
    ensures Uninformed(e, NoteError(e, error, next))
  {
    var log := NoteError(e, error, next).world.log;
    assert log == e.world.log + [Noted(error)] || log == e.world.log + [Noted(error)] + [Gone(error)];
  }

  lemma PositionSays(e: Engine, track: Track, env: Env)
    requires !Informed(e.worker.phase)
    ensures Uninformed(e, Position(e, track, env).e)
  {
  }

  lemma TwiceUninformed(e: Engine, f: Engine, g: Engine)
    requires Uninformed(e, f) && Uninformed(f, g)
    ensures Uninformed(e, g)
  {
  }

  lemma DrainSays(e: Engine, env: Env)
    requires e.worker.phase.Draining?
    ensures Uninformed(e, DrainStep(e, env))
  {
    if e.shared.commands != [] && e.shared.commands[0].NoClick? {
      var side := e.shared.commands[0].side;
      var taken := e.(shared := e.shared.(commands := e.shared.commands[1..]));
      match env.select
      case Failed(error, astray) => NoteErrorSays(Astray(taken, astray), error, Draining);
      case Done =>
        if env.call.Some? {
          NoteErrorSays(taken.(world := taken.world.(head := taken.world.head.(side := side))), env.call.value, Draining);
        }
    }
  }

  lemma PlaceSays(e: Engine, env: Env)
    requires e.worker.phase.Placing?
    ensures Uninformed(e, PlaceStep(e, env))
  {
    PositionSays(PlaceStart(e), e.worker.phase.request.track, env);
  }

  lemma SteerSays(e: Engine, env: Env)
    requires e.worker.phase.Steering?
    ensures Uninformed(e, SteerStep(e, env))
  {
    if e.worker.phase.moves.Some? {
      var moved := Position(e, e.worker.phase.moves.value, env);
      PositionSays(e, e.worker.phase.moves.value, env);
      if moved.error.Some? {
        NoteErrorSays(moved.e, moved.error.value, Polling);
        TwiceUninformed(e, moved.e, SteerStep(e, env));
      }
    }
  }

  lemma SwitchSays(e: Engine, env: Env)
    requires e.worker.phase.Switching?
    ensures Speechless(e, SwitchStep(e, env))
    ensures Uninformed(e, SwitchStep(e, env)) || Turned(e, SwitchStep(e, env))
  {
    match e.worker.phase.wish
    case None =>
    case Some(wish) => WishSays(e, env, wish);
  }

  /** The last thing done was to set the motor, and the snapshot says how. */
  predicate Turned(e: Engine, f: Engine) {
    var n := |f.world.log|;
    n >= 2 && f.world.log[n - 2].MotorSet? && f.world.log[n - 1].Cleared?
    && f.shared.status.motorRunning == f.world.log[n - 2].wish.enabled
  }

  lemma WishSays(e: Engine, env: Env, wish: MotorWish)
    requires e.worker.phase == Switching(Some(wish))
    ensures Speechless(e, SwitchStep(e, env))
    ensures Uninformed(e, SwitchStep(e, env)) || Turned(e, SwitchStep(e, env))
  {
    var track := Track(e.worker.target.cylinder, wish.side);
    var moved := Position(e, track, env);
    PositionSays(e, track, env);
    var error := if moved.error.Some? then moved.error else env.call;
    if error.Some? {
      NoteErrorSays(moved.e, error.value, Polling);
      TwiceUninformed(e, moved.e, SwitchStep(e, env));
    }
  }

  lemma SwitchTurns(e: Engine, env: Env, initial: Status)
    requires e.worker.phase.Switching? && Turns(e, initial)
    ensures Turns(SwitchStep(e, env), initial)
  {
    var f := SwitchStep(e, env);
    SwitchSays(e, env);
    if Uninformed(e, f) {
      ReportedBefore(e.world.log, f.world.log, initial);
    } else {
      SetLast(f.world.log, initial);
    }
  }

  lemma SetLast(log: seq<Act>, initial: Status)
    requires |log| >= 2 && log[|log| - 2].MotorSet? && log[|log| - 1].Cleared?
    ensures Spinning(log, initial) == log[|log| - 2].wish.enabled
  {
    var front := log[..|log| - 1];
    assert front[|front| - 1].MotorSet?;
  }

  lemma ApproachSays(e: Engine, env: Env)
    requires e.worker.phase.Approaching?
    ensures Uninformed(e, ApproachStep(e, env))
  {
    var moved := Position(e, e.worker.phase.track, env);
    PositionSays(e, e.worker.phase.track, env);
    if moved.error.Some? {
      NoteErrorSays(moved.e, moved.error.value, Draining);
      TwiceUninformed(e, moved.e, ApproachStep(e, env));
    }
  }

  lemma ReadSays(e: Engine, env: Env)
    requires e.worker.phase.Reading?
    ensures Uninformed(e, ReadStep(e, env))
  {
    var given := Logged(e, Abandoned(e.worker.phase.track));
    match env.read
    case ReadFailed(error) => NoteErrorSays(given, error, Draining);
    case Captured(raw) =>
      if GreaseweazleReads.Validated(raw).Err? {
        NoteErrorSays(given, GreaseweazleReads.Validated(raw).error, Draining);
      }
    case _ =>
  }

  lemma WritingSays(e: Engine, env: Env)
    requires e.worker.phase.Measuring? || e.worker.phase.Writing? || e.worker.phase.Evicting? || e.worker.phase.Reporting?
    ensures Uninformed(e, Work(e, env))
  {
  }

  lemma CachingSays(e: Engine, env: Env)
    requires e.worker.phase.Choosing? || e.worker.phase.Withdrawing? || e.worker.phase.Inserting?
    ensures Uninformed(e, Work(e, env))
  {
  }

  lemma RestSays(e: Engine, env: Env)
    requires e.worker.phase.Wishing? || e.worker.phase.Stopping? || e.worker.phase.Stopped?
    ensures Uninformed(e, Work(e, env))
  {
  }

  lemma PollReports(e: Engine, env: Env, initial: Status)
    requires e.worker.phase.Polling? && Reports(e, initial) && Turns(e, initial)
    ensures Reports(PollStep(e, env), initial) && Turns(PollStep(e, env), initial)
  {
    var f := PollStep(e, env);
    if env.due && env.poll.PollFailed? {
      NoteErrorSays(e, env.poll.error, Choosing);
      ReportedBefore(e.world.log, f.world.log, initial);
    } else if env.due {
      assert f.world.log[|f.world.log| - 1] == Reported(f.worker.phase.news);
    }
  }

  lemma StoreReports(e: Engine, initial: Status)
    requires Informed(e.worker.phase) && Reports(e, initial) && Turns(e, initial)
    ensures e.worker.phase.Clearing? ==> Reports(ClearStep(e), initial) && Turns(ClearStep(e), initial)
    ensures e.worker.phase.Announcing? ==> Reports(AnnounceStep(e), initial) && Turns(AnnounceStep(e), initial)
    ensures e.worker.phase.Storing? ==> Reports(StoreStep(e), initial) && Turns(StoreStep(e), initial)
  {
    if e.worker.phase.Storing? {
      ReportedBefore(e.world.log, StoreStep(e).world.log, initial);
    }
  }

  lemma SaysNothing(e: Engine, env: Env)
    requires !e.worker.phase.Polling? && !Informed(e.worker.phase)
    ensures Speechless(e, Work(e, env))
    ensures !e.worker.phase.Switching? ==> Uninformed(e, Work(e, env))
  {
    match e.worker.phase
    case Draining => DrainSays(e, env);
    case Placing(_, _) => PlaceSays(e, env);
    case Steering(_, _) => SteerSays(e, env);
    case Switching(_) => SwitchSays(e, env);
    case Approaching(_) => ApproachSays(e, env);
    case Reading(_) => ReadSays(e, env);
    case Wishing => RestSays(e, env);
    case Stopping => RestSays(e, env);
    case Stopped => RestSays(e, env);
    case Choosing => CachingSays(e, env);
    case Withdrawing(_, _) => CachingSays(e, env);
    case Inserting(_, _) => CachingSays(e, env);
    case _ => WritingSays(e, env);
  }

  lemma WorkReports(e: Engine, env: Env, initial: Status)
    requires Reports(e, initial) && Turns(e, initial)
    ensures Reports(Work(e, env), initial) && Turns(Work(e, env), initial)
  {
    if e.worker.phase.Polling? {
      PollReports(e, env, initial);
    } else if Informed(e.worker.phase) {
      StoreReports(e, initial);
    } else {
      SaysNothing(e, env);
      ReportedBefore(e.world.log, Work(e, env).world.log, initial);
      if e.worker.phase.Switching? {
        SwitchTurns(e, env, initial);
      }
    }
  }

  lemma ConsumeReports(s: State, ask: Ask, initial: Status)
    requires Reports(s.engine, initial) && Turns(s.engine, initial)
    ensures Reports(Consume(s, ask).engine, initial) && Turns(Consume(s, ask).engine, initial)
  {
    ConsumeFrame(s, ask);
    SnapshotStays(s, ask);
    ReportedBefore(s.engine.world.log, Consume(s, ask).engine.world.log, initial);
  }

  lemma SnapshotStays(s: State, ask: Ask)
    ensures Consume(s, ask).engine.shared.status == s.engine.shared.status
  {
  }

  /** Over every run, the snapshot says of the disk -- whether there is one, whether it
      can be written, whether the drive is ready -- what the device reported last, but
      for a report the worker is just about to store; and while it is announcing a
      change, that report does say otherwise. Of the motor it says what was reported, or
      done to it, last. */
  lemma {:induction false} SnapshotIsTheLastReport(status: Status, head: Track, max: nat, steps: seq<Step>)
    ensures Reports(Run(Begin(status, head, max), steps).engine, status)
    ensures Turns(Run(Begin(status, head, max), steps).engine, status)
  {
    if steps != [] {
      var front := steps[..|steps| - 1];
      SnapshotIsTheLastReport(status, head, max, front);
      var s := Run(Begin(status, head, max), front);
      match steps[|steps| - 1]
      case WorkerStep(env) => WorkReports(s.engine, env, status);
      case ConsumerStep(ask) => ConsumeReports(s, ask, status);
    }
  }

  // ----- no change goes unnoticed -----

  /** A report of another presence than the one before follows a sighting of it. */
  predicate ChangeIsSeen(log: seq<Act>, j: nat, initial: Status)
    requires j < |log| && log[j].Reported?
  {
    LastReport(log[..j], initial).diskPresent != log[j].status.diskPresent ==>
      j > 0 && log[j - 1].Saw? && log[j - 1].present == log[j].status.diskPresent
  }

  /** A sighting is of such a report, which follows. */
  predicate SightIsChange(log: seq<Act>, j: nat, initial: Status)
    requires j < |log| && log[j].Saw?
  {
    && LastReport(log[..j], initial).diskPresent != log[j].present
    && j + 1 < |log| && log[j + 1].Reported? && log[j + 1].status.diskPresent == log[j].present
  }

  ghost predicate Noticed(log: seq<Act>, initial: Status) {
    && (forall j: nat :: j < |log| && log[j].Reported? ==> ChangeIsSeen(log, j, initial))
    && (forall j: nat :: j < |log| && log[j].Saw? ==> SightIsChange(log, j, initial))
  }

  lemma NoticedLater(before: seq<Act>, after: seq<Act>, initial: Status)
    requires Noticed(before, initial) && before <= after
    requires forall i: nat :: |before| <= i < |after| && after[i].Reported? ==> ChangeIsSeen(after, i, initial)
    requires forall i: nat :: |before| <= i < |after| && after[i].Saw? ==> SightIsChange(after, i, initial)
    ensures Noticed(after, initial)
  {
    forall j: nat | j < |before| && before[j].Reported?
      ensures ChangeIsSeen(after, j, initial)
    {
      assert ChangeIsSeen(before, j, initial) && before[..j] == after[..j];
    }
    forall j: nat | j < |before| && before[j].Saw?
      ensures SightIsChange(after, j, initial)
    {
      assert SightIsChange(before, j, initial) && before[..j] == after[..j];
    }
  }

  lemma SameReported(log: seq<Act>, news: Status, initial: Status)
    requires Noticed(log, initial) && LastReport(log, initial).diskPresent == news.diskPresent
    ensures Noticed(log + [Reported(news)], initial)
  {
    assert (log + [Reported(news)])[..|log|] == log;
    NoticedLater(log, log + [Reported(news)], initial);
  }

  lemma ChangeReported(log: seq<Act>, sighting: nat, news: Status, initial: Status)
    requires Noticed(log, initial) && LastReport(log, initial).diskPresent != news.diskPresent
    ensures Noticed(log + [Saw(sighting, news.diskPresent)] + [Reported(news)], initial)
  {
    var n, after := |log|, log + [Saw(sighting, news.diskPresent)] + [Reported(news)];
    assert after[..n] == log && after[n] == Saw(sighting, news.diskPresent) && after[n + 1] == Reported(news);
    assert SightIsChange(after, n, initial);
    assert ChangeIsSeen(after, n + 1, initial);
    NoticedLater(log, after, initial);
  }

  lemma PollNotices(e: Engine, env: Env, initial: Status)
    requires e.worker.phase.Polling? && Reports(e, initial) && Noticed(e.world.log, initial)
    ensures Noticed(PollStep(e, env).world.log, initial)
  {
    if env.due {
      match env.poll
      case PollFailed(error) =>
        NoteErrorSays(e, error, Choosing);
        NoticedLater(e.world.log, PollStep(e, env).world.log, initial);
      case Polled(seen) =>
        var news := seen.(cylinder := e.worker.physical.cylinder, side := e.worker.physical.side);
        if e.shared.status.diskPresent == news.diskPresent {
          SameReported(e.world.log, news, initial);
        } else {
          ChangeReported(e.world.log, e.world.sightings, news, initial);
        }
    }
  }

  lemma WorkNotices(e: Engine, env: Env, initial: Status)
    requires Reports(e, initial) && Noticed(e.world.log, initial)
    ensures Noticed(Work(e, env).world.log, initial)
  {
    if e.worker.phase.Polling? {
      PollNotices(e, env, initial);
    } else {
      if !Informed(e.worker.phase) {
        SaysNothing(e, env);
      }
      NoticedLater(e.world.log, Work(e, env).world.log, initial);
    }
  }

  lemma ConsumeNotices(s: State, ask: Ask, initial: Status)
    requires Noticed(s.engine.world.log, initial)
    ensures Noticed(Consume(s, ask).engine.world.log, initial)
  {
    ConsumeFrame(s, ask);
    NoticedLater(s.engine.world.log, Consume(s, ask).engine.world.log, initial);
  }

  /** Over every run, a report of the device counts as a sighting of another disk exactly
      when it says otherwise of its presence than the report before. */
  lemma {:induction false} ChangesAreNoticed(status: Status, head: Track, max: nat, steps: seq<Step>)
    ensures Noticed(Run(Begin(status, head, max), steps).engine.world.log, status)
  {
    if steps != [] {
      var front := steps[..|steps| - 1];
      ChangesAreNoticed(status, head, max, front);
      SnapshotIsTheLastReport(status, head, max, front);
      var s := Run(Begin(status, head, max), front);
      match steps[|steps| - 1]
      case WorkerStep(env) => WorkNotices(s.engine, env, status);
      case ConsumerStep(ask) => ConsumeNotices(s, ask, status);
    }
  }

  // ----- where the head is said to be -----

  /** While the head is in use, the snapshot names the track it is used for. */
  predicate NamesTheTrack(e: Engine) {
    Aim(e.worker.phase).Some? ==>
      var track := Aim(e.worker.phase).value;
      && e.worker.positioned && e.worker.physical == track
      && e.shared.status.cylinder == track.cylinder && e.shared.status.side == track.side
  }

  lemma PositionNames(e: Engine, track: Track, env: Env)
    ensures var moved := Position(e, track, env);
      moved.error.None? ==>
        && moved.e.worker.positioned && moved.e.worker.physical == track
        && moved.e.shared.status.cylinder == track.cylinder && moved.e.shared.status.side == track.side
  {
  }

  lemma PlaceNames(e: Engine, env: Env)
    requires e.worker.phase.Placing?
    ensures NamesTheTrack(PlaceStep(e, env))
  {
    PositionNames(PlaceStart(e), e.worker.phase.request.track, env);
  }

  lemma ApproachNames(e: Engine, env: Env)
    requires e.worker.phase.Approaching?
    ensures NamesTheTrack(ApproachStep(e, env))
  {
    PositionNames(e, e.worker.phase.track, env);
    ApproachFrame(e, env);
  }

  lemma ReadNames(e: Engine, env: Env)
    requires NamesTheTrack(e) && e.worker.phase.Reading?
    ensures NamesTheTrack(ReadStep(e, env))
  {
    ReadFrame(e, env);
  }

  lemma WriteNames(e: Engine, env: Env)
    requires NamesTheTrack(e) && (e.worker.phase.Measuring? || e.worker.phase.Writing?)
    ensures NamesTheTrack(Work(e, env))
  {
  }

  lemma WorkNames(e: Engine, env: Env)
    requires NamesTheTrack(e)
    ensures NamesTheTrack(Work(e, env))
  {
    match e.worker.phase
    case Placing(_, _) => PlaceNames(e, env);
    case Approaching(_) => ApproachNames(e, env);
    case Measuring(_, _) => WriteNames(e, env);
    case Writing(_, _, _) => WriteNames(e, env);
    case Reading(_) => ReadNames(e, env);
    case _ =>
      OthersWriteNothing(e, env);
      NotReading(e, env);
  }

  lemma NotReading(e: Engine, env: Env)
    requires !e.worker.phase.Approaching? && !e.worker.phase.Reading?
    ensures !Work(e, env).worker.phase.Reading?
  {
    if QuietPhase(e.worker.phase) {
      WorkIsQuiet(e, env);
    } else {
      match e.worker.phase
      case Draining =>
        if e.shared.commands != [] && e.shared.commands[0].NoClick? {
          ClickFrame(e.(shared := e.shared.(commands := e.shared.commands[1..])), e.shared.commands[0].side, env);
        }
      case Polling => PollFrame(e, env);
      case _ =>
    }
  }

  /** A report in hand names the place where the worker takes its head to be. */
  predicate ReportNamesPlace(e: Engine) {
    Informed(e.worker.phase) ==>
      e.worker.phase.news.cylinder == e.worker.physical.cylinder && e.worker.phase.news.side == e.worker.physical.side
  }

  lemma WorkNamesPlace(e: Engine, env: Env)
    requires ReportNamesPlace(e)
    ensures ReportNamesPlace(Work(e, env))
  {
    if e.worker.phase.Polling? {
      if env.due && env.poll.PollFailed? {
        NoteErrorSays(e, env.poll.error, Choosing);
      }
    } else if !Informed(e.worker.phase) {
      SaysNothing(e, env);
    }
  }

  lemma ConsumeNames(s: State, ask: Ask)
    requires NamesTheTrack(s.engine)
    ensures NamesTheTrack(Consume(s, ask).engine)
  {
    ConsumeFrame(s, ask);
    SnapshotStays(s, ask);
  }

  /** Over every run, while a write or a capture is under way the worker believes its head
      on that track, and the snapshot says so; and a report is stored with the place where
      the worker takes its head to be, whatever the device says of it. */
  lemma {:induction false} SnapshotNamesTheTrack(status: Status, head: Track, max: nat, steps: seq<Step>)
    ensures NamesTheTrack(Run(Begin(status, head, max), steps).engine)
    ensures ReportNamesPlace(Run(Begin(status, head, max), steps).engine)
  {
    if steps != [] {
      var front := steps[..|steps| - 1];
      SnapshotNamesTheTrack(status, head, max, front);
      var s := Run(Begin(status, head, max), front);
      match steps[|steps| - 1]
      case WorkerStep(env) =>
        WorkNames(s.engine, env);
        WorkNamesPlace(s.engine, env);
      case ConsumerStep(ask) =>
        ConsumeFrame(s, ask);
        ConsumeNames(s, ask);
    }
  }
}
