/** Where the head is whenever the device reads or writes, over every interleaving. */
module HeadSafety {
  import opened Common
  import opened Controller
  import opened ControllerFrames
  import GreaseweazleReads

  // ----- no seek leaves the mechanism -----

  predicate InReach(track: Track, maxCylinders: nat) {
    track.cylinder < Max(maxCylinders, 1)
  }

  predicate Reaches(track: Option<Track>, maxCylinders: nat) {
    track.Some? ==> InReach(track.value, maxCylinders)
  }

  predicate PhaseInReach(phase: Phase, max: nat) {
    match phase
    case Placing(_, request) => InReach(request.track, max)
    case Measuring(_, request) => InReach(request.track, max)
    case Writing(_, request, _) => InReach(request.track, max)
    case Steering(moves, _) => Reaches(moves, max)
    case Approaching(track) => InReach(track, max)
    case _ => true
  }

  predicate CommandInReach(command: Command, max: nat) {
    command.Write? ==> InReach(command.request.track, max)
  }

  predicate SoughtInReach(log: seq<Act>, max: nat) {
    forall i :: 0 <= i < |log| && log[i].Sought? ==> log[i].cylinder < Max(max, 1)
  }

  predicate WithinReach(e: Engine, max: nat) {
    && Reaches(e.shared.desired.target, max) && Reaches(e.shared.desired.wanted, max)
    && (forall i :: 0 <= i < |e.shared.commands| ==> CommandInReach(e.shared.commands[i], max))
    && InReach(e.worker.target, max) && Reaches(e.worker.wanted, max)
    && PhaseInReach(e.worker.phase, max)
    && SoughtInReach(e.world.log, max)
  }

  lemma PositionInReach(e: Engine, track: Track, env: Env, max: nat)
    requires SoughtInReach(e.world.log, max) && InReach(track, max)
    ensures var m := Position(e, track, env).e;
      && SoughtInReach(m.world.log, max)
      && m.shared.desired == e.shared.desired && m.shared.commands == e.shared.commands
      && m.worker.target == e.worker.target && m.worker.wanted == e.worker.wanted
  {
  }

  lemma NoteErrorInReach(e: Engine, error: Error, next: Phase, max: nat)
    requires WithinReach(e.(worker := e.worker.(phase := next)), max)
    ensures WithinReach(NoteError(e, error, next), max)
  {
  }

  lemma DrainInReach(e: Engine, env: Env, max: nat)
    requires WithinReach(e, max) && e.worker.phase.Draining?
    ensures WithinReach(DrainStep(e, env), max)
  {
    if e.shared.commands != [] && e.shared.commands[0].NoClick? {
      var taken := e.(shared := e.shared.(commands := e.shared.commands[1..]));
      match env.select
      case Failed(error, astray) => NoteErrorInReach(Astray(taken, astray), error, Draining, max);
      case Done =>
        if env.call.Some? {
          var side := e.shared.commands[0].side;
          NoteErrorInReach(taken.(world := taken.world.(head := taken.world.head.(side := side))), env.call.value, Draining, max);
        }
    }
  }

  lemma PlaceInReach(e: Engine, env: Env, max: nat)
    requires WithinReach(e, max) && e.worker.phase.Placing?
    ensures WithinReach(PlaceStep(e, env), max)
  {
    PositionInReach(PlaceStart(e), e.worker.phase.request.track, env, max);
  }

  lemma SteerInReach(e: Engine, env: Env, max: nat)
    requires WithinReach(e, max) && e.worker.phase.Steering?
    ensures WithinReach(SteerStep(e, env), max)
  {
    if e.worker.phase.moves.Some? {
      PositionInReach(e, e.worker.phase.moves.value, env, max);
    }
  }

  lemma SwitchInReach(e: Engine, env: Env, max: nat)
    requires WithinReach(e, max) && e.worker.phase.Switching?
    ensures WithinReach(SwitchStep(e, env), max)
  {
    if e.worker.phase.wish.Some? {
      var track := Track(e.worker.target.cylinder, e.worker.phase.wish.value.side);
      var moved := Position(e, track, env);
      PositionInReach(e, track, env, max);
      var error := if moved.error.Some? then moved.error else env.call;
      if error.Some? {
        NoteErrorInReach(moved.e, error.value, Polling, max);
      }
    }
  }

  lemma WishInReach(e: Engine, env: Env, max: nat)
    requires WithinReach(e, max) && e.worker.phase.Wishing?
    ensures WithinReach(WishStep(e), max)
  {
  }

  lemma PollInReach(e: Engine, env: Env, max: nat)
    requires WithinReach(e, max) && e.worker.phase.Polling?
    ensures WithinReach(PollStep(e, env), max)
  {
  }

  lemma ApproachInReach(e: Engine, env: Env, max: nat)
    requires WithinReach(e, max) && e.worker.phase.Approaching?
    ensures WithinReach(ApproachStep(e, env), max)
  {
    PositionInReach(e, e.worker.phase.track, env, max);
  }

  lemma ReadInReach(e: Engine, env: Env, max: nat)
    requires WithinReach(e, max) && e.worker.phase.Reading?
    ensures WithinReach(ReadStep(e, env), max)
  {
    var given := Logged(e, Abandoned(e.worker.phase.track));
    match env.read
    case Captured(raw) =>
      if GreaseweazleReads.Validated(raw).Err? {
        NoteErrorInReach(given, GreaseweazleReads.Validated(raw).error, Draining, max);
      }
    case ReadFailed(error) => NoteErrorInReach(given, error, Draining, max);
    case _ =>
  }

  lemma ChooseInReach(e: Engine, max: nat)
    requires WithinReach(e, max) && e.worker.phase.Choosing?
    ensures WithinReach(ChooseStep(e), max)
  {
  }

  lemma OthersInReach(e: Engine, env: Env, max: nat)
    requires WithinReach(e, max)
    ensures e.worker.phase.Measuring? ==> WithinReach(MeasureStep(e), max)
    ensures e.worker.phase.Writing? ==> WithinReach(WriteStep(e, env), max)
    ensures e.worker.phase.Evicting? ==> WithinReach(EvictStep(e), max)
    ensures e.worker.phase.Reporting? ==> WithinReach(ReportStep(e), max)
    ensures e.worker.phase.Clearing? ==> WithinReach(ClearStep(e), max)
    ensures e.worker.phase.Announcing? ==> WithinReach(AnnounceStep(e), max)
    ensures e.worker.phase.Storing? ==> WithinReach(StoreStep(e), max)
    ensures e.worker.phase.Withdrawing? ==> WithinReach(WithdrawStep(e), max)
    ensures e.worker.phase.Inserting? ==> WithinReach(InsertStep(e, env), max)
  {
  }

  lemma WorkInReach(e: Engine, env: Env, max: nat)
    requires WithinReach(e, max)
    ensures WithinReach(Work(e, env), max)
  {
    match e.worker.phase
    case Draining => DrainInReach(e, env, max);
    case Placing(_, _) => PlaceInReach(e, env, max);
    case Wishing => WishInReach(e, env, max);
    case Steering(_, _) => SteerInReach(e, env, max);
    case Switching(_) => SwitchInReach(e, env, max);
    case Polling => PollInReach(e, env, max);
    case Choosing => ChooseInReach(e, max);
    case Approaching(_) => ApproachInReach(e, env, max);
    case Reading(_) => ReadInReach(e, env, max);
    case Stopping =>
    case Stopped =>
    case _ => OthersInReach(e, env, max);
  }

  predicate StateInReach(s: State) {
    && WithinReach(s.engine, s.bridge.maxCylinders)
    && (s.bridge.vetted.Some? ==> InReach(s.bridge.vetted.value.track, s.bridge.maxCylinders))
  }

  lemma ConsumeInReach(s: State, ask: Ask)
    requires StateInReach(s)
    ensures StateInReach(Consume(s, ask))
    ensures Consume(s, ask).bridge.maxCylinders == s.bridge.maxCylinders
  {
  }

  /** Whatever the consumer asks for, no seek ever reaches the cylinder count. */
  lemma {:induction false} SeeksStayInReach(status: Status, head: Track, max: nat, steps: seq<Step>)
    ensures var s := Run(Begin(status, head, max), steps);
      StateInReach(s) && s.bridge.maxCylinders == max && SoughtInReach(s.engine.world.log, max)
  {
    if steps != [] {
      var front := steps[..|steps| - 1];
      SeeksStayInReach(status, head, max, front);
      var s := Run(Begin(status, head, max), front);
      match steps[|steps| - 1]
      case WorkerStep(env) => WorkInReach(s.engine, env, max);
      case ConsumerStep(ask) => ConsumeInReach(s, ask);
    }
  }

  // ----- the head is where the request says -----

  /** A device call happened with the head at the track it was meant for. */
  predicate OnTrack(a: Act) {
    (a.Wrote? ==> a.head == a.request.track) && (a.Took? ==> a.head == a.track)
  }

  predicate AllOnTrack(log: seq<Act>) {
    forall i :: 0 <= i < |log| ==> OnTrack(log[i])
  }

  /** Where the worker is about to use the head. */
  function Aim(phase: Phase): Option<Track> {
    match phase
    case Measuring(_, request) => Some(request.track)
    case Writing(_, request, _) => Some(request.track)
    case Reading(track) => Some(track)
    case _ => None
  }

  /** A confirmed position is the head's, and nothing is done to the wrong track. */
  predicate HeadKnown(e: Engine) {
    && (e.worker.positioned ==> e.world.head == e.worker.physical)
    && (Aim(e.worker.phase).Some? ==> e.worker.positioned && e.worker.physical == Aim(e.worker.phase).value)
    && AllOnTrack(e.world.log)
  }

  predicate Straight(reply: Reply) {
    reply.Failed? ==> reply.astray.None?
  }

  /** The no-click step about to be taken, if any. */
  function Clicking(e: Engine): Option<Side> {
    if e.worker.phase.Draining? && e.shared.commands != [] && e.shared.commands[0].NoClick?
    then Some(e.shared.commands[0].side) else None
  }

  /** A failing head movement leaves the head unmoved, and a no-click step names
      the side the head is on already. */
  predicate Tame(e: Engine, env: Env) {
    && Straight(env.seek) && Straight(env.select)
    && (Clicking(e).Some? && env.select.Done? && e.worker.positioned ==> Clicking(e).value == e.worker.physical.side)
  }

  ghost predicate TameRun(s: State, steps: seq<Step>) {
    steps != [] ==>
      && TameRun(s, steps[..|steps| - 1])
      && (steps[|steps| - 1].WorkerStep? ==>
            Tame(Run(s, steps[..|steps| - 1]).engine, steps[|steps| - 1].env))
  }

  lemma PositionKnows(e: Engine, track: Track, env: Env)
    requires HeadKnown(e) && Straight(env.seek) && Straight(env.select)
    ensures var m := Position(e, track, env);
      && (m.e.worker.positioned ==> m.e.world.head == m.e.worker.physical)
      && (m.error.None? ==> m.e.worker.positioned && m.e.worker.physical == track)
      && AllOnTrack(m.e.world.log)
  {
  }

  lemma NoteErrorKnows(e: Engine, error: Error, next: Phase)
    requires (e.worker.positioned ==> e.world.head == e.worker.physical) && AllOnTrack(e.world.log)
    requires Aim(next).None?
    ensures HeadKnown(NoteError(e, error, next))
  {
    NoteErrorFrame(e, error, next);
  }

  lemma ConsumeKnows(s: State, ask: Ask)
    requires HeadKnown(s.engine)
    ensures HeadKnown(Consume(s, ask).engine)
  {
    ConsumeFrame(s, ask);
  }

  lemma DrainKnows(e: Engine, env: Env)
    requires HeadKnown(e) && Tame(e, env) && e.worker.phase.Draining?
    ensures HeadKnown(DrainStep(e, env))
  {
  }

  lemma PlaceKnows(e: Engine, env: Env)
    requires HeadKnown(e) && Tame(e, env) && e.worker.phase.Placing?
    ensures HeadKnown(PlaceStep(e, env))
  {
    PositionKnows(PlaceStart(e), e.worker.phase.request.track, env);
  }

  lemma SteerKnows(e: Engine, env: Env)
    requires HeadKnown(e) && Tame(e, env) && e.worker.phase.Steering?
    ensures HeadKnown(SteerStep(e, env))
  {
    if e.worker.phase.moves.Some? {
      PositionKnows(e, e.worker.phase.moves.value, env);
    }
  }

  lemma SwitchKnows(e: Engine, env: Env)
    requires HeadKnown(e) && Tame(e, env) && e.worker.phase.Switching?
    ensures HeadKnown(SwitchStep(e, env))
  {
    if e.worker.phase.wish.Some? {
      var track := Track(e.worker.target.cylinder, e.worker.phase.wish.value.side);
      var moved := Position(e, track, env);
      PositionKnows(e, track, env);
      var error := if moved.error.Some? then moved.error else env.call;
      if error.Some? {
        NoteErrorKnows(moved.e, error.value, Polling);
      }
    }
  }

  lemma ApproachKnows(e: Engine, env: Env)
    requires HeadKnown(e) && Tame(e, env) && e.worker.phase.Approaching?
    ensures HeadKnown(ApproachStep(e, env))
  {
    PositionKnows(e, e.worker.phase.track, env);
  }

  lemma ReadKnows(e: Engine, env: Env)
    requires HeadKnown(e) && e.worker.phase.Reading?
    ensures HeadKnown(ReadStep(e, env))
  {
    match env.read
    case Captured(raw) => if GreaseweazleReads.Validated(raw).Err? {}
    case _ =>
  }

  lemma PollKnows(e: Engine, env: Env)
    requires HeadKnown(e) && e.worker.phase.Polling?
    ensures HeadKnown(PollStep(e, env))
  {
  }

  lemma WritesKnow(e: Engine, env: Env)
    requires HeadKnown(e)
    ensures e.worker.phase.Measuring? ==> HeadKnown(MeasureStep(e))
    ensures e.worker.phase.Writing? ==> HeadKnown(WriteStep(e, env))
    ensures e.worker.phase.Evicting? ==> HeadKnown(EvictStep(e))
    ensures e.worker.phase.Reporting? ==> HeadKnown(ReportStep(e))
    ensures e.worker.phase.Wishing? ==> HeadKnown(WishStep(e))
  {
  }

  lemma CachesKnow(e: Engine, env: Env)
    requires HeadKnown(e)
    ensures e.worker.phase.Clearing? ==> HeadKnown(ClearStep(e))
    ensures e.worker.phase.Announcing? ==> HeadKnown(AnnounceStep(e))
    ensures e.worker.phase.Storing? ==> HeadKnown(StoreStep(e))
    ensures e.worker.phase.Choosing? ==> HeadKnown(ChooseStep(e))
    ensures e.worker.phase.Withdrawing? ==> HeadKnown(WithdrawStep(e))
    ensures e.worker.phase.Inserting? ==> HeadKnown(InsertStep(e, env))
  {
  }

  lemma WorkKnows(e: Engine, env: Env)
    requires HeadKnown(e) && Tame(e, env)
    ensures HeadKnown(Work(e, env))
  {
    match e.worker.phase
    case Draining => DrainKnows(e, env);
    case Placing(_, _) => PlaceKnows(e, env);
    case Steering(_, _) => SteerKnows(e, env);
    case Switching(_) => SwitchKnows(e, env);
    case Polling => PollKnows(e, env);
    case Approaching(_) => ApproachKnows(e, env);
    case Reading(_) => ReadKnows(e, env);
    case Stopping =>
    case Stopped =>
    case _ =>
      WritesKnow(e, env);
      CachesKnow(e, env);
  }

  /** Under the two hypotheses on the device, every write and every capture of
      every run happens at exactly the track it is for. */
  lemma {:induction false} HeadIsWhereAsked(status: Status, head: Track, max: nat, steps: seq<Step>)
    requires TameRun(Begin(status, head, max), steps)
    ensures HeadKnown(Run(Begin(status, head, max), steps).engine)
  {
    if steps != [] {
      var front := steps[..|steps| - 1];
      HeadIsWhereAsked(status, head, max, front);
      var s := Run(Begin(status, head, max), front);
      match steps[|steps| - 1]
      case WorkerStep(env) => WorkKnows(s.engine, env);
      case ConsumerStep(ask) => ConsumeKnows(s, ask);
    }
  }

  // ----- the hypotheses are needed -----

  /** A reply that leaves the worker right about a head it believes at `belief`:
      the movement was made, or it failed and the head is there all the same. */
  predicate Right(reply: Reply, belief: Track) {
    reply.Failed? && reply.astray.Some? ==> reply.astray.value == belief
  }

  /** A no-click step keeps the head known exactly when the worker believes nothing
      yet, or it names the side the head is believed on, or, failing, leaves the head
      where it is believed. */
  lemma ClickKeepsHeadExactly(e: Engine, env: Env)
    requires HeadKnown(e) && Clicking(e).Some?
    ensures HeadKnown(DrainStep(e, env))
         == (e.worker.positioned ==>
               if env.select.Done? then Clicking(e).value == e.worker.physical.side
               else Right(env.select, e.worker.physical))
  {
    if env.select.Failed? {
      var taken := e.(shared := e.shared.(commands := e.shared.commands[1..]));
      var gone := Astray(taken, env.select.astray);
      NoteErrorFrame(gone, env.select.error, Draining);
      StillOnTrack(e, DrainStep(e, env));
    }
  }

  lemma StillOnTrack(e: Engine, f: Engine)
    requires AllOnTrack(e.world.log) && MinorGrowth(e.world.log, f.world.log)
    ensures AllOnTrack(f.world.log)
  {
    forall i | 0 <= i < |f.world.log|
      ensures OnTrack(f.world.log[i])
    {
      if i < |e.world.log| {
        assert f.world.log[i] == e.world.log[i];
      }
    }
  }

  /** Where positioning takes the worker to believe the head to be by the time it
      selects a side. */
  function Sideways(e: Engine, track: Track): Track {
    e.worker.physical.(cylinder := track.cylinder)
  }

  /** Positioning keeps the head known exactly when the worker believed nothing
      before, or the movement that fails, if one does, leaves the head where the
      worker then believes it: the seek, or else the selection of the side. */
  lemma PositionKeepsHeadExactly(e: Engine, track: Track, env: Env)
    requires HeadKnown(e) && Aim(e.worker.phase).None?
    ensures HeadKnown(Position(e, track, env).e)
         == (e.worker.positioned ==>
               if Seeks(e, track) && env.seek.Failed? then Right(env.seek, e.worker.physical)
               else Selects(e, track) ==> Right(env.select, Sideways(e, track)))
  {
    PositionFrame(e, track, env);
    StillOnTrack(e, Position(e, track, env).e);
  }

  // ----- exactly which writes land on their track -----

  /** The record of the last placing, if any. */
  function LastPlaced(log: seq<Act>): (a: Option<Act>)
    ensures a.Some? ==> a.value.Placed?
  {
    if log == [] then None
    else if log[|log| - 1].Placed? then Some(log[|log| - 1])
    else LastPlaced(log[..|log| - 1])
  }

  /** In whatever coordinate the worker believed its head on the track already, it was. */
  predicate RightlyPlaced(a: Act)
    requires a.Placed?
  {
    a.belief.Some? ==>
      && (a.belief.value.cylinder == a.track.cylinder ==> a.head.cylinder == a.track.cylinder)
      && (a.belief.value.side == a.track.side ==> a.head.side == a.track.side)
  }

  /** A write whose last placing was for it, with the head on its track exactly if it
      was rightly placed. */
  predicate LandsAsPlaced(log: seq<Act>, id: nat, track: Track, head: Track) {
    var placed := LastPlaced(log);
    && placed.Some? && placed.value.id == id && placed.value.track == track
    && (head == track <==> RightlyPlaced(placed.value))
  }

  predicate LandsNext(e: Engine) {
    match e.worker.phase
    case Measuring(id, request) => LandsAsPlaced(e.world.log, id, request.track, e.world.head)
    case Writing(id, request, _) => LandsAsPlaced(e.world.log, id, request.track, e.world.head)
    case _ => true
  }

  ghost predicate AllLandAsPlaced(log: seq<Act>) {
    forall j :: 0 <= j < |log| && log[j].Wrote? ==>
      LandsAsPlaced(log[..j], log[j].id, log[j].request.track, log[j].head)
  }

  lemma LandedLater(before: seq<Act>, after: seq<Act>)
    requires AllLandAsPlaced(before) && before <= after
    requires forall i :: |before| <= i < |after| ==> !after[i].Wrote?
    ensures AllLandAsPlaced(after)
  {
    forall j | 0 <= j < |after| && after[j].Wrote?
      ensures LandsAsPlaced(after[..j], after[j].id, after[j].request.track, after[j].head)
    {
      assert before[j] == after[j] && before[..j] == after[..j];
    }
  }

  lemma LandedNow(log: seq<Act>, id: nat, request: WriteRequest, fromIndex: bool, head: Track, reply: Option<Error>)
    requires AllLandAsPlaced(log) && LandsAsPlaced(log, id, request.track, head)
    ensures AllLandAsPlaced(log + [Wrote(id, request, fromIndex, head, reply)])
  {
    var after := log + [Wrote(id, request, fromIndex, head, reply)];
    forall j | 0 <= j < |after| && after[j].Wrote?
      ensures LandsAsPlaced(after[..j], after[j].id, after[j].request.track, after[j].head)
    {
      if j < |log| {
        assert log[j] == after[j] && log[..j] == after[..j];
      } else {
        assert after[..j] == log;
      }
    }
  }

  /** Positioning that succeeds ends on the track exactly when every coordinate it
      skips, as confirmed already, is really the head's. */
  lemma PositionLands(e: Engine, track: Track, env: Env)
    ensures var moved := Position(e, track, env);
      && (moved.e.world.log == e.world.log || moved.e.world.log == e.world.log + [Sought(track.cylinder)])
      && (moved.error.None? ==>
            (moved.e.world.head == track
             <==> (!Seeks(e, track) ==> e.world.head.cylinder == track.cylinder)
                  && (!Selects(e, track) ==> e.world.head.side == track.side)))
  {
  }

  lemma PlacedLast(log: seq<Act>, placed: Act, cylinder: nat)
    requires placed.Placed?
    ensures LastPlaced(log + [placed]) == Some(placed)
    ensures LastPlaced(log + [placed] + [Sought(cylinder)]) == Some(placed)
  {
    assert (log + [placed] + [Sought(cylinder)])[..|log| + 1] == log + [placed];
  }

  lemma PlaceLands(e: Engine, env: Env)
    requires e.worker.phase.Placing? && AllLandAsPlaced(e.world.log)
    ensures LandsNext(PlaceStep(e, env)) && AllLandAsPlaced(PlaceStep(e, env).world.log)
  {
    var track := e.worker.phase.request.track;
    var placed := Placed(e.worker.phase.id, track, e.world.head, Belief(e.worker));
    PositionLands(PlaceStart(e), track, env);
    PlacedLast(e.world.log, placed, track.cylinder);
    LandedLater(e.world.log, PlaceStep(e, env).world.log);
  }

  /** Nothing but the steps of a write lead to one. */
  lemma OthersWriteNothing(e: Engine, env: Env)
    requires !e.worker.phase.Placing? && !e.worker.phase.Measuring? && !e.worker.phase.Writing?
    ensures var f := Work(e, env);
      && e.world.log <= f.world.log && !f.worker.phase.Measuring? && !f.worker.phase.Writing?
      && forall i :: |e.world.log| <= i < |f.world.log| ==> !f.world.log[i].Wrote?
  {
    if QuietPhase(e.worker.phase) {
      WorkIsQuiet(e, env);
    } else {
      match e.worker.phase
      case Draining => DrainWritesNothing(e, env);
      case Reading(_) => ReadFrame(e, env);
      case Polling => PollFrame(e, env);
      case _ =>
    }
  }

  lemma DrainWritesNothing(e: Engine, env: Env)
    requires e.worker.phase.Draining?
    ensures var f := DrainStep(e, env);
      && e.world.log <= f.world.log && !f.worker.phase.Measuring? && !f.worker.phase.Writing?
      && forall i :: |e.world.log| <= i < |f.world.log| ==> !f.world.log[i].Wrote?
  {
    if e.shared.commands != [] && e.shared.commands[0].NoClick? {
      ClickFrame(e.(shared := e.shared.(commands := e.shared.commands[1..])), e.shared.commands[0].side, env);
    }
  }

  lemma {:induction false} PlacedBefore(before: seq<Act>, after: seq<Act>)
    requires before <= after && forall i :: |before| <= i < |after| ==> !after[i].Placed?
    ensures LastPlaced(after) == LastPlaced(before)
    decreases |after|
  {
    if |after| == |before| {
      assert after == before;
    } else {
      PlacedBefore(before, after[..|after| - 1]);
    }
  }

  lemma MeasureLands(e: Engine)
    requires e.worker.phase.Measuring? && LandsNext(e) && AllLandAsPlaced(e.world.log)
    ensures LandsNext(MeasureStep(e)) && AllLandAsPlaced(MeasureStep(e).world.log)
  {
    PlacedBefore(e.world.log, MeasureStep(e).world.log);
    LandedLater(e.world.log, MeasureStep(e).world.log);
  }

  lemma WorkLands(e: Engine, env: Env)
    requires LandsNext(e) && AllLandAsPlaced(e.world.log)
    ensures LandsNext(Work(e, env)) && AllLandAsPlaced(Work(e, env).world.log)
  {
    match e.worker.phase
    case Placing(_, _) => PlaceLands(e, env);
    case Measuring(_, _) => MeasureLands(e);
    case Writing(id, request, fromIndex) => LandedNow(e.world.log, id, request, fromIndex, e.world.head, env.call);
    case _ =>
      OthersWriteNothing(e, env);
      LandedLater(e.world.log, Work(e, env).world.log);
  }

  lemma ConsumeLands(s: State, ask: Ask)
    requires LandsNext(s.engine) && AllLandAsPlaced(s.engine.world.log)
    ensures LandsNext(Consume(s, ask).engine) && AllLandAsPlaced(Consume(s, ask).engine.world.log)
  {
    ConsumeFrame(s, ask);
    PlacedBefore(s.engine.world.log, Consume(s, ask).engine.world.log);
    LandedLater(s.engine.world.log, Consume(s, ask).engine.world.log);
  }

  /** Over every run of any device whose successful movements go where they are told,
      a write lands on its track exactly when, as it was placed, the head really had
      every coordinate the worker believed it to have already. */
  lemma {:induction false} WritesLandExactly(status: Status, head: Track, max: nat, steps: seq<Step>)
    ensures var e := Run(Begin(status, head, max), steps).engine;
      LandsNext(e) && AllLandAsPlaced(e.world.log)
  {
    if steps != [] {
      var front := steps[..|steps| - 1];
      WritesLandExactly(status, head, max, front);
      var s := Run(Begin(status, head, max), front);
      match steps[|steps| - 1]
      case WorkerStep(env) => WorkLands(s.engine, env);
      case ConsumerStep(ask) => ConsumeLands(s, ask);
    }
  }

  // ----- a write on the wrong side -----

  /** A device that does everything it is told. */
  const OBEDIENT := Env(Done, Done, None, false, PollFailed(Timeout), ReadFailed(Timeout), HOME)

  const HOME_WRITE := WriteRequest(HOME, [0], 16, 0)

  function Works(e: Engine, env: Env, n: nat): Engine
    decreases n
  {
    if n == 0 then e else Works(Work(e, env), env, n - 1)
  }

  lemma OneWork(s: State, steps: seq<Step>, env: Env)
    ensures var t := Run(s, steps);
      Run(s, steps + [WorkerStep(env)]) == State(Work(t.engine, env), t.bridge)
  {
    OneMore(s, steps, WorkerStep(env));
  }

  /** Any number of steps of the worker can extend a run. */
  lemma {:induction false} MoreWorks(s: State, steps: seq<Step>, t: State, env: Env, n: nat) returns (longer: seq<Step>)
    requires Run(s, steps) == t
    ensures Run(s, longer) == State(Works(t.engine, env, n), t.bridge)
    decreases n
  {
    if n == 0 {
      longer := steps;
    } else {
      OneWork(s, steps, env);
      longer := MoreWorks(s, steps + [WorkerStep(env)], State(Work(t.engine, env), t.bridge), env, n - 1);
    }
  }

  /** What a write to the home track leaves alone, but for the head. */
  ghost predicate WriteFrame(e: Engine, f: Engine) {
    && f.shared.status.writeProtected == e.shared.status.writeProtected
    && f.shared.partial == e.shared.partial && f.shared.desired == e.shared.desired
    && f.worker.wanted == e.worker.wanted && f.worker.errors == e.worker.errors && f.worker.failed == e.worker.failed
    && (e.worker.positioned && e.worker.physical == HOME ==> f.world.head == e.world.head)
    && f.worker.positioned && f.worker.physical == HOME
    && e.world.log <= f.world.log
    && (forall i :: |e.world.log| <= i < |f.world.log| ==> !f.world.log[i].Published?)
  }

  /** Taken from the queue, placed and measured. */
  lemma HomeWriteBegins(e: Engine, id: nat)
    requires e.worker.phase.Draining? && e.shared.commands != [] && e.shared.commands[0] == Write(id, HOME_WRITE)
    ensures var f := Works(e, OBEDIENT, 3);
      && f.worker.phase == Writing(id, HOME_WRITE, true)
      && f.shared.commands == e.shared.commands[1..] && f.shared.events == e.shared.events && WriteFrame(e, f)
  {
    var a := Work(e, OBEDIENT);
    assert a == At(e.(shared := e.shared.(commands := e.shared.commands[1..])), Placing(id, HOME_WRITE));
    var b := Work(a, OBEDIENT);
    assert b == PlaceStep(a, OBEDIENT);
    HomeIsPlaced(a, id);
    assert Works(b, OBEDIENT, 1) == Work(b, OBEDIENT) == MeasureStep(b);
    assert Works(a, OBEDIENT, 2) == Work(b, OBEDIENT);
  }

  lemma HomeIsPlaced(e: Engine, id: nat)
    requires e.worker.phase == Placing(id, HOME_WRITE)
    ensures var f := PlaceStep(e, OBEDIENT);
      && f.worker.phase == Measuring(id, HOME_WRITE)
      && f.shared.commands == e.shared.commands && f.shared.events == e.shared.events && WriteFrame(e, f)
  {
    PlaceFrame(e, OBEDIENT);
  }

  /** Written, evicted and reported. */
  lemma HomeWriteEnds(e: Engine, id: nat)
    requires e.worker.phase == Writing(id, HOME_WRITE, true)
    ensures var f := Works(e, OBEDIENT, 3);
      && f.worker.phase.Draining? && f.shared.commands == e.shared.commands
      && f.shared.events == Sent(e.shared.events, WriteCompleted(id, HOME, 16))
      && HOME !in f.shared.captures && f.shared.status == e.shared.status
      && f.shared.partial == e.shared.partial && f.shared.desired == e.shared.desired
      && f.worker == e.worker.(phase := Draining) && f.world.head == e.world.head
      && f.world.log == e.world.log + [Wrote(id, HOME_WRITE, true, e.world.head, None)] + [Performed(id, HOME_WRITE)]
  {
    var a := Work(e, OBEDIENT);
    assert a.worker.phase == Evicting(id, HOME_WRITE, None);
    var b := Work(a, OBEDIENT);
    assert b.worker.phase == Reporting(id, HOME_WRITE, None);
    assert Works(b, OBEDIENT, 1) == Work(b, OBEDIENT);
    assert Works(a, OBEDIENT, 2) == Work(b, OBEDIENT);
  }

  lemma WroteInBetween(e: Engine, c: Engine, f: Engine, a: Act, b: Act)
    requires WriteFrame(e, c) && f.world.log == c.world.log + [a] + [b] && !a.Published? && !b.Published?
    ensures e.world.log <= f.world.log && a in f.world.log[|e.world.log|..]
    ensures forall i :: |e.world.log| <= i < |f.world.log| ==> !f.world.log[i].Published?
  {
    assert f.world.log[|c.world.log|] == a;
    assert f.world.log[|e.world.log|..][|c.world.log| - |e.world.log|] == a;
  }

  /** A run with a write to home next in its queue can be extended by doing it: the
      head is sought only if the worker does not believe it to be there. */
  lemma HomeIsWritten(s: State, steps: seq<Step>, id: nat) returns (longer: seq<Step>)
    requires var e := Run(s, steps).engine;
      e.worker.phase.Draining? && e.shared.commands != [] && e.shared.commands[0] == Write(id, HOME_WRITE)
    ensures Run(s, longer).bridge == Run(s, steps).bridge
    ensures var e, f := Run(s, steps).engine, Run(s, longer).engine;
      && f.worker.phase.Draining? && f.shared.commands == e.shared.commands[1..]
      && HOME !in f.shared.captures && WriteFrame(e, f)
      && f.shared.events == Sent(e.shared.events, WriteCompleted(id, HOME, 16))
      && Wrote(id, HOME_WRITE, true, f.world.head, None) in f.world.log[|e.world.log|..]
  {
    var e := Run(s, steps).engine;
    HomeWriteBegins(e, id);
    longer := MoreWorks(s, steps, Run(s, steps), OBEDIENT, 3);
    var c := Run(s, longer).engine;
    HomeWriteEnds(c, id);
    longer := MoreWorks(s, longer, Run(s, longer), OBEDIENT, 3);
    var f := Run(s, longer).engine;
    WroteInBetween(e, c, f, Wrote(id, HOME_WRITE, true, c.world.head, None), Performed(id, HOME_WRITE));
  }

  /** Any run without a command in its queue can be extended by a write to home. */
  lemma SubmitHome(s: State, steps: seq<Step>) returns (longer: seq<Step>)
    requires var t := Run(s, steps);
      && t.engine.worker.phase.Draining? && t.engine.shared.commands == [] && !t.bridge.dropped
      && !t.engine.shared.status.writeProtected && HOME !in t.engine.shared.captures
    ensures var t := Run(s, steps);
      Run(s, longer) == State(Logged(Queued(t.engine, Write(t.bridge.nextWrite, HOME_WRITE)),
                                     Accepted(t.bridge.nextWrite, HOME_WRITE)),
                              t.bridge.(vetted := None, nextWrite := t.bridge.nextWrite + 1))
  {
    OneMore(s, steps, ConsumerStep(Vet(HOME_WRITE)));
    longer := steps + [ConsumerStep(Vet(HOME_WRITE))];
    OneMore(s, longer, ConsumerStep(Enqueue));
    longer := longer + [ConsumerStep(Enqueue)];
  }

  lemma ClickTakesEffect(e: Engine)
    requires e.worker.phase.Draining? && e.shared.commands == [NoClick(Upper)]
    ensures Work(e, OBEDIENT)
         == e.(shared := e.shared.(commands := []), world := e.world.(head := e.world.head.(side := Upper)))
  {
    assert e.shared.commands[1..] == [];
  }

  lemma ClickIsQueued(t: State)
    requires !t.bridge.dropped && t.engine.worker.phase.Draining? && t.engine.shared.commands == []
    ensures Consume(t, ClickRequest(Upper))
         == State(t.engine.(shared := t.engine.shared.(commands := [NoClick(Upper)])), t.bridge)
  {
  }

  /** Any run without a command in its queue can be extended by a no-click step. */
  lemma ClickUpper(s: State, steps: seq<Step>) returns (longer: seq<Step>)
    requires var t := Run(s, steps);
      t.engine.worker.phase.Draining? && t.engine.shared.commands == [] && !t.bridge.dropped
    ensures var t := Run(s, steps);
      Run(s, longer) == State(t.engine.(world := t.engine.world.(head := t.engine.world.head.(side := Upper))), t.bridge)
  {
    var t := Run(s, steps);
    ClickIsQueued(t);
    OneMore(s, steps, ConsumerStep(ClickRequest(Upper)));
    longer := steps + [ConsumerStep(ClickRequest(Upper))];
    var queued := t.engine.(shared := t.engine.shared.(commands := [NoClick(Upper)]));
    assert Run(s, longer) == State(queued, t.bridge);
    ClickTakesEffect(queued);
    OneWork(s, longer, OBEDIENT);
    longer := longer + [WorkerStep(OBEDIENT)];
  }

  /** A run at rest on the home track after writing to it. */
  predicate AtHome(t: State) {
    && t.engine.worker.phase.Draining? && t.engine.shared.commands == [] && !t.bridge.dropped
    && !t.engine.shared.status.writeProtected && HOME !in t.engine.shared.captures
    && t.engine.worker.positioned && t.engine.worker.physical == HOME
  }

  lemma FirstWrite(status: Status, head: Track, max: nat) returns (steps: seq<Step>)
    requires !status.writeProtected
    ensures var t := Run(Begin(status, head, max), steps);
      && AtHome(t) && t.bridge.maxCylinders == max
      && t.engine.shared.desired == NO_WISH && t.engine.worker.wanted.None?
      && t.engine.worker.errors == 0 && !t.engine.worker.failed
  {
    var s := Begin(status, head, max);
    steps := SubmitHome(s, []);
    steps := HomeIsWritten(s, steps, 1);
  }

  /** A worker at home, whose head is not, writes to the wrong place. */
  lemma AwayWrite(s: State, steps: seq<Step>) returns (longer: seq<Step>)
    requires AtHome(Run(s, steps)) && Run(s, steps).engine.world.head != HOME
    ensures !AllOnTrack(Run(s, longer).engine.world.log)
  {
    longer := SubmitHome(s, steps);
    var e := Run(s, longer).engine;
    var id := e.shared.commands[0].id;
    longer := HomeIsWritten(s, longer, id);
    var written := Run(s, longer).engine;
    WrongPlace(written.world.log, |e.world.log|, Wrote(id, HOME_WRITE, true, written.world.head, None));
  }

  lemma WrongPlace(log: seq<Act>, from: nat, a: Act)
    requires from <= |log| && a in log[from..] && !OnTrack(a)
    ensures !AllOnTrack(log)
  {
    var i :| 0 <= i < |log| - from && log[from..][i] == a;
    assert log[from + i] == a;
  }

  /** A no-click step of the other side between two writes to one track, on a
      device that never fails, sends the second write to the wrong side. */
  lemma ClickMisleadsAWrite(status: Status, head: Track, max: nat) returns (steps: seq<Step>)
    requires !status.writeProtected
    ensures !AllOnTrack(Run(Begin(status, head, max), steps).engine.world.log)
  {
    var s := Begin(status, head, max);
    steps := FirstWrite(status, head, max);
    steps := ClickUpper(s, steps);
    steps := AwayWrite(s, steps);
  }

  // ----- a write on the wrong cylinder -----

  const NEXT := Track(1, Lower)

  /** A device whose seek moves the head and then fails to say so, once. */
  const STRAYING := Env(Failed(Io, Some(NEXT)), Done, None, false, PollFailed(Timeout), ReadFailed(Timeout), HOME)

  /** The worker stays sure it is at home; the head is on the next cylinder. */
  lemma Strays(e: Engine)
    requires e.worker.phase.Draining? && e.shared.commands == []
    requires e.shared.desired == Desired(None, Some(NEXT), None) && e.worker.wanted.None?
    requires e.worker.positioned && e.worker.physical == HOME && e.worker.errors == 0 && !e.worker.failed
    ensures var f := Works(e, STRAYING, 3);
      && f.worker.phase.Polling? && f.worker.positioned && f.worker.physical == HOME && f.world.head == NEXT
      && f.worker.wanted.None? && f.shared.commands == []
      && f.shared.captures == e.shared.captures && f.shared.status.writeProtected == e.shared.status.writeProtected
  {
    var a := Work(e, STRAYING);
    assert a == At(e, Wishing);
    var b := Work(a, STRAYING);
    assert b.worker.phase == Steering(Some(NEXT), None) && b.world.head == e.world.head;
    assert Works(b, STRAYING, 1) == Work(b, STRAYING) == Works(a, STRAYING, 2);
  }

  lemma PollsNothing(e: Engine)
    requires e.worker.phase.Polling?
    ensures Work(e, OBEDIENT) == At(e, Choosing)
  {
  }

  lemma ChoosesNothing(e: Engine)
    requires e.worker.phase.Choosing? && e.worker.wanted.None?
    ensures Work(e, OBEDIENT) == At(e, Draining)
  {
  }

  lemma ComesRound(e: Engine)
    requires e.worker.phase.Polling? && e.worker.wanted.None?
    ensures Works(e, OBEDIENT, 2) == At(e, Draining)
  {
    var a := At(e, Choosing);
    PollsNothing(e);
    ChoosesNothing(a);
    TwoWorks(e, OBEDIENT);
  }

  lemma TwoWorks(e: Engine, env: Env)
    ensures Works(e, env, 2) == Work(Work(e, env), env)
  {
    assert Works(Work(e, env), env, 1) == Work(Work(e, env), env);
  }

  /** One seek that moves the head but reports a failure sends the next write to the
      wrong cylinder: the worker takes its head to be where it was. */
  lemma StrayMisleadsAWrite(status: Status, head: Track, max: nat) returns (steps: seq<Step>)
    requires !status.writeProtected && max >= 2
    ensures !AllOnTrack(Run(Begin(status, head, max), steps).engine.world.log)
  {
    var s := Begin(status, head, max);
    steps := FirstWrite(status, head, max);
    OneMore(s, steps, ConsumerStep(Seek(NEXT)));
    steps := steps + [ConsumerStep(Seek(NEXT))];
    Strays(Run(s, steps).engine);
    steps := MoreWorks(s, steps, Run(s, steps), STRAYING, 3);
    ComesRound(Run(s, steps).engine);
    steps := MoreWorks(s, steps, Run(s, steps), OBEDIENT, 2);
    steps := AwayWrite(s, steps);
  }
}
