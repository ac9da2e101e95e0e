/** The controller as a state machine: one worker owning the device, one consumer
    holding the bridge, and the locks, queues and cache between them. Every
    function here is one atomic step, at the granularity of the shared locks. */
module Controller {
  import opened Common
  import GreaseweazleReads
  import Scan

  const COMMAND_CAPACITY: nat := 64
  const EVENT_CAPACITY: nat := 64
  const CAPTURES_PER_TRACK: nat := 2
  const MAX_CACHED_TRACKS: nat := 8
  const INDEX_WRITE_SLACK_BITS: nat := 30
  const MAX_CONSECUTIVE_ERRORS: nat := 20

  // ----- what is shared -----

  datatype Side = Lower | Upper

  datatype Track = Track(cylinder: nat, side: Side)

  const HOME := Track(0, Lower)

  datatype Quality = IndexAligned | VerifiedAmigaDos(sectors: nat) | Unverified

  predicate Reusable(q: Quality) {
    !q.Unverified?
  }

  datatype Capture = Capture(words: seq<bv16>, bitLen: nat, quality: Quality, generation: nat)

  type Cache = map<Track, seq<Capture>>

  datatype Status = Status(working: bool, ready: bool, diskPresent: bool, writeProtected: bool,
                           motorRunning: bool, cylinder: nat, side: Side)

  datatype MotorWish = MotorWish(side: Side, enabled: bool)

  /** The caller's latest wishes, overwritten rather than queued. */
  datatype Desired = Desired(motor: Option<MotorWish>, target: Option<Track>, wanted: Option<Track>)

  const NO_WISH := Desired(None, None, None)

  datatype WriteRequest = WriteRequest(track: Track, words: seq<bv16>, bitLen: nat, startBit: nat)

  datatype Command = NoClick(side: Side) | Write(id: nat, request: WriteRequest) | Shutdown

  /** An event as the consumer polls it. A change of disk carries the number of its
      sighting as well, for the history alone: nothing the code does depends on it. */
  datatype Event =
    | DiskChanged(present: bool, sighting: nat)
    | WriteCompleted(id: nat, track: Track, bitLen: nat)
    | WriteFailed(id: nat, track: Track, error: Error)
    | Disconnection(error: Error)

  datatype Partial = Partial(track: Track, words: seq<bv16>, bitLen: nat)

  datatype Shared = Shared(status: Status, captures: Cache, desired: Desired, partial: Option<Partial>,
                           commands: seq<Command>, events: seq<Event>)

  // ----- the worker -----

  /** Where the worker stands between two of its atomic steps. */
  datatype Phase =
    | Draining
    | Placing(id: nat, request: WriteRequest)
    | Measuring(id: nat, request: WriteRequest)
    | Writing(id: nat, request: WriteRequest, fromIndex: bool)
    | Evicting(id: nat, request: WriteRequest, outcome: Option<Error>)
    | Reporting(id: nat, request: WriteRequest, outcome: Option<Error>)
    | Wishing
    | Steering(moves: Option<Track>, motor: Option<MotorWish>)
    | Switching(wish: Option<MotorWish>)
    | Polling
    | Clearing(news: Status, sighting: nat)
    | Announcing(news: Status, sighting: nat)
    | Storing(news: Status)
    | Choosing
    | Approaching(track: Track)
    | Reading(track: Track)
    | Withdrawing(track: Track, raw: GreaseweazleReads.RawCapture)
    | Inserting(track: Track, capture: Capture)
    | Stopping
    | Stopped

  datatype Worker = Worker(target: Track, wanted: Option<Track>, physical: Track, positioned: bool,
                           failed: bool, errors: nat, generation: nat, phase: Phase)

  /** What the run has done so far, to the device and between the threads. */
  datatype Act =
    | Sought(cylinder: nat)
    | Placed(id: nat, track: Track, head: Track, belief: Option<Track>)
    | Measured(id: nat, trackBits: nat)
    | Misplaced(id: nat, error: Error)
    | Wrote(id: nat, request: WriteRequest, fromIndex: bool, head: Track, reply: Option<Error>)
    | Performed(id: nat, request: WriteRequest)
    | Took(track: Track, head: Track, generation: nat, raw: GreaseweazleReads.RawCapture)
    | Abandoned(track: Track)
    | Saw(sighting: nat, present: bool)
    | Reported(status: Status)
    | Noted(error: Error)
    | Cleared
    | Gone(error: Error)
    | MotorSet(wish: MotorWish)
    | MotorOff
    | Aimed(track: Track, demanded: bool)
    | Reached(track: Track)
    | Switched(wish: MotorWish)
    | Accepted(id: nat, request: WriteRequest)
    | Served(track: Track, generation: nat)
    | Retired(track: Track, generation: nat)
    | Seen(id: nat, track: Track)
    | Warned(sighting: nat, present: bool)
    | Parted(error: Error)
    | Published(partial: Partial)
    | Glimpsed(partial: Partial)

  /** The device's true head position, and the history of the run. */
  datatype World = World(head: Track, sightings: nat, log: seq<Act>)

  datatype Engine = Engine(shared: Shared, worker: Worker, world: World)

  /** A head movement succeeds, or fails, possibly leaving the head astray. */
  datatype Reply = Done | Failed(error: Error, astray: Option<Track>)

  datatype Poll = Polled(status: Status) | PollFailed(error: Error)

  datatype ReadReply = Publishing(words: seq<bv16>, bitLen: nat) | Captured(raw: GreaseweazleReads.RawCapture) | ReadFailed(error: Error)

  /** Everything one worker step may meet: device replies, clocks, and the order
      in which a hash map lists its keys. */
  datatype Env = Env(seek: Reply, select: Reply, call: Option<Error>, due: bool,
                     poll: Poll, read: ReadReply, victim: Track)

  // ----- small changes -----

  function At(e: Engine, phase: Phase): Engine {
    e.(worker := e.worker.(phase := phase))
  }

  function Logged(e: Engine, act: Act): Engine {
    e.(world := e.world.(log := e.world.log + [act]))
  }

  function Sent(events: seq<Event>, event: Event): seq<Event> {
    if |events| < EVENT_CAPACITY then events + [event] else events
  }

  function Emit(e: Engine, event: Event): Engine {
    e.(shared := e.shared.(events := Sent(e.shared.events, event)))
  }

  predicate Fatal(error: Error) {
    error.Disconnected? || error.WorkerStopped?
  }

  function Healthy(e: Engine): Engine {
    Logged(e.(worker := e.worker.(errors := 0)), Cleared)
  }

  /** `note_error` and the check of `failed` that follows it. */
  function NoteError(e: Engine, error: Error, next: Phase): Engine {
    var errors := e.worker.errors + 1;
    var noted := Logged(e.(worker := e.worker.(errors := errors)), Noted(error));
    if Fatal(error) || errors >= MAX_CONSECUTIVE_ERRORS then Disconnect(noted, error) else At(noted, next)
  }

  function Disconnect(e: Engine, error: Error): Engine {
    var gone := e.(shared := e.shared.(status := e.shared.status.(working := false)),
                   worker := e.worker.(failed := true, phase := Stopping));
    Logged(Emit(gone, Disconnection(error)), Gone(error))
  }

  // ----- positioning -----

  datatype Moved = Moved(e: Engine, error: Option<Error>)

  function Astray(e: Engine, astray: Option<Track>): Engine {
    if astray.Some? then e.(world := e.world.(head := astray.value)) else e
  }

  function SeekTo(e: Engine, cylinder: nat, reply: Reply): Moved {
    var asked := Logged(e, Sought(cylinder));
    match reply
    case Failed(error, astray) => Moved(Astray(asked, astray), Some(error))
    case Done =>
      Moved(asked.(world := asked.world.(head := asked.world.head.(cylinder := cylinder)),
                   worker := asked.worker.(physical := asked.worker.physical.(cylinder := cylinder))), None)
  }

  function SelectSide(e: Engine, side: Side, reply: Reply): Moved {
    match reply
    case Failed(error, astray) => Moved(Astray(e, astray), Some(error))
    case Done =>
      Moved(e.(world := e.world.(head := e.world.head.(side := side)),
               worker := e.worker.(physical := e.worker.physical.(side := side))), None)
  }

  function Confirm(e: Engine): Engine {
    e.(worker := e.worker.(positioned := true),
       shared := e.shared.(status := e.shared.status.(cylinder := e.worker.physical.cylinder,
                                                      side := e.worker.physical.side)))
  }

  /** Where the worker believes the head to be, if it believes anything. */
  function Belief(worker: Worker): Option<Track> {
    if worker.positioned then Some(worker.physical) else None
  }

  predicate Seeks(e: Engine, track: Track) {
    !e.worker.positioned || e.worker.physical.cylinder != track.cylinder
  }

  predicate Selects(e: Engine, track: Track) {
    !e.worker.positioned || e.worker.physical.side != track.side
  }

  /** `position`: moves only what is not confirmed to be in place already. */
  function Position(e: Engine, track: Track, env: Env): (m: Moved) {
    var sought := if Seeks(e, track) then SeekTo(e, track.cylinder, env.seek) else Moved(e, None);
    if sought.error.Some? then sought
    else
      var sided := if Selects(e, track) then SelectSide(sought.e, track.side, env.select) else sought;
      if sided.error.Some? then sided else Moved(Confirm(sided.e), None)
  }

  // ----- commands and writes -----

  /** `process`, for the no-click step: it moves the head's side behind `physical`. */
  function Click(e: Engine, side: Side, env: Env): Engine {
    match env.select
    case Failed(error, astray) => NoteError(Astray(e, astray), error, Draining)
    case Done =>
      var sided := e.(world := e.world.(head := e.world.head.(side := side)));
      match env.call
      case Some(error) => NoteError(sided, error, Draining)
      case None => At(sided, Draining)
  }

  function DrainStep(e: Engine, env: Env): Engine {
    if e.shared.commands == [] then At(e, Wishing)
    else
      var taken := e.(shared := e.shared.(commands := e.shared.commands[1..]));
      match e.shared.commands[0]
      case Shutdown => At(taken, Stopping)
      case NoClick(side) => Click(taken, side, env)
      case Write(id, request) => At(taken, Placing(id, request))
  }

  /** Where the head is, and is believed to be, goes on record before a write moves it. */
  function PlaceStart(e: Engine): Engine
    requires e.worker.phase.Placing?
  {
    Logged(e, Placed(e.worker.phase.id, e.worker.phase.request.track, e.world.head, Belief(e.worker)))
  }

  function PlaceStep(e: Engine, env: Env): Engine
    requires e.worker.phase.Placing?
  {
    var Placing(id, request) := e.worker.phase;
    var moved := Position(PlaceStart(e), request.track, env);
    match moved.error
    case Some(error) => At(Logged(moved.e, Misplaced(id, error)), Evicting(id, request, Some(error)))
    case None => At(moved.e, Measuring(id, request))
  }

  /** The length of the newest known revolution of a track, or `otherwise`. */
  function TrackBits(captures: Cache, track: Track, otherwise: nat): nat {
    if track in captures && captures[track] != [] then captures[track][0].bitLen else otherwise
  }

  predicate FromIndex(startBit: nat, trackBits: nat) {
    startBit <= INDEX_WRITE_SLACK_BITS || startBit + INDEX_WRITE_SLACK_BITS >= trackBits
  }

  predicate WholeRevolution(bitLen: nat, trackBits: nat) {
    bitLen + 16 >= trackBits
  }

  function MeasureStep(e: Engine): Engine
    requires e.worker.phase.Measuring?
  {
    var Measuring(id, request) := e.worker.phase;
    var trackBits := TrackBits(e.shared.captures, request.track, request.bitLen);
    var measured := Logged(e, Measured(id, trackBits));
    if FromIndex(request.startBit, trackBits) || WholeRevolution(request.bitLen, trackBits) then
      At(measured, Writing(id, request, FromIndex(request.startBit, trackBits)))
    else At(measured, Evicting(id, request, Some(UnplaceablePartialWrite(request.startBit, trackBits))))
  }

  function WriteStep(e: Engine, env: Env): Engine
    requires e.worker.phase.Writing?
  {
    var Writing(id, request, fromIndex) := e.worker.phase;
    At(Logged(e, Wrote(id, request, fromIndex, e.world.head, env.call)), Evicting(id, request, env.call))
  }

  function EvictStep(e: Engine): Engine
    requires e.worker.phase.Evicting?
  {
    var Evicting(id, request, outcome) := e.worker.phase;
    At(Logged(e.(shared := e.shared.(captures := e.shared.captures - {request.track})),
              Performed(id, request)),
       Reporting(id, request, outcome))
  }

  function ReportStep(e: Engine): Engine
    requires e.worker.phase.Reporting?
  {
    var Reporting(id, request, outcome) := e.worker.phase;
    At(Emit(e, match outcome
               case None => WriteCompleted(id, request.track, request.bitLen)
               case Some(error) => WriteFailed(id, request.track, error)), Draining)
  }

  // ----- wishes -----

  /** The head of `apply_desired`: takes every wish at once. */
  function WishStep(e: Engine): Engine {
    var wish := e.shared.desired;
    At(e.(shared := e.shared.(desired := NO_WISH),
          worker := e.worker.(wanted := if wish.wanted.Some? then wish.wanted else e.worker.wanted,
                              target := if wish.target.Some? then wish.target.value else e.worker.target)),
       Steering(wish.target, wish.motor))
  }

  function SteerStep(e: Engine, env: Env): Engine
    requires e.worker.phase.Steering?
  {
    var Steering(moves, motor) := e.worker.phase;
    match moves
    case None => At(e, Switching(motor))
    case Some(track) =>
      var moved := Position(e, track, env);
      match moved.error
      case Some(error) => NoteError(moved.e, error, Polling)
      case None => At(Healthy(Logged(moved.e, Reached(track))), Switching(motor))
  }

  function SwitchStep(e: Engine, env: Env): Engine
    requires e.worker.phase.Switching?
  {
    match e.worker.phase.wish
    case None => At(e, Polling)
    case Some(wish) =>
      var moved := Position(e, Track(e.worker.target.cylinder, wish.side), env);
      match moved.error
      case Some(error) => NoteError(moved.e, error, Polling)
      case None =>
        match env.call
        case Some(error) => NoteError(moved.e, error, Polling)
        case None =>
          var on := moved.e.(shared := moved.e.shared.(status := moved.e.shared.status.(motorRunning := wish.enabled)));
          At(Healthy(Logged(on, MotorSet(wish))), Polling)
  }

  // ----- status -----

  /** `refresh_status_if_due`, up to the observation of a changed disk. */
  function PollStep(e: Engine, env: Env): Engine {
    if !env.due then At(e, Choosing)
    else
      match env.poll
      case PollFailed(error) => NoteError(e, error, Choosing)
      case Polled(seen) =>
        var news := seen.(cylinder := e.worker.physical.cylinder, side := e.worker.physical.side);
        if e.shared.status.diskPresent == news.diskPresent then At(Logged(e, Reported(news)), Storing(news))
        else
          var saw := Logged(e.(world := e.world.(sightings := e.world.sightings + 1)),
                            Saw(e.world.sightings, news.diskPresent));
          At(Logged(saw, Reported(news)), Clearing(news, e.world.sightings))
  }

  function ClearStep(e: Engine): Engine
    requires e.worker.phase.Clearing?
  {
    At(e.(shared := e.shared.(captures := map[])), Announcing(e.worker.phase.news, e.worker.phase.sighting))
  }

  function AnnounceStep(e: Engine): Engine
    requires e.worker.phase.Announcing?
  {
    At(Emit(e, DiskChanged(e.worker.phase.news.diskPresent, e.worker.phase.sighting)), Storing(e.worker.phase.news))
  }

  function StoreStep(e: Engine): Engine
    requires e.worker.phase.Storing?
  {
    At(Healthy(e.(shared := e.shared.(status := e.worker.phase.news))), Choosing)
  }

  // ----- captures -----

  /** The depth to which a track is stocked: two behind a newest reading that cannot
      be replayed, and otherwise one. */
  function WantedDepth(queue: seq<Capture>): nat {
    if queue != [] && !Reusable(queue[|queue| - 1].quality) then CAPTURES_PER_TRACK else 1
  }

  function QueueOf(captures: Cache, track: Track): seq<Capture> {
    if track in captures then captures[track] else []
  }

  /** The check half of `capture_if_needed`. */
  function ChooseStep(e: Engine): Engine {
    var status, worker := e.shared.status, e.worker;
    if !status.working || !status.motorRunning || !status.diskPresent then At(e, Draining)
    else if worker.wanted.None? || worker.wanted.value != worker.target then At(e, Draining)
    else
      var queue := QueueOf(e.shared.captures, worker.target);
      if worker.target in e.shared.captures && |queue| >= WantedDepth(queue) then At(e, Draining)
      else At(e, Approaching(worker.target))
  }

  function ApproachStep(e: Engine, env: Env): Engine
    requires e.worker.phase.Approaching?
  {
    var track := e.worker.phase.track;
    var moved := Position(e, track, env);
    match moved.error
    case Some(error) => NoteError(moved.e, error, Draining)
    case None => At(moved.e, Reading(track))
  }

  function ReadStep(e: Engine, env: Env): Engine
    requires e.worker.phase.Reading?
  {
    var track := e.worker.phase.track;
    match env.read
    case Publishing(words, bitLen) =>
      var partial := Partial(track, words, bitLen);
      Logged(e.(shared := e.shared.(partial := Some(partial))), Published(partial))
    case ReadFailed(error) =>
      if error.Timeout? then At(Logged(e, Abandoned(track)), Draining)
      else NoteError(Logged(e, Abandoned(track)), error, Draining)
    case Captured(raw) =>
      match GreaseweazleReads.Validated(raw)
      case Err(error) => NoteError(Logged(e, Abandoned(track)), error, Draining)
      case Ok(_) =>
        At(Logged(e, Took(track, e.world.head, e.worker.generation + 1, raw)), Withdrawing(track, raw))
  }

  function QualityOf(raw: GreaseweazleReads.RawCapture): Quality {
    if raw.indexAligned then IndexAligned
    else
      match Scan.ScanOf(raw.words, raw.bitLen)
      case CleanAmigaDos(sectors) => VerifiedAmigaDos(sectors)
      case _ => Unverified
  }

  function WithdrawStep(e: Engine): Engine
    requires e.worker.phase.Withdrawing?
  {
    var Withdrawing(track, raw) := e.worker.phase;
    var generation := e.worker.generation + 1;
    At(Healthy(e.(shared := e.shared.(partial := None),
                  worker := e.worker.(generation := generation))),
       Inserting(track, Capture(raw.words, raw.bitLen, QualityOf(raw), generation)))
  }

  /** Room for a track not yet cached is made at the expense of any other one. */
  predicate NeedsRoom(captures: Cache, track: Track) {
    |captures| >= MAX_CACHED_TRACKS && track !in captures && exists key :: key in captures && key != track
  }

  function Stocked(captures: Cache, track: Track, capture: Capture): Cache {
    var queue := QueueOf(captures, track);
    captures[track := (if |queue| >= CAPTURES_PER_TRACK then queue[1..] else queue) + [capture]]
  }

  /** The finish half of `capture_if_needed`; the map lists some key first. */
  function InsertStep(e: Engine, env: Env): Engine
    requires e.worker.phase.Inserting?
  {
    var Inserting(track, capture) := e.worker.phase;
    var captures := e.shared.captures;
    if NeedsRoom(captures, track) then
      if env.victim in captures && env.victim != track then
        At(e.(shared := e.shared.(captures := Stocked(captures - {env.victim}, track, capture))), Draining)
      else e
    else At(e.(shared := e.shared.(captures := Stocked(captures, track, capture))), Draining)
  }

  /** The end of `run`: the device is told to switch the motor off, whatever it answers,
      and the snapshot no longer says working. */
  function StopStep(e: Engine): Engine {
    At(Logged(e.(shared := e.shared.(status := e.shared.status.(working := false))), MotorOff), Stopped)
  }

  /** One atomic step of the worker. */
  function Work(e: Engine, env: Env): Engine {
    match e.worker.phase
    case Draining => DrainStep(e, env)
    case Placing(_, _) => PlaceStep(e, env)
    case Measuring(_, _) => MeasureStep(e)
    case Writing(_, _, _) => WriteStep(e, env)
    case Evicting(_, _, _) => EvictStep(e)
    case Reporting(_, _, _) => ReportStep(e)
    case Wishing => WishStep(e)
    case Steering(_, _) => SteerStep(e, env)
    case Switching(_) => SwitchStep(e, env)
    case Polling => PollStep(e, env)
    case Clearing(_, _) => ClearStep(e)
    case Announcing(_, _) => AnnounceStep(e)
    case Storing(_) => StoreStep(e)
    case Choosing => ChooseStep(e)
    case Approaching(_) => ApproachStep(e, env)
    case Reading(_) => ReadStep(e, env)
    case Withdrawing(_, _) => WithdrawStep(e)
    case Inserting(_, _) => InsertStep(e, env)
    case Stopping => StopStep(e)
    case Stopped => e
  }

  // ----- the consumer -----

  datatype Bridge = Bridge(nextWrite: nat, maxCylinders: nat, vetted: Option<WriteRequest>, dropped: bool)

  datatype State = State(engine: Engine, bridge: Bridge)

  function ClampTrack(track: Track, maxCylinders: nat): Track {
    track.(cylinder := Min(track.cylinder, Max(maxCylinders - 1, 0)))
  }

  /** One atomic step of the consumer. Calls that take several locks are several steps. */
  datatype Ask =
    | SetMotor(side: Side, enabled: bool)
    | Seek(track: Track)
    | Demand(track: Track)
    | Look(track: Track)
    | Glance(track: Track)
    | Pop(track: Track)
    | Vet(request: WriteRequest)
    | Enqueue
    | ClickRequest(side: Side)
    | PollEvent
    | Drop

  /** What has been published is of this track, and not empty. */
  predicate Partially(partial: Option<Partial>, track: Track) {
    partial.Some? && partial.value.track == track && partial.value.bitLen > 0
  }

  function WithDesired(e: Engine, desired: Desired): Engine {
    e.(shared := e.shared.(desired := desired))
  }

  /** The checks `submit_write` makes before it queues anything. */
  function Vetted(e: Engine, request: WriteRequest): (r: Result<WriteRequest>) {
    if request.words == [] then Err(InvalidConfig)
    else if request.bitLen == 0 || request.bitLen > |request.words| * 16 then Err(InvalidConfig)
    else if request.bitLen > MAX_TRACK_BITS then Err(TrackTooLarge(request.bitLen, MAX_TRACK_BITS))
    else if e.shared.status.writeProtected then Err(WriteProtected)
    else
      var known := TrackBits(e.shared.captures, request.track, 0);
      if known > 0 && !FromIndex(request.startBit, known) && !WholeRevolution(request.bitLen, known) then
        Err(UnplaceablePartialWrite(request.startBit, known))
      else Ok(request)
  }

  /** The command channel takes a command while the worker lives and there is room. */
  predicate Accepts(e: Engine) {
    !e.worker.phase.Stopped? && |e.shared.commands| < COMMAND_CAPACITY
  }

  function Queued(e: Engine, command: Command): Engine {
    e.(shared := e.shared.(commands := e.shared.commands + [command]))
  }

  function Consume(s: State, ask: Ask): State {
    if s.bridge.dropped then s
    else
      var e, desired, captures := s.engine, s.engine.shared.desired, s.engine.shared.captures;
      match ask
      case SetMotor(side, enabled) =>
        var wish := MotorWish(side, enabled);
        s.(engine := Logged(WithDesired(e, desired.(motor := Some(wish))), Switched(wish)))
      case Seek(track) =>
        var aim := ClampTrack(track, s.bridge.maxCylinders);
        s.(engine := Logged(WithDesired(e, desired.(target := Some(aim))), Aimed(aim, false)))
      case Demand(track) =>
        var aim := ClampTrack(track, s.bridge.maxCylinders);
        s.(engine := Logged(WithDesired(e, desired.(target := Some(aim), wanted := Some(aim))), Aimed(aim, true)))
      case Look(track) =>
        var at := ClampTrack(track, s.bridge.maxCylinders);
        if QueueOf(captures, at) == [] then s
        else s.(engine := Logged(e, Served(at, captures[at][0].generation)))
      case Glance(track) =>
        if Partially(e.shared.partial, ClampTrack(track, s.bridge.maxCylinders)) then
          s.(engine := Logged(e, Glimpsed(e.shared.partial.value)))
        else s
      case Pop(track) =>
        var at := ClampTrack(track, s.bridge.maxCylinders);
        if QueueOf(captures, at) == [] then s
        else
          s.(engine := Logged(e.(shared := e.shared.(captures := captures[at := captures[at][1..]])),
                              Retired(at, captures[at][0].generation)))
      case Vet(request) =>
        var clamped := request.(track := ClampTrack(request.track, s.bridge.maxCylinders));
        s.(bridge := s.bridge.(vetted := match Vetted(e, clamped) case Ok(r) => Some(r) case Err(_) => None))
      case Enqueue =>
        if s.bridge.vetted.None? then s
        else if !Accepts(e) then
          State(e, s.bridge.(vetted := None, nextWrite := s.bridge.nextWrite + 1))
        else
          var id, request := s.bridge.nextWrite, s.bridge.vetted.value;
          State(Logged(Queued(e, Write(id, request)), Accepted(id, request)),
                s.bridge.(vetted := None, nextWrite := id + 1))
      case ClickRequest(side) =>
        if Accepts(e) then s.(engine := Queued(e, NoClick(side))) else s
      case PollEvent =>
        if e.shared.events == [] then s
        else
          var polled := e.(shared := e.shared.(events := e.shared.events[1..]));
          s.(engine := match e.shared.events[0]
                       case WriteCompleted(id, track, _) => Logged(polled, Seen(id, track))
                       case WriteFailed(id, track, _) => Logged(polled, Seen(id, track))
                       case DiskChanged(present, sighting) => Logged(polled, Warned(sighting, present))
                       case Disconnection(error) => Logged(polled, Parted(error)))
      case Drop =>
        if e.worker.phase.Stopped? then s.(bridge := s.bridge.(dropped := true))
        else if |e.shared.commands| < COMMAND_CAPACITY then
          State(Queued(e, Shutdown), s.bridge.(dropped := true))
        else s
  }

  // ----- runs -----

  datatype Step = WorkerStep(env: Env) | ConsumerStep(ask: Ask)

  function Next(s: State, step: Step): State {
    match step
    case WorkerStep(env) => s.(engine := Work(s.engine, env))
    case ConsumerStep(ask) => Consume(s, ask)
  }

  function Begin(status: Status, head: Track, maxCylinders: nat): State {
    State(Engine(Shared(status, map[], NO_WISH, None, [], []),
                 Worker(HOME, None, HOME, false, false, 0, 0, Draining),
                 World(head, 0, [])),
          Bridge(1, maxCylinders, None, false))
  }

  /** The state after any interleaving of worker and consumer steps. */
  function Run(s: State, steps: seq<Step>): State {
    if steps == [] then s else Next(Run(s, steps[..|steps| - 1]), steps[|steps| - 1])
  }
}
