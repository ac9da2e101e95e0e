/** The controller as the objects it is made of. Each method is one step between
    two acquisitions of a shared lock, proved to do exactly what the state machine
    says; a whole session of them is proved to be one of its runs. */
module ControllerObjects {
  import opened Common
  import opened Controller
  import GreaseweazleReads
  import Scan

  /** What the worker and the bridge share. */
  class SharedState {
    var status: Status
    var captures: Cache
    var desired: Desired
    var partial: Option<Partial>
    var commands: seq<Command>
    var events: seq<Event>

    constructor (initial: Status)
      ensures View() == Shared(initial, map[], NO_WISH, None, [], [])
    {
      status, captures, desired, partial, commands, events := initial, map[], NO_WISH, None, [], [];
    }

    ghost function View(): Shared
      reads this
    {
      Shared(status, captures, desired, partial, commands, events)
    }

    /** An event is dropped when the queue is full. */
    method Send(event: Event)
      modifies this`events
      ensures events == Sent(old(events), event)
    {
      if |events| < EVENT_CAPACITY {
        events := events + [event];
      }
    }
  }

  /** The device: where its head really is, and what it has been through. */
  class Drive {
    var head: Track
    var sightings: nat
    ghost var log: seq<Act>

    constructor (initial: Track)
      ensures View() == World(initial, 0, [])
    {
      head, sightings, log := initial, 0, [];
    }

    ghost function View(): World
      reads this
    {
      World(head, sightings, log)
    }

    ghost method Record(act: Act)
      modifies this`log
      ensures log == old(log) + [act]
    {
      log := log + [act];
    }

    method Seek(cylinder: nat, reply: Reply) returns (error: Option<Error>)
      modifies this`head, this`log
      ensures log == old(log) + [Sought(cylinder)]
      ensures error == match reply case Done => None case Failed(e, _) => Some(e)
      ensures head == match reply
        case Done => old(head).(cylinder := cylinder)
        case Failed(_, astray) => if astray.Some? then astray.value else old(head)
    {
      Record(Sought(cylinder));
      match reply
      case Done =>
        head := head.(cylinder := cylinder);
        error := None;
      case Failed(e, astray) =>
        if astray.Some? {
          head := astray.value;
        }
        error := Some(e);
    }

    method SelectSide(side: Side, reply: Reply) returns (error: Option<Error>)
      modifies this`head
      ensures error == match reply case Done => None case Failed(e, _) => Some(e)
      ensures head == match reply
        case Done => old(head).(side := side)
        case Failed(_, astray) => if astray.Some? then astray.value else old(head)
    {
      match reply
      case Done =>
        head := head.(side := side);
        error := None;
      case Failed(e, astray) =>
        if astray.Some? {
          head := astray.value;
        }
        error := Some(e);
    }
  }

  lemma NoteErrorIs(e: Engine, counted: Engine, error: Error, next: Phase)
    requires counted == Logged(e.(worker := e.worker.(errors := e.worker.errors + 1)), Noted(error))
    ensures Controller.NoteError(e, error, next)
         == if Fatal(error) || counted.worker.errors >= MAX_CONSECUTIVE_ERRORS
            then Controller.Disconnect(counted, error) else At(counted, next)
  {
  }

  /** The one thread that owns the device. `phase` is where it stands in its loop. */
  class Worker {
    const shared: SharedState
    const drive: Drive
    var target: Track
    var wanted: Option<Track>
    var physical: Track
    var positioned: bool
    var failed: bool
    var errors: nat
    var generation: nat
    var phase: Phase

    constructor (shared: SharedState, drive: Drive)
      ensures this.shared == shared && this.drive == drive
      ensures View() == Controller.Worker.Worker(HOME, None, HOME, false, false, 0, 0, Draining)
    {
      this.shared, this.drive := shared, drive;
      target, wanted, physical, positioned := HOME, None, HOME, false;
      failed, errors, generation, phase := false, 0, 0, Draining;
    }

    ghost function View(): Controller.Worker
      reads this
    {
      Controller.Worker.Worker(target, wanted, physical, positioned, failed, errors, generation, phase)
    }

    ghost function Whole(): Engine
      reads this, shared, drive
    {
      Engine(shared.View(), View(), drive.View())
    }

    method Disconnect(error: Error)
      modifies this`failed, this`phase, shared`status, shared`events, drive`log
      ensures Whole() == Controller.Disconnect(old(Whole()), error)
    {
      failed := true;
      shared.status := shared.status.(working := false);
      shared.Send(Disconnection(error));
      drive.Record(Gone(error));
      phase := Stopping;
    }

    method CountError(error: Error)
      modifies this`errors, drive`log
      ensures errors == old(errors) + 1
      ensures var was := old(Whole()); Whole() == Logged(was.(worker := was.worker.(errors := errors)), Noted(error))
    {
      errors := errors + 1;
      drive.Record(Noted(error));
    }

    method NoteError(error: Error, next: Phase)
      modifies this`errors, this`failed, this`phase, shared`status, shared`events, drive`log
      ensures Whole() == Controller.NoteError(old(Whole()), error, next)
    {
      CountError(error);
      NoteErrorIs(old(Whole()), Whole(), error, next);
      if Fatal(error) || errors >= MAX_CONSECUTIVE_ERRORS {
        Disconnect(error);
      } else {
        phase := next;
      }
    }

    method ClearErrors()
      modifies this`errors, drive`log
      ensures Whole() == Controller.Healthy(old(Whole()))
    {
      errors := 0;
      drive.Record(Cleared);
    }

    method Position(track: Track, env: Env) returns (error: Option<Error>)
      modifies this`physical, this`positioned, shared`status, drive`head, drive`log
      ensures Moved(Whole(), error) == Controller.Position(old(Whole()), track, env)
    {
      error := None;
      if !positioned || physical.cylinder != track.cylinder {
        error := drive.Seek(track.cylinder, env.seek);
        if error.Some? {
          return;
        }
        physical := physical.(cylinder := track.cylinder);
      }
      if !positioned || physical.side != track.side {
        error := drive.SelectSide(track.side, env.select);
        if error.Some? {
          return;
        }
        physical := physical.(side := track.side);
      }
      positioned := true;
      shared.status := shared.status.(cylinder := physical.cylinder, side := physical.side);
    }

    // ----- commands and writes -----

    method Drain(env: Env)
      requires phase.Draining?
      modifies this, shared, drive
      ensures Whole() == DrainStep(old(Whole()), env)
    {
      if shared.commands == [] {
        phase := Wishing;
        return;
      }
      var command := shared.commands[0];
      shared.commands := shared.commands[1..];
      match command
      case Shutdown => phase := Stopping;
      case Write(id, request) => phase := Placing(id, request);
      case NoClick(side) =>
        var error := drive.SelectSide(side, env.select);
        if error.None? {
          error := env.call;
        }
        if error.Some? {
          NoteError(error.value, Draining);
        }
    }

    method PlaceWrite(env: Env)
      requires phase.Placing?
      modifies this, shared, drive
      ensures Whole() == PlaceStep(old(Whole()), env)
    {
      var Placing(id, request) := phase;
      drive.Record(Placed(id, request.track, drive.head, if positioned then Some(physical) else None));
      var error := Position(request.track, env);
      if error.Some? {
        drive.Record(Misplaced(id, error.value));
        phase := Evicting(id, request, error);
      } else {
        phase := Measuring(id, request);
      }
    }

    method MeasureWrite()
      requires phase.Measuring?
      modifies this`phase, drive`log
      ensures Whole() == MeasureStep(old(Whole()))
    {
      var Measuring(id, request) := phase;
      var trackBits := request.bitLen;
      if request.track in shared.captures && shared.captures[request.track] != [] {
        trackBits := shared.captures[request.track][0].bitLen;
      }
      var fromIndex := request.startBit <= INDEX_WRITE_SLACK_BITS
                       || request.startBit + INDEX_WRITE_SLACK_BITS >= trackBits;
      var wholeRevolution := request.bitLen + 16 >= trackBits;
      drive.Record(Measured(id, trackBits));
      if !fromIndex && !wholeRevolution {
        phase := Evicting(id, request, Some(UnplaceablePartialWrite(request.startBit, trackBits)));
      } else {
        phase := Writing(id, request, fromIndex);
      }
    }

    method WriteTrack(env: Env)
      requires phase.Writing?
      modifies this`phase, drive`log
      ensures Whole() == WriteStep(old(Whole()), env)
    {
      var Writing(id, request, fromIndex) := phase;
      drive.Record(Wrote(id, request, fromIndex, drive.head, env.call));
      phase := Evicting(id, request, env.call);
    }

    method EvictTrack()
      requires phase.Evicting?
      modifies this`phase, shared`captures, drive`log
      ensures Whole() == EvictStep(old(Whole()))
    {
      var Evicting(id, request, outcome) := phase;
      shared.captures := shared.captures - {request.track};
      drive.Record(Performed(id, request));
      phase := Reporting(id, request, outcome);
    }

    method ReportWrite()
      requires phase.Reporting?
      modifies this`phase, shared`events
      ensures Whole() == ReportStep(old(Whole()))
    {
      var Reporting(id, request, outcome) := phase;
      match outcome {
        case None => shared.Send(WriteCompleted(id, request.track, request.bitLen));
        case Some(error) => shared.Send(WriteFailed(id, request.track, error));
      }
      phase := Draining;
    }

    // ----- wishes -----

    method TakeWishes()
      requires phase.Wishing?
      modifies this, shared`desired
      ensures Whole() == WishStep(old(Whole()))
    {
      var wish := shared.desired;
      shared.desired := NO_WISH;
      if wish.wanted.Some? {
        wanted := wish.wanted;
      }
      if wish.target.Some? {
        target := wish.target.value;
      }
      phase := Steering(wish.target, wish.motor);
    }

    method Steer(env: Env)
      requires phase.Steering?
      modifies this, shared, drive
      ensures Whole() == SteerStep(old(Whole()), env)
    {
      var Steering(moves, motor) := phase;
      if moves.Some? {
        var error := Position(moves.value, env);
        if error.Some? {
          NoteError(error.value, Polling);
          return;
        }
        drive.Record(Reached(moves.value));
        ClearErrors();
      }
      phase := Switching(motor);
    }

    method SwitchMotor(env: Env)
      requires phase.Switching?
      modifies this, shared, drive
      ensures Whole() == SwitchStep(old(Whole()), env)
    {
      var Switching(wish) := phase;
      if wish.Some? {
        var error := Position(Track(target.cylinder, wish.value.side), env);
        if error.None? {
          error := env.call;
        }
        if error.Some? {
          NoteError(error.value, Polling);
          return;
        }
        shared.status := shared.status.(motorRunning := wish.value.enabled);
        drive.Record(MotorSet(wish.value));
        ClearErrors();
      }
      phase := Polling;
    }

    // ----- status -----

    method PollStatus(env: Env)
      requires phase.Polling?
      modifies this, shared, drive
      ensures Whole() == PollStep(old(Whole()), env)
    {
      if !env.due {
        phase := Choosing;
        return;
      }
      match env.poll
      case PollFailed(error) => NoteError(error, Choosing);
      case Polled(seen) =>
        var news := seen.(cylinder := physical.cylinder, side := physical.side);
        if shared.status.diskPresent != news.diskPresent {
          drive.Record(Saw(drive.sightings, news.diskPresent));
          drive.Record(Reported(news));
          phase := Clearing(news, drive.sightings);
          drive.sightings := drive.sightings + 1;
        } else {
          drive.Record(Reported(news));
          phase := Storing(news);
        }
    }
  
    method ClearCache()
      requires phase.Clearing?
      modifies this`phase, shared`captures
      ensures Whole() == ClearStep(old(Whole()))
    {
      shared.captures := map[];
      phase := Announcing(phase.news, phase.sighting);
    }

    method AnnounceDisk()
      requires phase.Announcing?
      modifies this`phase, shared`events
      ensures Whole() == AnnounceStep(old(Whole()))
    {
      shared.Send(DiskChanged(phase.news.diskPresent, phase.sighting));
      phase := Storing(phase.news);
    }

    method StoreStatus()
      requires phase.Storing?
      modifies this, shared`status, drive`log
      ensures Whole() == StoreStep(old(Whole()))
    {
      shared.status := phase.news;
      ClearErrors();
      phase := Choosing;
    }

    // ----- captures -----

    method ChooseTrack()
      requires phase.Choosing?
      modifies this`phase
      ensures Whole() == ChooseStep(old(Whole()))
    {
      phase := Draining;
      var status := shared.status;
      if !status.working || !status.motorRunning || !status.diskPresent {
        return;
      }
      if wanted.None? || wanted.value != target {
        return;
      }
      var demanded := wanted.value;
      var full := false;
      if demanded in shared.captures {
        var queue := shared.captures[demanded];
        var depth := if queue != [] && !Reusable(queue[|queue| - 1].quality) then CAPTURES_PER_TRACK else 1;
        full := |queue| >= depth;
      }
      if !full {
        phase := Approaching(demanded);
      }
    }

    method Approach(env: Env)
      requires phase.Approaching?
      modifies this, shared, drive
      ensures Whole() == ApproachStep(old(Whole()), env)
    {
      var track := phase.track;
      var error := Position(track, env);
      if error.Some? {
        NoteError(error.value, Draining);
      } else {
        phase := Reading(track);
      }
    }

    method ReadTrack(env: Env)
      requires phase.Reading?
      modifies this, shared, drive
      ensures Whole() == ReadStep(old(Whole()), env)
    {
      var track := phase.track;
      match env.read
      case Publishing(words, bitLen) =>
        shared.partial := Some(Partial(track, words, bitLen));
        drive.Record(Published(Partial(track, words, bitLen)));
      case ReadFailed(error) =>
        drive.Record(Abandoned(track));
        if error.Timeout? {
          phase := Draining;
        } else {
          NoteError(error, Draining);
        }
      case Captured(raw) =>
        var checked := GreaseweazleReads.Validated(raw);
        if checked.Err? {
          drive.Record(Abandoned(track));
          NoteError(checked.error, Draining);
        } else {
          drive.Record(Took(track, drive.head, generation + 1, raw));
          phase := Withdrawing(track, raw);
        }
    }

    /** Withdraws the partial capture and judges the finished one. */
    method Withdraw()
      requires phase.Withdrawing?
      modifies this, shared`partial, drive`log
      ensures Whole() == WithdrawStep(old(Whole()))
    {
      var Withdrawing(track, raw) := phase;
      shared.partial := None;
      ClearErrors();
      generation := generation + 1;
      var quality := IndexAligned;
      if !raw.indexAligned {
        var verdict := Scan.ScanRevolution(raw.words, raw.bitLen);
        match verdict {
          case CleanAmigaDos(sectors) => quality := VerifiedAmigaDos(sectors);
          case _ => quality := Unverified;
        }
      }
      phase := Inserting(track, Capture(raw.words, raw.bitLen, quality, generation));
    }

    method Insert(env: Env)
      requires phase.Inserting?
      modifies this`phase, shared`captures
      ensures Whole() == InsertStep(old(Whole()), env)
    {
      var Inserting(track, capture) := phase;
      var cache := shared.captures;
      if NeedsRoom(cache, track) {
        if env.victim !in cache || env.victim == track {
          return;
        }
        cache := cache - {env.victim};
      }
      var queue := if track in cache then cache[track] else [];
      if |queue| >= CAPTURES_PER_TRACK {
        queue := queue[1..];
      }
      queue := queue + [capture];
      shared.captures := cache[track := queue];
      phase := Draining;
    }

    method Stop()
      requires phase.Stopping?
      modifies this`phase, shared`status, drive`log
      ensures Whole() == StopStep(old(Whole()))
    {
      drive.Record(MotorOff);
      shared.status := shared.status.(working := false);
      phase := Stopped;
    }

    method AdvanceWrite(env: Env)
      requires phase.Placing? || phase.Measuring? || phase.Writing? || phase.Evicting? || phase.Reporting?
      modifies this, shared, drive
      ensures Whole() == Work(old(Whole()), env)
    {
      match phase
      case Placing(_, _) => PlaceWrite(env);
      case Measuring(_, _) => MeasureWrite();
      case Writing(_, _, _) => WriteTrack(env);
      case Evicting(_, _, _) => EvictTrack();
      case Reporting(_, _, _) => ReportWrite();
    }

    method AdvanceWishes(env: Env)
      requires phase.Wishing? || phase.Steering? || phase.Switching?
      modifies this, shared, drive
      ensures Whole() == Work(old(Whole()), env)
    {
      match phase
      case Wishing => TakeWishes();
      case Steering(_, _) => Steer(env);
      case Switching(_) => SwitchMotor(env);
    }

    method AdvanceStatus(env: Env)
      requires phase.Polling? || phase.Clearing? || phase.Announcing? || phase.Storing?
      modifies this, shared, drive
      ensures Whole() == Work(old(Whole()), env)
    {
      match phase
      case Polling => PollStatus(env);
      case Clearing(_, _) => ClearCache();
      case Announcing(_, _) => AnnounceDisk();
      case Storing(_) => StoreStatus();
    }

    method AdvanceCheck(env: Env)
      requires phase.Choosing? || phase.Approaching? || phase.Reading?
      modifies this, shared, drive
      ensures Whole() == Work(old(Whole()), env)
    {
      match phase
      case Choosing => ChooseTrack();
      case Approaching(_) => Approach(env);
      case Reading(_) => ReadTrack(env);
    }

    method AdvanceFinish(env: Env)
      requires phase.Withdrawing? || phase.Inserting?
      modifies this, shared, drive
      ensures Whole() == Work(old(Whole()), env)
    {
      match phase
      case Withdrawing(_, _) => Withdraw();
      case Inserting(_, _) => Insert(env);
    }

    /** The next step of the loop in `run`, wherever it stands. */
    method Advance(env: Env)
      modifies this, shared, drive
      ensures Whole() == Work(old(Whole()), env)
    {
      if phase.Draining? {
        Drain(env);
      } else if phase.Stopping? {
        Stop();
      } else if phase.Placing? || phase.Measuring? || phase.Writing? || phase.Evicting? || phase.Reporting? {
        AdvanceWrite(env);
      } else if phase.Wishing? || phase.Steering? || phase.Switching? {
        AdvanceWishes(env);
      } else if phase.Polling? || phase.Clearing? || phase.Announcing? || phase.Storing? {
        AdvanceStatus(env);
      } else if phase.Choosing? || phase.Approaching? || phase.Reading? {
        AdvanceCheck(env);
      } else if phase.Withdrawing? || phase.Inserting? {
        AdvanceFinish(env);
      }
    }
  }

  /** The consumer's end. A call that takes several locks is proved as those steps
      in a row; `Serve` takes them one at a time, with the worker in between. */
  class Bridge {
    const shared: SharedState
    const worker: Worker
    const maxCylinders: nat
    var nextWrite: nat
    var vetted: Option<WriteRequest>
    var dropped: bool

    constructor (worker: Worker, maxCylinders: nat)
      ensures this.worker == worker && this.shared == worker.shared
      ensures View() == Controller.Bridge.Bridge(1, maxCylinders, None, false)
    {
      this.worker, this.shared, this.maxCylinders := worker, worker.shared, maxCylinders;
      nextWrite, vetted, dropped := 1, None, false;
    }

    ghost function View(): Controller.Bridge
      reads this
    {
      Controller.Bridge.Bridge(nextWrite, maxCylinders, vetted, dropped)
    }

    ghost function Whole(): State
      reads this, worker, worker.shared, worker.drive
    {
      State(worker.Whole(), View())
    }

    predicate Open()
      reads this
    {
      shared == worker.shared && !dropped
    }

    method SetMotor(side: Side, enabled: bool)
      requires Open()
      modifies shared`desired, worker.drive`log
      ensures Whole() == Consume(old(Whole()), Ask.SetMotor(side, enabled))
    {
      shared.desired := shared.desired.(motor := Some(MotorWish(side, enabled)));
      worker.drive.Record(Switched(MotorWish(side, enabled)));
    }

    method Seek(track: Track)
      requires Open()
      modifies shared`desired, worker.drive`log
      ensures Whole() == Consume(old(Whole()), Ask.Seek(track))
    {
      var aim := ClampTrack(track, maxCylinders);
      shared.desired := shared.desired.(target := Some(aim));
      worker.drive.Record(Aimed(aim, false));
    }

    method Demand(track: Track)
      requires Open()
      modifies shared`desired, worker.drive`log
      ensures Whole() == Consume(old(Whole()), Ask.Demand(track))
    {
      var aim := ClampTrack(track, maxCylinders);
      shared.desired := shared.desired.(target := Some(aim), wanted := Some(aim));
      worker.drive.Record(Aimed(aim, true));
    }

    method Look(track: Track) returns (capture: Option<Capture>)
      requires Open()
      modifies worker.drive`log
      ensures Whole() == Consume(old(Whole()), Ask.Look(track))
      ensures var queue := QueueOf(shared.captures, ClampTrack(track, maxCylinders));
        capture == if queue == [] then None else Some(queue[0])
    {
      var at := ClampTrack(track, maxCylinders);
      if at !in shared.captures || shared.captures[at] == [] {
        return None;
      }
      capture := Some(shared.captures[at][0]);
      worker.drive.Record(Served(at, capture.value.generation));
    }

    /** `read_track`: names the track, then serves its oldest reading, if any. */
    method ReadTrack(track: Track) returns (capture: Option<Capture>)
      requires Open()
      modifies shared`desired, worker.drive`log
      ensures Whole() == Consume(Consume(old(Whole()), Ask.Demand(track)), Ask.Look(track))
      ensures var queue := QueueOf(shared.captures, ClampTrack(track, maxCylinders));
        capture == if queue == [] then None else Some(queue[0])
    {
      Demand(track);
      capture := Look(track);
    }

    /** `partial_track`: what has been published of a capture under way. */
    method PartialTrack(track: Track) returns (partial: Option<(seq<bv16>, nat)>)
      requires Open()
      modifies worker.drive`log
      ensures Whole() == Consume(old(Whole()), Ask.Glance(track))
      ensures partial.Some? <==> shared.partial.Some? && shared.partial.value.bitLen > 0
                                 && shared.partial.value.track == ClampTrack(track, maxCylinders)
      ensures partial.Some? ==> partial.value == (shared.partial.value.words, shared.partial.value.bitLen)
    {
      partial := None;
      if shared.partial.Some? {
        var held := shared.partial.value;
        if held.track == ClampTrack(track, maxCylinders) && held.bitLen > 0 {
          partial := Some((held.words, held.bitLen));
          worker.drive.Record(Glimpsed(held));
        }
      }
    }

    method Pop(track: Track)
      requires Open()
      modifies shared`captures, worker.drive`log
      ensures Whole() == Consume(old(Whole()), Ask.Pop(track))
    {
      var at := ClampTrack(track, maxCylinders);
      if at in shared.captures && shared.captures[at] != [] {
        var queue := shared.captures[at];
        shared.captures := shared.captures[at := queue[1..]];
        worker.drive.Record(Retired(at, queue[0].generation));
      }
    }

    /** `advance_revolution`: retires the oldest reading and asks for another. */
    method AdvanceRevolution(track: Track)
      requires Open()
      modifies shared`captures, shared`desired, worker.drive`log
      ensures Whole() == Consume(Consume(old(Whole()), Ask.Pop(track)), Ask.Demand(track))
    {
      Pop(track);
      Demand(track);
    }

    method Vet(request: WriteRequest) returns (error: Option<Error>)
      requires Open()
      modifies this`vetted
      ensures Whole() == Consume(old(Whole()), Ask.Vet(request))
      ensures var clamped := request.(track := ClampTrack(request.track, maxCylinders));
        error == match Vetted(worker.Whole(), clamped) case Ok(_) => None case Err(e) => Some(e)
    {
      var clamped := request.(track := ClampTrack(request.track, maxCylinders));
      vetted := None;
      if |clamped.words| == 0 {
        return Some(InvalidConfig);
      }
      if clamped.bitLen == 0 || clamped.bitLen > |clamped.words| * 16 {
        return Some(InvalidConfig);
      }
      if clamped.bitLen > MAX_TRACK_BITS {
        return Some(TrackTooLarge(clamped.bitLen, MAX_TRACK_BITS));
      }
      if shared.status.writeProtected {
        return Some(Error.WriteProtected);
      }
      var known := 0;
      if clamped.track in shared.captures && shared.captures[clamped.track] != [] {
        known := shared.captures[clamped.track][0].bitLen;
      }
      if known > 0 {
        var fromIndex := clamped.startBit <= INDEX_WRITE_SLACK_BITS || clamped.startBit + INDEX_WRITE_SLACK_BITS >= known;
        var wholeRevolution := clamped.bitLen + 16 >= known;
        if !fromIndex && !wholeRevolution {
          return Some(UnplaceablePartialWrite(clamped.startBit, known));
        }
      }
      vetted := Some(clamped);
      return None;
    }

    /** The identifier is used up whether or not the queue has room. */
    method Enqueue() returns (r: Result<nat>)
      requires Open() && vetted.Some?
      modifies this`vetted, this`nextWrite, shared`commands, worker.drive`log
      ensures Whole() == Consume(old(Whole()), Ask.Enqueue)
      ensures r == if old(worker.phase.Stopped?) then Err(WorkerStopped)
                   else if old(|shared.commands|) >= COMMAND_CAPACITY then Err(InvalidConfig)
                   else Ok(old(nextWrite))
      ensures nextWrite == old(nextWrite) + 1 && vetted.None?
    {
      var id, request := nextWrite, vetted.value;
      nextWrite := nextWrite + 1;
      vetted := None;
      if worker.phase.Stopped? {
        return Err(WorkerStopped);
      }
      if |shared.commands| >= COMMAND_CAPACITY {
        return Err(InvalidConfig);
      }
      shared.commands := shared.commands + [Write(id, request)];
      worker.drive.Record(Accepted(id, request));
      return Ok(id);
    }

    /** `submit_write`: a write is queued only if it passes every check. */
    method SubmitWrite(request: WriteRequest) returns (r: Result<nat>)
      requires Open()
      modifies this, shared`commands, worker.drive`log
      ensures var vetting := Consume(old(Whole()), Ask.Vet(request));
        Whole() == if vetting.bridge.vetted.Some? then Consume(vetting, Ask.Enqueue) else vetting
      ensures r == match Vetted(old(worker.Whole()), request.(track := ClampTrack(request.track, maxCylinders)))
        case Err(e) => Err(e)
        case Ok(_) =>
          if worker.phase.Stopped? then Err(WorkerStopped)
          else if |old(shared.commands)| >= COMMAND_CAPACITY then Err(InvalidConfig)
          else Ok(old(nextWrite))
      ensures r.Ok? ==> shared.commands == old(shared.commands)
                          + [Write(r.value, request.(track := ClampTrack(request.track, maxCylinders)))]
      ensures var queue := QueueOf(shared.captures, ClampTrack(request.track, maxCylinders));
        r.Ok? <==>
          && 0 < request.bitLen <= |request.words| * 16 && request.bitLen <= 237_568
          && !shared.status.writeProtected && !worker.phase.Stopped? && |old(shared.commands)| < 64
          && (queue == [] || request.startBit <= 30 || request.startBit + 30 >= queue[0].bitLen
              || request.bitLen + 16 >= queue[0].bitLen)
      ensures nextWrite == old(nextWrite) + (if Consume(old(Whole()), Ask.Vet(request)).bridge.vetted.Some? then 1 else 0)
    {
      var error := Vet(request);
      if error.Some? {
        return Err(error.value);
      }
      r := Enqueue();
    }

    method NoClickStep(side: Side) returns (r: Result<()>)
      requires Open()
      modifies shared`commands
      ensures Whole() == Consume(old(Whole()), ClickRequest(side))
      ensures r.Ok? <==> !worker.phase.Stopped? && |old(shared.commands)| < COMMAND_CAPACITY
    {
      if worker.phase.Stopped? {
        return Err(WorkerStopped);
      }
      if |shared.commands| >= COMMAND_CAPACITY {
        return Err(InvalidConfig);
      }
      shared.commands := shared.commands + [NoClick(side)];
      return Ok(());
    }

    method PollEvent() returns (event: Option<Event>)
      requires Open()
      modifies shared`events, worker.drive`log
      ensures Whole() == Consume(old(Whole()), Ask.PollEvent)
      ensures event == if old(shared.events) == [] then None else Some(old(shared.events[0]))
    {
      if shared.events == [] {
        return None;
      }
      event := Some(shared.events[0]);
      shared.events := shared.events[1..];
      match event.value
      case WriteCompleted(id, track, _) => worker.drive.Record(Seen(id, track));
      case WriteFailed(id, track, _) => worker.drive.Record(Seen(id, track));
      case DiskChanged(present, sighting) => worker.drive.Record(Warned(sighting, present));
      case Disconnection(error) => worker.drive.Record(Parted(error));
    }

    /** `drop` blocks while the queue is full and the worker lives. */
    method Close()
      requires Open()
      modifies this`dropped, shared`commands
      ensures Whole() == Consume(old(Whole()), Drop)
    {
      if worker.phase.Stopped? {
        dropped := true;
      } else if |shared.commands| < COMMAND_CAPACITY {
        shared.commands := shared.commands + [Shutdown];
        dropped := true;
      }
    }

    method Serve(ask: Ask)
      requires shared == worker.shared
      modifies this, shared, worker.drive
      ensures Whole() == Consume(old(Whole()), ask)
    {
      if dropped {
        return;
      }
      match ask
      case SetMotor(side, enabled) => SetMotor(side, enabled);
      case Seek(track) => Seek(track);
      case Demand(track) => Demand(track);
      case Look(track) => var _ := Look(track);
      case Glance(track) => var _ := PartialTrack(track);
      case Pop(track) => Pop(track);
      case Vet(request) => var _ := Vet(request);
      case Enqueue => if vetted.Some? { var _ := Enqueue(); }
      case ClickRequest(side) => var _ := NoClickStep(side);
      case PollEvent => var _ := PollEvent();
      case Drop => Close();
    }
  }

  /** A whole session, in any interleaving, is a run of the state machine: what is
      proved of every run holds of the objects. */
  method Session(status: Status, head: Track, maxCylinders: nat, steps: seq<Step>) returns (bridge: Bridge)
    ensures bridge.Whole() == Run(Begin(status, head, maxCylinders), steps)
  {
    var shared := new SharedState(status);
    var drive := new Drive(head);
    var worker := new Worker(shared, drive);
    bridge := new Bridge(worker, maxCylinders);
    ghost var start := Begin(status, head, maxCylinders);
    for k := 0 to |steps|
      invariant fresh(bridge) && fresh(shared) && fresh(worker) && fresh(drive)
      invariant bridge.worker == worker && bridge.shared == shared && worker.shared == shared && worker.drive == drive
      invariant bridge.Whole() == Run(start, steps[..k])
    {
      assert steps[..k + 1][..k] == steps[..k];
      match steps[k] {
        case WorkerStep(env) => worker.Advance(env);
        case ConsumerStep(ask) => bridge.Serve(ask);
      }
    }
    assert steps[..|steps|] == steps;
  }
}
