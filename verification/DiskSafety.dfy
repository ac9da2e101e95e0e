/** What a consumer can rely on once it has heard that the disk was changed: it is
    never served a finished capture of the disk before. */
module DiskSafety {
  import opened Common
  import opened Controller
  import opened ControllerFrames
  import opened FreshnessSafety

  // ----- every announcement is of a change that was seen -----

  predicate Sighted(log: seq<Act>, sighting: nat, present: bool) {
    Saw(sighting, present) in log
  }

  /** Sightings below this number have emptied the cache. */
  function Emptied(e: Engine): nat {
    match e.worker.phase
    case Clearing(_, sighting) => sighting
    case _ => e.world.sightings
  }

  predicate AnnouncesTruly(e: Engine) {
    match e.worker.phase
    case Clearing(news, sighting) =>
      sighting < e.world.sightings && Sighted(e.world.log, sighting, news.diskPresent)
    case Announcing(news, sighting) =>
      sighting < e.world.sightings && Sighted(e.world.log, sighting, news.diskPresent)
    case _ => true
  }

  ghost predicate PostedTruly(events: seq<Event>, log: seq<Act>, emptied: nat) {
    forall i :: 0 <= i < |events| && events[i].DiskChanged? ==>
      events[i].sighting < emptied && Sighted(log, events[i].sighting, events[i].present)
  }

  ghost predicate WarnedTruly(log: seq<Act>, emptied: nat) {
    forall i :: 0 <= i < |log| && log[i].Warned? ==>
      log[i].sighting < emptied && Sighted(log[..i], log[i].sighting, log[i].present)
  }

  ghost predicate Truthful(e: Engine) {
    && AnnouncesTruly(e)
    && PostedTruly(e.shared.events, e.world.log, Emptied(e))
    && WarnedTruly(e.world.log, Emptied(e))
  }

  lemma SightedLater(before: seq<Act>, after: seq<Act>, sighting: nat, present: bool)
    requires before <= after && Sighted(before, sighting, present)
    ensures Sighted(after, sighting, present)
  {
    var i :| 0 <= i < |before| && before[i] == Saw(sighting, present);
    assert after[i] == before[i];
  }

  lemma WarnedLater(before: seq<Act>, after: seq<Act>, m: nat, n: nat)
    requires WarnedTruly(before, m) && before <= after && m <= n
    requires forall i :: |before| <= i < |after| ==> !after[i].Warned?
    ensures WarnedTruly(after, n)
  {
    forall i | 0 <= i < |after| && after[i].Warned?
      ensures after[i].sighting < n && Sighted(after[..i], after[i].sighting, after[i].present)
    {
      assert before[i] == after[i] && before[..i] == after[..i];
    }
  }

  /** Steps that announce no change of disk. */
  lemma TruthfulKept(e: Engine, f: Engine)
    requires Truthful(e) && e.world.log <= f.world.log && Emptied(e) <= Emptied(f)
    requires AnnouncesTruly(f)
    requires forall i :: |e.world.log| <= i < |f.world.log| ==> !f.world.log[i].Warned?
    requires OnlyFailures(e.shared.events, f.shared.events)
    ensures Truthful(f)
  {
    WarnedLater(e.world.log, f.world.log, Emptied(e), Emptied(f));
    forall i | 0 <= i < |f.shared.events| && f.shared.events[i].DiskChanged?
      ensures f.shared.events[i].sighting < Emptied(f)
      ensures Sighted(f.world.log, f.shared.events[i].sighting, f.shared.events[i].present)
    {
      var event := f.shared.events[i];
      var k :| 0 <= k < |e.shared.events| && e.shared.events[k] == event;
      SightedLater(e.world.log, f.world.log, event.sighting, event.present);
    }
  }

  /** A write reported is no announcement either. */
  lemma ReportTruthful(e: Engine)
    requires Truthful(e) && e.worker.phase.Reporting?
    ensures Truthful(ReportStep(e))
  {
  }

  lemma DrainTruthful(e: Engine, env: Env)
    requires Truthful(e) && e.worker.phase.Draining?
    ensures Truthful(DrainStep(e, env))
  {
    if e.shared.commands != [] && e.shared.commands[0].NoClick? {
      var taken := e.(shared := e.shared.(commands := e.shared.commands[1..]));
      ClickFrame(taken, e.shared.commands[0].side, env);
    }
    TruthfulKept(e, DrainStep(e, env));
  }

  lemma PollTruthful(e: Engine, env: Env)
    requires Truthful(e) && e.worker.phase.Polling?
    ensures Truthful(PollStep(e, env))
  {
    var f := PollStep(e, env);
    PollFrame(e, env);
    if f.worker.phase.Clearing? {
      assert f.world.log[|e.world.log|] == Saw(f.worker.phase.sighting, f.worker.phase.news.diskPresent);
    }
    TruthfulKept(e, f);
  }

  lemma AnnounceTruthful(e: Engine)
    requires Truthful(e) && e.worker.phase.Announcing?
    ensures Truthful(AnnounceStep(e))
  {
  }

  lemma WriteTruthful(e: Engine, env: Env)
    requires Truthful(e)
    requires e.worker.phase.Writing? || e.worker.phase.Evicting? || e.worker.phase.Wishing?
    ensures Truthful(Work(e, env))
  {
    TruthfulKept(e, Work(e, env));
  }

  lemma CacheTruthful(e: Engine, env: Env)
    requires Truthful(e)
    requires e.worker.phase.Choosing? || e.worker.phase.Withdrawing? || e.worker.phase.Inserting?
    ensures Truthful(Work(e, env))
  {
    TruthfulKept(e, Work(e, env));
  }

  lemma ClearTruthful(e: Engine)
    requires Truthful(e) && e.worker.phase.Clearing?
    ensures Truthful(ClearStep(e))
  {
    TruthfulKept(e, ClearStep(e));
  }

  lemma ReadTruthful(e: Engine, env: Env)
    requires Truthful(e) && e.worker.phase.Reading?
    ensures Truthful(ReadStep(e, env))
  {
    ReadFrame(e, env);
    TruthfulKept(e, ReadStep(e, env));
  }

  lemma QuietTruthful(e: Engine, env: Env)
    requires Truthful(e) && QuietPhase(e.worker.phase)
    ensures Truthful(Work(e, env))
  {
    if e.worker.phase.Announcing? {
      AnnounceTruthful(e);
    } else {
      WorkIsQuiet(e, env);
      TruthfulKept(e, Work(e, env));
    }
  }

  lemma WorkTruthful(e: Engine, env: Env)
    requires Truthful(e)
    ensures Truthful(Work(e, env))
  {
    match e.worker.phase
    case Draining => DrainTruthful(e, env);
    case Writing(_, _, _) => WriteTruthful(e, env);
    case Evicting(_, _, _) => WriteTruthful(e, env);
    case Reporting(_, _, _) => ReportTruthful(e);
    case Wishing => WriteTruthful(e, env);
    case Polling => PollTruthful(e, env);
    case Clearing(_, _) => ClearTruthful(e);
    case Choosing => CacheTruthful(e, env);
    case Reading(_) => ReadTruthful(e, env);
    case Withdrawing(_, _) => CacheTruthful(e, env);
    case Inserting(_, _) => CacheTruthful(e, env);
    case _ => QuietTruthful(e, env);
  }

  lemma PollEventTruthful(s: State)
    requires Truthful(s.engine) && !s.bridge.dropped && s.engine.shared.events != []
    ensures Truthful(Consume(s, PollEvent).engine)
  {
    var e, f := s.engine, Consume(s, PollEvent).engine;
    var event := e.shared.events[0];
    forall i | 0 <= i < |f.shared.events| && f.shared.events[i].DiskChanged?
      ensures f.shared.events[i].sighting < Emptied(f)
      ensures Sighted(f.world.log, f.shared.events[i].sighting, f.shared.events[i].present)
    {
      assert f.shared.events[i] == e.shared.events[i + 1];
      SightedLater(e.world.log, f.world.log, f.shared.events[i].sighting, f.shared.events[i].present);
    }
    if event.DiskChanged? {
      WarnedNow(e.world.log, event.sighting, event.present, Emptied(e));
    } else {
      WarnedLater(e.world.log, f.world.log, Emptied(e), Emptied(f));
    }
    StillInHand(e, f);
  }

  lemma WarnedNow(log: seq<Act>, sighting: nat, present: bool, emptied: nat)
    requires WarnedTruly(log, emptied) && sighting < emptied && Sighted(log, sighting, present)
    ensures WarnedTruly(log + [Warned(sighting, present)], emptied)
  {
    var after := log + [Warned(sighting, present)];
    forall i | 0 <= i < |after| && after[i].Warned?
      ensures after[i].sighting < emptied && Sighted(after[..i], after[i].sighting, after[i].present)
    {
      if i < |log| {
        assert log[i] == after[i] && log[..i] == after[..i];
      } else {
        assert after[..i] == log;
      }
    }
  }

  lemma StillInHand(e: Engine, f: Engine)
    requires AnnouncesTruly(e) && f.worker == e.worker && f.world.sightings == e.world.sightings
    requires e.world.log <= f.world.log
    ensures AnnouncesTruly(f)
  {
    match e.worker.phase
    case Clearing(news, sighting) => SightedLater(e.world.log, f.world.log, sighting, news.diskPresent);
    case Announcing(news, sighting) => SightedLater(e.world.log, f.world.log, sighting, news.diskPresent);
    case _ =>
  }

  lemma ConsumeTruthful(s: State, ask: Ask)
    requires Truthful(s.engine)
    ensures Truthful(Consume(s, ask).engine)
  {
    if ask.PollEvent? && !s.bridge.dropped && s.engine.shared.events != [] {
      PollEventTruthful(s);
    } else {
      ConsumeFrame(s, ask);
      StillInHand(s.engine, Consume(s, ask).engine);
      TruthfulKept(s.engine, Consume(s, ask).engine);
    }
  }

  /** Over every run, a consumer is told of a change of disk only after it was seen,
      and only after the cache was emptied for it. */
  lemma {:induction false} AnnouncementsAreTrue(status: Status, head: Track, max: nat, steps: seq<Step>)
    ensures Truthful(Run(Begin(status, head, max), steps).engine)
  {
    if steps != [] {
      var front := steps[..|steps| - 1];
      AnnouncementsAreTrue(status, head, max, front);
      var s := Run(Begin(status, head, max), front);
      match steps[|steps| - 1]
      case WorkerStep(env) => WorkTruthful(s.engine, env);
      case ConsumerStep(ask) => ConsumeTruthful(s, ask);
    }
  }

  // ----- what a consumer is served after it -----

  /** The capture was taken after every sighting of a changed disk up to this one. */
  predicate TakenAfter(log: seq<Act>, track: Track, generation: nat, sighting: nat) {
    log != [] &&
    var front, last := log[..|log| - 1], log[|log| - 1];
    || IsTaking(last, track, generation)
    || (!(last.Saw? && last.sighting <= sighting) && TakenAfter(front, track, generation, sighting))
  }

  /** Whatever a consumer was served, it had heard of no change of disk since. */
  ghost predicate NeverOutdated(log: seq<Act>) {
    forall i, j :: 0 <= i < j < |log| && log[i].Warned? && log[j].Served? ==>
      TakenAfter(log[..j], log[j].track, log[j].generation, log[i].sighting)
  }

  lemma {:induction false} FreshIsAfter(log: seq<Act>, track: Track, generation: nat, p: Pending, sighting: nat)
    requires FreshIn(log, track, generation, p)
    requires p.PendingSighting? ==> sighting < p.sighting
    ensures TakenAfter(log, track, generation, sighting)
  {
    if !IsTaking(log[|log| - 1], track, generation) {
      FreshIsAfter(log[..|log| - 1], track, generation, p, sighting);
    }
  }

  lemma LookIsAfter(s: State, track: Track, i: nat)
    requires Fresh(s.engine) && Truthful(s.engine)
    requires QueueOf(s.engine.shared.captures, track) != []
    requires i < |s.engine.world.log| && s.engine.world.log[i].Warned?
    ensures TakenAfter(s.engine.world.log, track, s.engine.shared.captures[track][0].generation,
                       s.engine.world.log[i].sighting)
  {
    FreshIsAfter(s.engine.world.log, track, s.engine.shared.captures[track][0].generation,
                 PendingOf(s.engine.worker.phase), s.engine.world.log[i].sighting);
  }

  lemma NeverOutdatedGrows(before: seq<Act>, after: seq<Act>)
    requires NeverOutdated(before) && before <= after
    requires forall j :: |before| <= j < |after| ==> !after[j].Served?
    ensures NeverOutdated(after)
  {
    forall i, j | 0 <= i < j < |after| && after[i].Warned? && after[j].Served?
      ensures TakenAfter(after[..j], after[j].track, after[j].generation, after[i].sighting)
    {
      assert before[i] == after[i] && before[j] == after[j];
      assert before[..j] == after[..j];
    }
  }

  lemma ConsumeNeverOutdated(s: State, ask: Ask)
    requires Fresh(s.engine) && Truthful(s.engine) && NeverOutdated(s.engine.world.log)
    ensures NeverOutdated(Consume(s, ask).engine.world.log)
  {
    var log, after := s.engine.world.log, Consume(s, ask).engine.world.log;
    ConsumeFrame(s, ask);
    if ask.Look? && after != log {
      var n, track := |log|, after[|log|].track;
      forall i, j | 0 <= i < j < |after| && after[i].Warned? && after[j].Served?
        ensures TakenAfter(after[..j], after[j].track, after[j].generation, after[i].sighting)
      {
        assert log[i] == after[i] && after[..j] == log[..j];
        if j == n {
          assert after[..n] == log;
          LookIsAfter(s, track, i);
        }
      }
    } else {
      NeverOutdatedGrows(log, after);
    }
  }

  /** Over every run, a consumer that has heard of a change of disk is never served
      flux from before that change. */
  lemma {:induction false} ReadsAreOfThisDisk(status: Status, head: Track, max: nat, steps: seq<Step>)
    ensures var log := Run(Begin(status, head, max), steps).engine.world.log;
      && NeverOutdated(log)
      && forall i :: 0 <= i < |log| && log[i].Warned? ==> Sighted(log[..i], log[i].sighting, log[i].present)
  {
    AnnouncementsAreTrue(status, head, max, steps);
    if steps != [] {
      var front := steps[..|steps| - 1];
      ReadsAreOfThisDisk(status, head, max, front);
      AnnouncementsAreTrue(status, head, max, front);
      CacheIsFreshOverRuns(status, head, max, front);
      var s := Run(Begin(status, head, max), front);
      match steps[|steps| - 1]
      case WorkerStep(env) =>
        WorkFrame(s.engine, env);
        NeverOutdatedGrows(s.engine.world.log, Work(s.engine, env).world.log);
      case ConsumerStep(ask) => ConsumeNeverOutdated(s, ask);
    }
  }
}
