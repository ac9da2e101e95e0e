/** Nothing in the cache outlives a write to its track or a change of disk, so a
    consumer that has heard of a write never reads flux from before it. */
module FreshnessSafety {
  import opened Common
  import opened Controller
  import opened ControllerFrames
  import opened WriteSafety

  /** What has happened to the disk that the cache has not yet been told of. */
  datatype Pending = Nothing | PendingWrite(id: nat, track: Track) | PendingSighting(sighting: nat)

  function PendingOf(phase: Phase): Pending {
    match phase
    case Evicting(id, request, _) => PendingWrite(id, request.track)
    case Clearing(_, sighting) => PendingSighting(sighting)
    case _ => Nothing
  }

  /** Flux of the track from before this act is stale, once the cache has been told. */
  predicate Spoils(a: Act, track: Track, pending: Pending) {
    || (a.Wrote? && a.request.track == track && pending != PendingWrite(a.id, track))
    || (a.Saw? && pending != PendingSighting(a.sighting))
  }

  predicate IsTaking(a: Act, track: Track, generation: nat) {
    a.Took? && a.track == track && a.generation == generation
  }

  /** The capture was taken, and nothing has spoiled it since. */
  predicate FreshIn(log: seq<Act>, track: Track, generation: nat, pending: Pending) {
    log != [] &&
    var front, last := log[..|log| - 1], log[|log| - 1];
    IsTaking(last, track, generation) || (!Spoils(last, track, pending) && FreshIn(front, track, generation, pending))
  }

  ghost predicate FreshCache(captures: Cache, log: seq<Act>, pending: Pending) {
    forall track :: track in captures ==>
      forall i :: 0 <= i < |captures[track]| ==> FreshIn(log, track, captures[track][i].generation, pending)
  }

  ghost predicate Fresh(e: Engine) {
    && FreshCache(e.shared.captures, e.world.log, PendingOf(e.worker.phase))
    && (e.worker.phase.Withdrawing? ==>
          FreshIn(e.world.log, e.worker.phase.track, e.worker.generation + 1, Nothing))
    && (e.worker.phase.Inserting? ==>
          FreshIn(e.world.log, e.worker.phase.track, e.worker.phase.capture.generation, Nothing))
  }

  // ----- freshness survives what does not spoil it -----

  lemma {:induction false} FreshGrows(before: seq<Act>, after: seq<Act>, track: Track, generation: nat, p: Pending, q: Pending)
    requires FreshIn(before, track, generation, p) && before <= after
    requires p == q || p == Nothing
    requires forall i :: |before| <= i < |after| ==> !Spoils(after[i], track, q)
    ensures FreshIn(after, track, generation, q)
    decreases |after|
  {
    if |after| > |before| {
      FreshGrows(before, after[..|after| - 1], track, generation, p, q);
    } else {
      assert after == before;
      if !IsTaking(after[|after| - 1], track, generation) {
        FreshGrows(before[..|before| - 1], after[..|after| - 1], track, generation, p, q);
      }
    }
  }

  /** A write to another track never mattered. */
  lemma {:induction false} OtherTrackSettles(log: seq<Act>, track: Track, generation: nat, id: nat, other: Track)
    requires FreshIn(log, track, generation, PendingWrite(id, other)) && other != track
    ensures FreshIn(log, track, generation, Nothing)
  {
    if !IsTaking(log[|log| - 1], track, generation) {
      OtherTrackSettles(log[..|log| - 1], track, generation, id, other);
    }
  }

  /** The cache only lost entries, and nothing happened to spoil what it kept. */
  lemma CacheStaysFresh(before: Cache, after: Cache, log: seq<Act>, longer: seq<Act>, p: Pending, q: Pending)
    requires FreshCache(before, log, p) && log <= longer
    requires p == q || p == Nothing
    requires forall i, track :: |log| <= i < |longer| ==> !Spoils(longer[i], track, q)
    requires forall track :: track in after ==> track in before
    requires forall track, i :: track in after && 0 <= i < |after[track]| ==> after[track][i] in before[track]
    ensures FreshCache(after, longer, q)
  {
    forall track, i | track in after && 0 <= i < |after[track]|
      ensures FreshIn(longer, track, after[track][i].generation, q)
    {
      var k :| 0 <= k < |before[track]| && before[track][k] == after[track][i];
      FreshGrows(log, longer, track, after[track][i].generation, p, q);
    }
  }

  /** Steps that take no capture, and spoil none without owing the cache word of it. */
  lemma FreshKept(e: Engine, f: Engine)
    requires Fresh(e) && e.world.log <= f.world.log
    requires PendingOf(f.worker.phase) == PendingOf(e.worker.phase) || PendingOf(e.worker.phase) == Nothing
    requires forall i, track :: |e.world.log| <= i < |f.world.log| ==>
        !Spoils(f.world.log[i], track, PendingOf(f.worker.phase))
    requires f.shared.captures == e.shared.captures
    requires !f.worker.phase.Withdrawing? && !f.worker.phase.Inserting?
    ensures Fresh(f)
  {
    CacheStaysFresh(e.shared.captures, f.shared.captures, e.world.log, f.world.log,
                    PendingOf(e.worker.phase), PendingOf(f.worker.phase));
  }

  lemma EvictFresh(e: Engine)
    requires Fresh(e) && e.worker.phase.Evicting?
    ensures Fresh(EvictStep(e))
  {
    var Evicting(id, request, outcome) := e.worker.phase;
    var f := EvictStep(e);
    forall track, i | track in f.shared.captures && 0 <= i < |f.shared.captures[track]|
      ensures FreshIn(f.world.log, track, f.shared.captures[track][i].generation, Nothing)
    {
      var generation := f.shared.captures[track][i].generation;
      OtherTrackSettles(e.world.log, track, generation, id, request.track);
      FreshGrows(e.world.log, f.world.log, track, generation, Nothing, Nothing);
    }
  }

  lemma StockFresh(captures: Cache, log: seq<Act>, track: Track, capture: Capture)
    requires FreshCache(captures, log, Nothing) && FreshIn(log, track, capture.generation, Nothing)
    ensures FreshCache(Stocked(captures, track, capture), log, Nothing)
  {
    var stocked: Cache := Stocked(captures, track, capture);
    forall t: Track, i: nat | t in stocked && 0 <= i < |stocked[t]|
      ensures FreshIn(log, t, stocked[t][i].generation, Nothing)
    {
      if t == track && i < |stocked[t]| - 1 {
        assert track in captures && stocked[t][i] in captures[track];
      }
    }
  }

  lemma InsertFresh(e: Engine, env: Env)
    requires Fresh(e) && e.worker.phase.Inserting?
    ensures Fresh(InsertStep(e, env))
  {
    var Inserting(track, capture) := e.worker.phase;
    var captures := e.shared.captures;
    if NeedsRoom(captures, track) {
      StockFresh(captures - {env.victim}, e.world.log, track, capture);
    } else {
      StockFresh(captures, e.world.log, track, capture);
    }
  }

  lemma ReadFresh(e: Engine, env: Env)
    requires Fresh(e) && e.worker.phase.Reading?
    ensures Fresh(ReadStep(e, env))
  {
    ReadFrame(e, env);
    var f := ReadStep(e, env);
    if f.worker.phase.Withdrawing? {
      CacheStaysFresh(e.shared.captures, f.shared.captures, e.world.log, f.world.log, Nothing, Nothing);
    } else {
      FreshKept(e, f);
    }
  }

  lemma WithdrawFresh(e: Engine)
    requires Fresh(e) && e.worker.phase.Withdrawing?
    ensures Fresh(WithdrawStep(e))
  {
    var f := WithdrawStep(e);
    CacheStaysFresh(e.shared.captures, f.shared.captures, e.world.log, f.world.log, Nothing, Nothing);
    FreshGrows(e.world.log, f.world.log, e.worker.phase.track, e.worker.generation + 1, Nothing, Nothing);
  }

  lemma DrainFresh(e: Engine, env: Env)
    requires Fresh(e) && e.worker.phase.Draining?
    ensures Fresh(DrainStep(e, env))
  {
    if e.shared.commands != [] && e.shared.commands[0].NoClick? {
      ClickFrame(e.(shared := e.shared.(commands := e.shared.commands[1..])), e.shared.commands[0].side, env);
    }
    FreshKept(e, DrainStep(e, env));
  }

  lemma PollFresh(e: Engine, env: Env)
    requires Fresh(e) && e.worker.phase.Polling?
    ensures Fresh(PollStep(e, env))
  {
    PollFrame(e, env);
    FreshKept(e, PollStep(e, env));
  }

  lemma WorkFresh(e: Engine, env: Env)
    requires Fresh(e)
    ensures Fresh(Work(e, env))
  {
    if QuietPhase(e.worker.phase) {
      WorkIsQuiet(e, env);
      FreshKept(e, Work(e, env));
    } else {
      match e.worker.phase
      case Draining => DrainFresh(e, env);
      case Writing(_, _, _) => FreshKept(e, WriteStep(e, env));
      case Evicting(_, _, _) => EvictFresh(e);
      case Reporting(_, _, _) => FreshKept(e, ReportStep(e));
      case Wishing => FreshKept(e, WishStep(e));
      case Polling => PollFresh(e, env);
      case Clearing(_, _) =>
      case Choosing => FreshKept(e, ChooseStep(e));
      case Reading(_) => ReadFresh(e, env);
      case Withdrawing(_, _) => WithdrawFresh(e);
      case Inserting(_, _) => InsertFresh(e, env);
    }
  }

  /** A consumer's call leaves in the cache only what was there. */
  lemma ConsumeOnlyRemoves(s: State, ask: Ask)
    ensures var before, after := s.engine.shared.captures, Consume(s, ask).engine.shared.captures;
      && (forall track :: track in after ==> track in before)
      && (forall track, i :: track in after && 0 <= i < |after[track]| ==> after[track][i] in before[track])
  {
  }

  /** The consumer only ever removes captures, and spoils none. */
  lemma ConsumeFresh(s: State, ask: Ask)
    requires Fresh(s.engine)
    ensures Fresh(Consume(s, ask).engine)
  {
    ConsumeFrame(s, ask);
    ConsumeOnlyRemoves(s, ask);
    LessIsFresh(s.engine, Consume(s, ask).engine);
  }

  lemma LessIsFresh(e: Engine, f: Engine)
    requires Fresh(e) && f.worker == e.worker && e.world.log <= f.world.log
    requires forall i :: |e.world.log| <= i < |f.world.log| ==> ConsumerAct(f.world.log[i])
    requires forall track :: track in f.shared.captures ==> track in e.shared.captures
    requires forall track, i :: track in f.shared.captures && 0 <= i < |f.shared.captures[track]| ==>
        f.shared.captures[track][i] in e.shared.captures[track]
    ensures Fresh(f)
  {
    var pending := PendingOf(e.worker.phase);
    CacheStaysFresh(e.shared.captures, f.shared.captures, e.world.log, f.world.log, pending, pending);
    if e.worker.phase.Withdrawing? {
      FreshGrows(e.world.log, f.world.log, e.worker.phase.track, e.worker.generation + 1, Nothing, Nothing);
    }
    if e.worker.phase.Inserting? {
      FreshGrows(e.world.log, f.world.log, e.worker.phase.track, e.worker.phase.capture.generation, Nothing, Nothing);
    }
  }

  /** Over every run, a cached capture was taken after the last write to its track
      and after the last observed change of disk, apart from the one write or
      change whose eviction is the worker's very next step. */
  lemma {:induction false} CacheIsFreshOverRuns(status: Status, head: Track, max: nat, steps: seq<Step>)
    ensures Fresh(Run(Begin(status, head, max), steps).engine)
  {
    if steps != [] {
      var front := steps[..|steps| - 1];
      CacheIsFreshOverRuns(status, head, max, front);
      var s := Run(Begin(status, head, max), front);
      match steps[|steps| - 1]
      case WorkerStep(env) => WorkFresh(s.engine, env);
      case ConsumerStep(ask) => ConsumeFresh(s, ask);
    }
  }

  // ----- what a consumer can rely on -----

  /** The capture was taken after every write to its track up to this one. */
  predicate TakenSince(log: seq<Act>, track: Track, generation: nat, id: nat) {
    log != [] &&
    var front, last := log[..|log| - 1], log[|log| - 1];
    || IsTaking(last, track, generation)
    || (!(last.Wrote? && last.request.track == track && last.id <= id) && TakenSince(front, track, generation, id))
  }

  /** Whatever a consumer was served, it had heard of no write since. */
  ghost predicate NeverStale(log: seq<Act>) {
    forall i, j :: 0 <= i < j < |log| && log[i].Seen? && log[j].Served? && log[i].track == log[j].track ==>
      TakenSince(log[..j], log[j].track, log[j].generation, log[i].id)
  }

  lemma {:induction false} FreshIsSince(log: seq<Act>, track: Track, generation: nat, p: Pending, id: nat)
    requires FreshIn(log, track, generation, p)
    requires p.PendingWrite? ==> id < p.id
    ensures TakenSince(log, track, generation, id)
  {
    if !IsTaking(log[|log| - 1], track, generation) {
      FreshIsSince(log[..|log| - 1], track, generation, p, id);
    }
  }

  lemma {:induction false} FlatHas<A, B>(s: seq<A>, f: A -> seq<B>, i: nat, y: B)
    requires i < |s| && y in f(s[i])
    ensures y in Flat(s, f)
  {
    if i < |s| - 1 {
      FlatHas(s[..|s| - 1], f, i, y);
    }
  }

  lemma RisingAcross(a: seq<nat>, b: seq<nat>, c: seq<nat>, x: nat, y: nat)
    requires Rising(a + b + c) && x in a && y in b
    ensures x < y
  {
    var i :| 0 <= i < |a| && a[i] == x;
    var j :| 0 <= j < |b| && b[j] == y;
    assert (a + b + c)[i] == x && (a + b + c)[|a| + j] == y;
  }

  lemma HandIsLater(l: Ledger, heard: nat)
    requires Sound(l) && |l.hand| == 1 && heard in l.seen
    ensures heard < l.hand[0].id
  {
    var rest := l.posted + l.telling + IdsOf(l.hand);
    assert Underway(l) == l.seen + rest + IdsOf(l.waiting);
    assert IdsOf(l.hand) == [l.hand[0].id];
    assert l.hand[0].id in rest;
    RisingAcross(l.seen, rest, IdsOf(l.waiting), heard, l.hand[0].id);
  }

  /** A write still in the worker's hand is later than any the consumer has heard of. */
  lemma HeardBeforeInHand(s: State, i: nat)
    requires Sound(LedgerOf(s))
    requires s.engine.worker.phase.Evicting?
    requires i < |s.engine.world.log| && s.engine.world.log[i].Seen?
    ensures s.engine.world.log[i].id < s.engine.worker.phase.id
  {
    var l := LedgerOf(s);
    FlatHas(s.engine.world.log, SeenId, i, s.engine.world.log[i].id);
    HandIsLater(l, s.engine.world.log[i].id);
  }

  lemma LookIsFresh(s: State, track: Track, i: nat)
    requires Fresh(s.engine) && Sound(LedgerOf(s))
    requires QueueOf(s.engine.shared.captures, track) != []
    requires i < |s.engine.world.log| && s.engine.world.log[i].Seen?
    ensures TakenSince(s.engine.world.log, track, s.engine.shared.captures[track][0].generation, s.engine.world.log[i].id)
  {
    if s.engine.worker.phase.Evicting? {
      HeardBeforeInHand(s, i);
    }
    FreshIsSince(s.engine.world.log, track, s.engine.shared.captures[track][0].generation,
                 PendingOf(s.engine.worker.phase), s.engine.world.log[i].id);
  }

  lemma NeverStaleGrows(before: seq<Act>, after: seq<Act>)
    requires NeverStale(before) && before <= after
    requires forall j :: |before| <= j < |after| ==> !after[j].Served?
    ensures NeverStale(after)
  {
    forall i, j | 0 <= i < j < |after| && after[i].Seen? && after[j].Served? && after[i].track == after[j].track
      ensures TakenSince(after[..j], after[j].track, after[j].generation, after[i].id)
    {
      assert before[i] == after[i] && before[j] == after[j];
      assert before[..j] == after[..j];
    }
  }

  lemma NeverStaleServed(log: seq<Act>, a: Act)
    requires NeverStale(log) && a.Served?
    requires forall i :: 0 <= i < |log| && log[i].Seen? && log[i].track == a.track ==>
        TakenSince(log, a.track, a.generation, log[i].id)
    ensures NeverStale(log + [a])
  {
    var after := log + [a];
    forall i, j | 0 <= i < j < |after| && after[i].Seen? && after[j].Served? && after[i].track == after[j].track
      ensures TakenSince(after[..j], after[j].track, after[j].generation, after[i].id)
    {
      assert log[i] == after[i];
      if j < |log| {
        assert log[j] == after[j] && log[..j] == after[..j];
      } else {
        assert after[..j] == log;
      }
    }
  }

  lemma ServeNeverStale(s: State, track: Track)
    requires Fresh(s.engine) && Sound(LedgerOf(s)) && NeverStale(s.engine.world.log)
    requires QueueOf(s.engine.shared.captures, track) != []
    ensures NeverStale(s.engine.world.log + [Served(track, s.engine.shared.captures[track][0].generation)])
  {
    var log, generation := s.engine.world.log, s.engine.shared.captures[track][0].generation;
    forall i | 0 <= i < |log| && log[i].Seen? && log[i].track == track
      ensures TakenSince(log, track, generation, log[i].id)
    {
      LookIsFresh(s, track, i);
    }
    NeverStaleServed(log, Served(track, generation));
  }

  lemma ConsumeNeverStale(s: State, ask: Ask)
    requires Fresh(s.engine) && Sound(LedgerOf(s)) && NeverStale(s.engine.world.log)
    ensures NeverStale(Consume(s, ask).engine.world.log)
  {
    var log, after := s.engine.world.log, Consume(s, ask).engine.world.log;
    ConsumeFrame(s, ask);
    if ask.Look? && after != log {
      ServeNeverStale(s, ClampTrack(ask.track, s.bridge.maxCylinders));
    } else {
      NeverStaleGrows(log, after);
    }
  }

  /** Over every run, a consumer that has heard of a write to a track is never
      served flux of that track from before it. */
  lemma {:induction false} ReadsAreNeverStale(status: Status, head: Track, max: nat, steps: seq<Step>)
    ensures NeverStale(Run(Begin(status, head, max), steps).engine.world.log)
  {
    if steps != [] {
      var front := steps[..|steps| - 1];
      ReadsAreNeverStale(status, head, max, front);
      CacheIsFreshOverRuns(status, head, max, front);
      WritesKeepTheirTurn(status, head, max, front);
      var s := Run(Begin(status, head, max), front);
      match steps[|steps| - 1]
      case WorkerStep(env) =>
        WorkFrame(s.engine, env);
        NeverStaleGrows(s.engine.world.log, Work(s.engine, env).world.log);
      case ConsumerStep(ask) => ConsumeNeverStale(s, ask);
    }
  }
}
