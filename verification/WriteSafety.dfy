/** The write queue over every interleaving: the controller refines a ledger in
    which each accepted write waits its turn, is attempted at most once, is
    performed once, and is reported at most once, all in acceptance order. */
module WriteSafety {
  import opened Common
  import opened Controller
  import opened ControllerFrames

  // ----- gathering from histories and queues -----

  function Flat<A, B>(s: seq<A>, f: A -> seq<B>): seq<B> {
    if s == [] then [] else Flat(s[..|s| - 1], f) + f(s[|s| - 1])
  }

  lemma {:induction false} FlatAppend<A, B>(a: seq<A>, b: seq<A>, f: A -> seq<B>)
    ensures Flat(a + b, f) == Flat(a, f) + Flat(b, f)
  {
    if b == [] {
      assert a + b == a;
    } else {
      FlatAppend(a, b[..|b| - 1], f);
      assert (a + b)[..|a + b| - 1] == a + b[..|b| - 1];
    }
  }

  lemma FlatOne<A, B>(x: A, f: A -> seq<B>)
    ensures Flat([x], f) == f(x)
  {
    assert [x][..0] == [];
  }

  /** A queue gives what its front gives, and then what the rest does. */
  lemma FlatFront<A, B>(s: seq<A>, f: A -> seq<B>)
    requires s != []
    ensures Flat(s, f) == f(s[0]) + Flat(s[1..], f)
  {
    FlatOne(s[0], f);
    FlatAppend([s[0]], s[1..], f);
    assert s == [s[0]] + s[1..];
  }

  lemma FlatPush<A, B>(s: seq<A>, x: A, f: A -> seq<B>)
    ensures Flat(s + [x], f) == Flat(s, f) + f(x)
  {
    FlatOne(x, f);
    FlatAppend(s, [x], f);
  }

  /** Growth that gives nothing changes nothing. */
  lemma {:induction false} FlatSilent<A, B>(before: seq<A>, after: seq<A>, f: A -> seq<B>)
    requires before <= after && forall i :: |before| <= i < |after| ==> f(after[i]) == []
    ensures Flat(after, f) == Flat(before, f)
    decreases |after|
  {
    if |after| == |before| {
      assert after == before;
    } else {
      var front := after[..|after| - 1];
      FlatSilent(before, front, f);
      FlatPush(front, after[|after| - 1], f);
      assert after == front + [after[|after| - 1]];
    }
  }

  // ----- the ledger -----

  datatype Job = Job(id: nat, request: WriteRequest)

  function AcceptedJob(a: Act): seq<Job> {
    if a.Accepted? then [Job(a.id, a.request)] else []
  }

  function PerformedJob(a: Act): seq<Job> {
    if a.Performed? then [Job(a.id, a.request)] else []
  }

  function AttemptedJob(a: Act): seq<Job> {
    if a.Wrote? then [Job(a.id, a.request)] else []
  }

  function SeenId(a: Act): seq<nat> {
    if a.Seen? then [a.id] else []
  }

  function WaitingJob(c: Command): seq<Job> {
    if c.Write? then [Job(c.id, c.request)] else []
  }

  function ReportedId(event: Event): seq<nat> {
    match event
    case WriteCompleted(id, _, _) => [id]
    case WriteFailed(id, _, _) => [id]
    case _ => []
  }

  function InHand(phase: Phase): seq<Job> {
    match phase
    case Placing(id, request) => [Job(id, request)]
    case Measuring(id, request) => [Job(id, request)]
    case Writing(id, request, _) => [Job(id, request)]
    case Evicting(id, request, _) => [Job(id, request)]
    case _ => []
  }

  /** Where every write stands. */
  datatype Ledger = Ledger(accepted: seq<Job>, attempted: seq<Job>, performed: seq<Job>,
                           hand: seq<Job>, over: bool, waiting: seq<Job>,
                           seen: seq<nat>, posted: seq<nat>, telling: seq<nat>, next: nat)

  function LedgerOf(s: State): Ledger {
    var e := s.engine;
    Ledger(Flat(e.world.log, AcceptedJob), Flat(e.world.log, AttemptedJob), Flat(e.world.log, PerformedJob),
           InHand(e.worker.phase), e.worker.phase.Evicting?, Flat(e.shared.commands, WaitingJob),
           Flat(e.world.log, SeenId), Flat(e.shared.events, ReportedId),
           if e.worker.phase.Reporting? then [e.worker.phase.id] else [], s.bridge.nextWrite)
  }

  // ----- what can happen to it -----

  predicate Takes(l: Ledger, m: Ledger) {
    && |l.hand| == 0 && |l.telling| == 0 && |l.waiting| > 0
    && m == l.(hand := [l.waiting[0]], over := false, waiting := l.waiting[1..])
  }

  predicate Tries(l: Ledger, m: Ledger) {
    |l.hand| == 1 && !l.over && m == l.(attempted := l.attempted + l.hand, over := true)
  }

  predicate GivesUp(l: Ledger, m: Ledger) {
    |l.hand| == 1 && !l.over && m == l.(over := true)
  }

  predicate Finishes(l: Ledger, m: Ledger) {
    && |l.hand| == 1 && |l.telling| == 0
    && m == l.(performed := l.performed + l.hand, hand := [], over := false, telling := [l.hand[0].id])
  }

  predicate Tells(l: Ledger, m: Ledger) {
    m == l.(posted := l.posted + l.telling, telling := []) || m == l.(telling := [])
  }

  predicate Hears(l: Ledger, m: Ledger) {
    |l.posted| > 0 && m == l.(seen := l.seen + [l.posted[0]], posted := l.posted[1..])
  }

  predicate Accepting(l: Ledger, m: Ledger, job: Job) {
    job.id == l.next && m == l.(accepted := l.accepted + [job], waiting := l.waiting + [job], next := l.next + 1)
  }

  ghost predicate Moves(l: Ledger, m: Ledger) {
    || m == l || m == l.(next := l.next + 1)
    || Takes(l, m) || Tries(l, m) || GivesUp(l, m) || Finishes(l, m) || Tells(l, m) || Hears(l, m)
    || (exists job :: Accepting(l, m, job))
  }

  /** A history that grew by acts that concern no write. */
  lemma SameHistory(before: seq<Act>, after: seq<Act>)
    requires before <= after
    requires forall i :: |before| <= i < |after| ==>
        !after[i].Accepted? && !after[i].Wrote? && !after[i].Performed? && !after[i].Seen?
    ensures Flat(after, AcceptedJob) == Flat(before, AcceptedJob)
    ensures Flat(after, AttemptedJob) == Flat(before, AttemptedJob)
    ensures Flat(after, PerformedJob) == Flat(before, PerformedJob)
    ensures Flat(after, SeenId) == Flat(before, SeenId)
  {
    FlatSilent(before, after, AcceptedJob);
    FlatSilent(before, after, AttemptedJob);
    FlatSilent(before, after, PerformedJob);
    FlatSilent(before, after, SeenId);
  }

  lemma PushedHistory(log: seq<Act>, a: Act)
    ensures Flat(log + [a], AcceptedJob) == Flat(log, AcceptedJob) + AcceptedJob(a)
    ensures Flat(log + [a], AttemptedJob) == Flat(log, AttemptedJob) + AttemptedJob(a)
    ensures Flat(log + [a], PerformedJob) == Flat(log, PerformedJob) + PerformedJob(a)
    ensures Flat(log + [a], SeenId) == Flat(log, SeenId) + SeenId(a)
  {
    FlatPush(log, a, AcceptedJob);
    FlatPush(log, a, AttemptedJob);
    FlatPush(log, a, PerformedJob);
    FlatPush(log, a, SeenId);
  }

  lemma SameEvents(before: seq<Event>, after: seq<Event>)
    requires OnlyNotices(before, after)
    ensures Flat(after, ReportedId) == Flat(before, ReportedId)
  {
    FlatSilent(before, after, ReportedId);
  }

  /** A step that touches no write leaves the ledger alone. */
  lemma Untouched(s: State, f: Engine)
    requires f.shared.commands == s.engine.shared.commands
    requires InHand(f.worker.phase) == InHand(s.engine.worker.phase)
    requires f.worker.phase.Evicting? <==> s.engine.worker.phase.Evicting?
    requires !s.engine.worker.phase.Reporting? && !f.worker.phase.Reporting?
    requires OnlyNotices(s.engine.shared.events, f.shared.events)
    requires s.engine.world.log <= f.world.log
    requires forall i :: |s.engine.world.log| <= i < |f.world.log| ==>
        var a := f.world.log[i]; !a.Accepted? && !a.Wrote? && !a.Performed? && !a.Seen?
    ensures LedgerOf(s.(engine := f)) == LedgerOf(s)
  {
    SameHistory(s.engine.world.log, f.world.log);
    SameEvents(s.engine.shared.events, f.shared.events);
  }

  lemma QuietLedger(s: State, f: Engine)
    requires QuietPhase(s.engine.worker.phase) && QuietTo(s.engine, f)
    ensures Moves(LedgerOf(s), LedgerOf(s.(engine := f)))
  {
    if s.engine.worker.phase.Placing? || s.engine.worker.phase.Measuring? {
      OnTheWay(s, f);
    } else {
      Untouched(s, f);
    }
  }

  /** A write being placed or measured goes on, or is given up. */
  lemma OnTheWay(s: State, f: Engine)
    requires s.engine.worker.phase.Placing? || s.engine.worker.phase.Measuring?
    requires QuietTo(s.engine, f)
    ensures Moves(LedgerOf(s), LedgerOf(s.(engine := f)))
  {
    SameHistory(s.engine.world.log, f.world.log);
    SameEvents(s.engine.shared.events, f.shared.events);
    var l, m := LedgerOf(s), LedgerOf(s.(engine := f));
    if m.over && !l.over {
      assert GivesUp(l, m);
    } else {
      assert m == l;
    }
  }

  lemma DrainLedger(s: State, env: Env)
    requires s.engine.worker.phase.Draining?
    ensures Moves(LedgerOf(s), LedgerOf(s.(engine := DrainStep(s.engine, env))))
  {
    var e, f := s.engine, DrainStep(s.engine, env);
    if e.shared.commands == [] {
      Untouched(s, f);
    } else {
      FlatFront(e.shared.commands, WaitingJob);
      var taken := e.(shared := e.shared.(commands := e.shared.commands[1..]));
      match e.shared.commands[0]
      case Shutdown => Untouched(s.(engine := taken), f);
      case NoClick(side) =>
        ClickFrame(taken, side, env);
        Untouched(s.(engine := taken), f);
      case Write(_, _) => assert Takes(LedgerOf(s), LedgerOf(s.(engine := f)));
    }
  }

  lemma WriteLedger(s: State, env: Env)
    requires s.engine.worker.phase.Writing?
    ensures Tries(LedgerOf(s), LedgerOf(s.(engine := WriteStep(s.engine, env))))
  {
    var Writing(id, request, fromIndex) := s.engine.worker.phase;
    PushedHistory(s.engine.world.log, Wrote(id, request, fromIndex, s.engine.world.head, env.call));
  }

  lemma EvictLedger(s: State)
    requires s.engine.worker.phase.Evicting?
    ensures Finishes(LedgerOf(s), LedgerOf(s.(engine := EvictStep(s.engine))))
  {
    PushedHistory(s.engine.world.log, Performed(s.engine.worker.phase.id, s.engine.worker.phase.request));
  }

  lemma SentGives(events: seq<Event>, event: Event)
    ensures Flat(Sent(events, event), ReportedId) == Flat(events, ReportedId) + ReportedId(event)
         || Sent(events, event) == events
  {
    FlatPush(events, event, ReportedId);
  }

  lemma PostedLedger(s: State, event: Event)
    requires s.engine.worker.phase.Reporting? && ReportedId(event) == [s.engine.worker.phase.id]
    ensures Tells(LedgerOf(s), LedgerOf(s.(engine := At(Emit(s.engine, event), Draining))))
  {
    SentGives(s.engine.shared.events, event);
  }

  /** Reporting frees the worker; the report itself is lost if the queue is full. */
  lemma ReportLedger(s: State)
    requires s.engine.worker.phase.Reporting?
    ensures Tells(LedgerOf(s), LedgerOf(s.(engine := ReportStep(s.engine))))
  {
    var Reporting(id, request, outcome) := s.engine.worker.phase;
    match outcome
    case None => PostedLedger(s, WriteCompleted(id, request.track, request.bitLen));
    case Some(error) => PostedLedger(s, WriteFailed(id, request.track, error));
  }

  lemma InsertLedger(s: State, env: Env)
    requires s.engine.worker.phase.Inserting?
    ensures LedgerOf(s.(engine := InsertStep(s.engine, env))) == LedgerOf(s)
  {
    Untouched(s, InsertStep(s.engine, env));
  }

  lemma CacheLedger(s: State, env: Env)
    requires s.engine.worker.phase.Wishing? || s.engine.worker.phase.Clearing? || s.engine.worker.phase.Choosing?
    ensures LedgerOf(s.(engine := Work(s.engine, env))) == LedgerOf(s)
  {
    Untouched(s, Work(s.engine, env));
  }

  lemma WithdrawLedger(s: State)
    requires s.engine.worker.phase.Withdrawing?
    ensures LedgerOf(s.(engine := WithdrawStep(s.engine))) == LedgerOf(s)
  {
    Untouched(s, WithdrawStep(s.engine));
  }

  lemma PollStatusLedger(s: State, env: Env)
    requires s.engine.worker.phase.Polling?
    ensures LedgerOf(s.(engine := PollStep(s.engine, env))) == LedgerOf(s)
  {
    PollFrame(s.engine, env);
    Untouched(s, PollStep(s.engine, env));
  }

  lemma ReadLedger(s: State, env: Env)
    requires s.engine.worker.phase.Reading?
    ensures LedgerOf(s.(engine := ReadStep(s.engine, env))) == LedgerOf(s)
  {
    ReadFrame(s.engine, env);
    Untouched(s, ReadStep(s.engine, env));
  }

  lemma WorkLedger(s: State, env: Env)
    ensures Moves(LedgerOf(s), LedgerOf(s.(engine := Work(s.engine, env))))
  {
    var e := s.engine;
    if QuietPhase(e.worker.phase) {
      WorkIsQuiet(e, env);
      QuietLedger(s, Work(e, env));
    } else {
      match e.worker.phase
      case Draining => DrainLedger(s, env);
      case Writing(_, _, _) => WriteLedger(s, env);
      case Evicting(_, _, _) => EvictLedger(s);
      case Reporting(_, _, _) => ReportLedger(s);
      case Polling => PollStatusLedger(s, env);
      case Reading(_) => ReadLedger(s, env);
      case Withdrawing(_, _) => WithdrawLedger(s);
      case Inserting(_, _) => InsertLedger(s, env);
      case _ => CacheLedger(s, env);
    }
  }

  lemma AcceptedLedger(e: Engine, before: Bridge, after: Bridge, request: WriteRequest)
    requires after.nextWrite == before.nextWrite + 1
    ensures var id := before.nextWrite;
      Accepting(LedgerOf(State(e, before)),
                LedgerOf(State(Logged(Queued(e, Write(id, request)), Accepted(id, request)), after)),
                Job(id, request))
  {
    FlatPush(e.shared.commands, Write(before.nextWrite, request), WaitingJob);
    PushedHistory(e.world.log, Accepted(before.nextWrite, request));
  }

  lemma EnqueueLedger(s: State)
    ensures Moves(LedgerOf(s), LedgerOf(Consume(s, Enqueue)))
  {
    if !s.bridge.dropped && s.bridge.vetted.Some? && Accepts(s.engine) {
      AcceptedLedger(s.engine, s.bridge, Consume(s, Enqueue).bridge, s.bridge.vetted.value);
    }
  }

  lemma CommandLedger(s: State, ask: Ask)
    requires ask.ClickRequest? || ask.Drop?
    ensures LedgerOf(Consume(s, ask)) == LedgerOf(s)
  {
    var commands := s.engine.shared.commands;
    var command := if ask.Drop? then Shutdown else NoClick(ask.side);
    var t := Consume(s, ask);
    assert t.engine == s.engine || t.engine == Queued(s.engine, command);
    assert t.bridge.nextWrite == s.bridge.nextWrite;
    FlatPush(commands, command, WaitingJob);
  }

  lemma HeardLedger(e: Engine, bridge: Bridge, a: Act)
    requires e.shared.events != [] && a.Seen? && ReportedId(e.shared.events[0]) == [a.id]
    ensures Hears(LedgerOf(State(e, bridge)),
                  LedgerOf(State(Logged(e.(shared := e.shared.(events := e.shared.events[1..])), a), bridge)))
  {
    FlatFront(e.shared.events, ReportedId);
    PushedHistory(e.world.log, a);
  }

  /** An event that reports no write is nothing to the ledger. */
  lemma NoticeDropped(e: Engine, bridge: Bridge)
    requires e.shared.events != [] && ReportedId(e.shared.events[0]) == []
    ensures LedgerOf(State(e.(shared := e.shared.(events := e.shared.events[1..])), bridge)) == LedgerOf(State(e, bridge))
  {
    FlatFront(e.shared.events, ReportedId);
  }

  /** Nor is having heard of one. */
  lemma WarningLogged(e: Engine, bridge: Bridge, a: Act)
    requires a.Warned?
    ensures LedgerOf(State(Logged(e, a), bridge)) == LedgerOf(State(e, bridge))
  {
    PushedHistory(e.world.log, a);
  }

  lemma PollLedger(s: State)
    ensures Moves(LedgerOf(s), LedgerOf(Consume(s, PollEvent)))
  {
    var e := s.engine;
    if !s.bridge.dropped && e.shared.events != [] {
      match e.shared.events[0]
      case DiskChanged(present, sighting) =>
        NoticeDropped(e, s.bridge);
        WarningLogged(e.(shared := e.shared.(events := e.shared.events[1..])), s.bridge, Warned(sighting, present));
      case Disconnection(_) => NoticeDropped(e, s.bridge);
      case WriteCompleted(id, track, _) => HeardLedger(e, s.bridge, Seen(id, track));
      case WriteFailed(id, track, _) => HeardLedger(e, s.bridge, Seen(id, track));
    }
  }

  lemma WishLedger(s: State, ask: Ask)
    requires ask.SetMotor? || ask.Seek? || ask.Demand? || ask.Look? || ask.Glance? || ask.Pop? || ask.Vet?
    ensures LedgerOf(Consume(s, ask)) == LedgerOf(s)
  {
    ConsumeFrame(s, ask);
    SameHistory(s.engine.world.log, Consume(s, ask).engine.world.log);
  }

  lemma ConsumeLedger(s: State, ask: Ask)
    ensures Moves(LedgerOf(s), LedgerOf(Consume(s, ask)))
  {
    match ask
    case Enqueue => EnqueueLedger(s);
    case ClickRequest(_) => CommandLedger(s, ask);
    case Drop => CommandLedger(s, ask);
    case PollEvent => PollLedger(s);
    case _ => WishLedger(s, ask);
  }

  // ----- what the ledger keeps -----

  function IdsOf(jobs: seq<Job>): seq<nat> {
    seq(|jobs|, i requires 0 <= i < |jobs| => jobs[i].id)
  }

  predicate Rising(ids: seq<nat>) {
    forall i, j :: 0 <= i < j < |ids| ==> ids[i] < ids[j]
  }

  /** The writes not yet attempted. */
  function Untried(l: Ledger): seq<Job> {
    (if l.over then [] else l.hand) + l.waiting
  }

  /** The identifiers on their way from the queue to the consumer, oldest first. */
  function Underway(l: Ledger): seq<nat> {
    l.seen + l.posted + l.telling + IdsOf(l.hand) + IdsOf(l.waiting)
  }

  ghost predicate Sound(l: Ledger) {
    && |l.hand| <= 1 && |l.telling| <= 1 && (|l.telling| == 1 ==> |l.hand| == 0)
    && l.accepted == l.performed + l.hand + l.waiting
    && Rising(IdsOf(l.accepted)) && (forall j :: j in l.accepted ==> j.id < l.next)
    && Rising(IdsOf(l.attempted)) && (forall j :: j in l.attempted ==> j in l.accepted)
    && (forall i, j :: i in l.attempted && j in Untried(l) ==> i.id < j.id)
    && Rising(Underway(l)) && (forall id :: id in Underway(l) ==> id < l.next)
  }

  lemma SameIds(l: Ledger, m: Ledger)
    requires |l.hand| <= 1
    ensures Takes(l, m) && |l.telling| == 0 ==> Underway(m) == Underway(l)
    ensures Finishes(l, m) ==> Underway(m) == Underway(l)
    ensures Hears(l, m) ==> Underway(m) == Underway(l)
  {
    if Takes(l, m) {
      assert IdsOf(l.waiting) == IdsOf(m.hand) + IdsOf(m.waiting);
    }
    if Finishes(l, m) {
      assert IdsOf(l.hand) == m.telling && IdsOf(m.hand) == [];
    }
    if Hears(l, m) {
      assert l.seen + l.posted == m.seen + m.posted;
    }
  }

  lemma RisingWithout(a: seq<nat>, b: seq<nat>, c: seq<nat>)
    requires Rising(a + b + c)
    ensures Rising(a + c)
    ensures forall id :: id in a + c ==> id in a + b + c
  {
    var whole, part := a + b + c, a + c;
    forall i, j | 0 <= i < j < |part|
      ensures part[i] < part[j]
    {
      var x, y := if i < |a| then i else i + |b|, if j < |a| then j else j + |b|;
      assert part[i] == whole[x] && part[j] == whole[y];
    }
  }

  lemma RisingPush(ids: seq<nat>, id: nat)
    requires Rising(ids) && forall x :: x in ids ==> x < id
    ensures Rising(ids + [id])
  {
    forall i | 0 <= i < |ids|
      ensures ids[i] < id
    {
      assert ids[i] in ids;
    }
  }

  lemma TellKept(l: Ledger, m: Ledger)
    requires Sound(l) && Tells(l, m)
    ensures Sound(m)
  {
    var before, after := l.seen + l.posted, IdsOf(l.hand) + IdsOf(l.waiting);
    assert Underway(l) == before + l.telling + after;
    if m.posted == l.posted {
      RisingWithout(before, l.telling, after);
      assert Underway(m) == before + after;
    } else {
      assert Underway(m) == Underway(l);
    }
  }

  lemma AcceptKept(l: Ledger, m: Ledger, job: Job)
    requires Sound(l) && Accepting(l, m, job)
    ensures Sound(m)
  {
    assert IdsOf(m.accepted) == IdsOf(l.accepted) + [job.id];
    AcceptedIdsBelow(l.accepted, job.id);
    RisingPush(IdsOf(l.accepted), job.id);
    assert IdsOf(m.waiting) == IdsOf(l.waiting) + [job.id];
    assert Underway(m) == Underway(l) + [job.id];
    RisingPush(Underway(l), job.id);
    assert Untried(m) == Untried(l) + [job];
  }

  lemma AcceptedIdsBelow(jobs: seq<Job>, next: nat)
    requires forall j :: j in jobs ==> j.id < next
    ensures forall id :: id in IdsOf(jobs) ==> id < next
  {
    forall id | id in IdsOf(jobs)
      ensures id < next
    {
      var k :| 0 <= k < |jobs| && IdsOf(jobs)[k] == id;
      assert jobs[k] in jobs;
    }
  }

  lemma TryKept(l: Ledger, m: Ledger)
    requires Sound(l) && Tries(l, m)
    ensures Sound(m)
  {
    var job := l.hand[0];
    assert l.hand == [job];
    assert IdsOf(m.attempted) == IdsOf(l.attempted) + [job.id];
    assert job in Untried(l) && job in l.accepted;
    forall j | j in m.waiting
      ensures job.id < j.id
    {
      var k :| 0 <= k < |l.waiting| && l.waiting[k] == j;
      var a := |l.performed|;
      assert l.accepted[a] == job && l.accepted[a + 1 + k] == j;
      assert IdsOf(l.accepted)[a] < IdsOf(l.accepted)[a + 1 + k];
    }
    forall k | 0 <= k < |l.attempted|
      ensures IdsOf(l.attempted)[k] < job.id
    {
      assert l.attempted[k] in l.attempted;
    }
  }

  lemma TakeKept(l: Ledger, m: Ledger)
    requires Sound(l) && Takes(l, m)
    ensures Sound(m)
  {
    SameIds(l, m);
    assert l.waiting == m.hand + m.waiting;
    assert Untried(m) == l.waiting;
  }

  lemma FinishKept(l: Ledger, m: Ledger)
    requires Sound(l) && Finishes(l, m)
    ensures Sound(m)
  {
    SameIds(l, m);
    assert forall j :: j in Untried(m) ==> j in Untried(l);
  }

  lemma LedgerKept(l: Ledger, m: Ledger)
    requires Sound(l) && Moves(l, m)
    ensures Sound(m)
  {
    if Takes(l, m) {
      TakeKept(l, m);
    } else if Tries(l, m) {
      TryKept(l, m);
    } else if GivesUp(l, m) {
      assert forall j :: j in Untried(m) ==> j in Untried(l);
    } else if Finishes(l, m) {
      FinishKept(l, m);
    } else if Tells(l, m) {
      TellKept(l, m);
    } else if Hears(l, m) {
      SameIds(l, m);
    } else if exists job :: Accepting(l, m, job) {
      var job :| Accepting(l, m, job);
      AcceptKept(l, m, job);
    }
  }

  /** Over every run, accepted writes are performed once each and in acceptance
      order, with the rest still waiting; no write is attempted twice; and none is
      reported twice or out of order. */
  lemma {:induction false} WritesKeepTheirTurn(status: Status, head: Track, max: nat, steps: seq<Step>)
    ensures Sound(LedgerOf(Run(Begin(status, head, max), steps)))
  {
    if steps != [] {
      var front := steps[..|steps| - 1];
      WritesKeepTheirTurn(status, head, max, front);
      var s := Run(Begin(status, head, max), front);
      match steps[|steps| - 1] {
        case WorkerStep(env) => WorkLedger(s, env);
        case ConsumerStep(ask) => ConsumeLedger(s, ask);
      }
      LedgerKept(LedgerOf(s), LedgerOf(Run(Begin(status, head, max), steps)));
    }
  }

  // ----- what a report says -----

  /** The device was told to write this, and answered that it had. */
  predicate WasWritten(log: seq<Act>, id: nat, track: Track, bitLen: nat) {
    exists i :: 0 <= i < |log| && log[i].Wrote? && log[i].id == id && log[i].reply.None?
                && log[i].request.track == track && log[i].request.bitLen == bitLen
  }

  /** This is why a write failed: the device answered so, or its head would not go
      there, or it began and ended at no place where a write can. */
  predicate Explains(a: Act, id: nat, error: Error) {
    || (a.Wrote? && a.id == id && a.reply == Some(error))
    || a == Misplaced(id, error)
    || (a.Measured? && a.id == id && error.UnplaceablePartialWrite? && error.trackBits == a.trackBits
        && 30 < error.startBit && error.startBit + 30 < a.trackBits)
  }

  predicate HasFailed(log: seq<Act>, id: nat, error: Error) {
    exists i :: 0 <= i < |log| && Explains(log[i], id, error)
  }

  predicate TrueReport(log: seq<Act>, event: Event) {
    match event
    case WriteCompleted(id, track, bitLen) => WasWritten(log, id, track, bitLen)
    case WriteFailed(id, _, error) => HasFailed(log, id, error)
    case _ => true
  }

  predicate TrueOutcome(log: seq<Act>, phase: Phase) {
    phase.Evicting? || phase.Reporting? ==>
      match phase.outcome
      case None => WasWritten(log, phase.id, phase.request.track, phase.request.bitLen)
      case Some(error) => HasFailed(log, phase.id, error)
  }

  /** A write is reported complete only after the device wrote it, and failed only with
      the error that stopped it. */
  predicate ReportsTrue(e: Engine) {
    && TrueOutcome(e.world.log, e.worker.phase)
    && forall i :: 0 <= i < |e.shared.events| ==> TrueReport(e.world.log, e.shared.events[i])
  }

  lemma StaysWritten(before: seq<Act>, after: seq<Act>, id: nat, track: Track, bitLen: nat)
    requires before <= after && WasWritten(before, id, track, bitLen)
    ensures WasWritten(after, id, track, bitLen)
  {
    var i :| 0 <= i < |before| && before[i].Wrote? && before[i].id == id && before[i].reply.None?
             && before[i].request.track == track && before[i].request.bitLen == bitLen;
    assert after[i] == before[i];
  }

  lemma StaysFailed(before: seq<Act>, after: seq<Act>, id: nat, error: Error)
    requires before <= after && HasFailed(before, id, error)
    ensures HasFailed(after, id, error)
  {
    var i :| 0 <= i < |before| && Explains(before[i], id, error);
    assert after[i] == before[i];
  }

  lemma ReportStays(before: seq<Act>, after: seq<Act>, event: Event)
    requires before <= after && TrueReport(before, event)
    ensures TrueReport(after, event)
  {
    match event
    case WriteCompleted(id, track, bitLen) => StaysWritten(before, after, id, track, bitLen);
    case WriteFailed(id, _, error) => StaysFailed(before, after, id, error);
    case _ =>
  }

  lemma OutcomeStays(before: seq<Act>, after: seq<Act>, phase: Phase)
    requires before <= after && TrueOutcome(before, phase)
    ensures TrueOutcome(after, phase)
  {
    if phase.Evicting? || phase.Reporting? {
      match phase.outcome
      case None => StaysWritten(before, after, phase.id, phase.request.track, phase.request.bitLen);
      case Some(error) => StaysFailed(before, after, phase.id, error);
    }
  }

  /** As long as no report is added, they stay true. */
  lemma ReportsStayTrue(e: Engine, f: Engine)
    requires ReportsTrue(e) && e.world.log <= f.world.log
    requires TrueOutcome(f.world.log, f.worker.phase)
    requires forall i :: 0 <= i < |f.shared.events| ==>
        f.shared.events[i] in e.shared.events || TrueReport(f.world.log, f.shared.events[i])
    ensures ReportsTrue(f)
  {
    forall i | 0 <= i < |f.shared.events|
      ensures TrueReport(f.world.log, f.shared.events[i])
    {
      var event := f.shared.events[i];
      if event in e.shared.events {
        var k :| 0 <= k < |e.shared.events| && e.shared.events[k] == event;
        ReportStays(e.world.log, f.world.log, event);
      }
    }
  }

  lemma NoticesStayTrue(e: Engine, f: Engine)
    requires ReportsTrue(e) && e.world.log <= f.world.log
    requires OnlyNotices(e.shared.events, f.shared.events)
    requires TrueOutcome(f.world.log, f.worker.phase)
    ensures ReportsTrue(f)
  {
    forall i | 0 <= i < |f.shared.events|
      ensures f.shared.events[i] in e.shared.events || TrueReport(f.world.log, f.shared.events[i])
    {
      if i < |e.shared.events| {
        assert f.shared.events[i] == e.shared.events[i];
      }
    }
    ReportsStayTrue(e, f);
  }

  lemma DrainReports(e: Engine, env: Env)
    requires ReportsTrue(e) && e.worker.phase.Draining?
    ensures ReportsTrue(DrainStep(e, env))
  {
    if e.shared.commands != [] && e.shared.commands[0].NoClick? {
      ClickFrame(e.(shared := e.shared.(commands := e.shared.commands[1..])), e.shared.commands[0].side, env);
    }
    NoticesStayTrue(e, DrainStep(e, env));
  }

  lemma ExplainedNow(log: seq<Act>, a: Act, id: nat, error: Error)
    requires Explains(a, id, error)
    ensures HasFailed(log + [a], id, error)
  {
    assert (log + [a])[|log|] == a;
  }

  lemma PlaceReports(e: Engine, env: Env)
    requires ReportsTrue(e) && e.worker.phase.Placing?
    ensures ReportsTrue(PlaceStep(e, env))
  {
    var Placing(id, request) := e.worker.phase;
    var moved := Position(PlaceStart(e), request.track, env);
    PlaceFrame(e, env);
    if moved.error.Some? {
      ExplainedNow(moved.e.world.log, Misplaced(id, moved.error.value), id, moved.error.value);
    }
    NoticesStayTrue(e, PlaceStep(e, env));
  }

  lemma MeasureReports(e: Engine)
    requires ReportsTrue(e) && e.worker.phase.Measuring?
    ensures ReportsTrue(MeasureStep(e))
  {
    var Measuring(id, request) := e.worker.phase;
    var trackBits := TrackBits(e.shared.captures, request.track, request.bitLen);
    if MeasureStep(e).worker.phase.Evicting? {
      ExplainedNow(e.world.log, Measured(id, trackBits), id,
                   UnplaceablePartialWrite(request.startBit, trackBits));
    }
    NoticesStayTrue(e, MeasureStep(e));
  }

  lemma WriteReports(e: Engine, env: Env)
    requires ReportsTrue(e) && e.worker.phase.Writing?
    ensures ReportsTrue(WriteStep(e, env))
  {
    var Writing(id, request, fromIndex) := e.worker.phase;
    var a := Wrote(id, request, fromIndex, e.world.head, env.call);
    assert WriteStep(e, env).world.log[|e.world.log|] == a;
    if env.call.Some? {
      ExplainedNow(e.world.log, a, id, env.call.value);
    }
    NoticesStayTrue(e, WriteStep(e, env));
  }

  lemma EvictReports(e: Engine)
    requires ReportsTrue(e) && e.worker.phase.Evicting?
    ensures ReportsTrue(EvictStep(e))
  {
    OutcomeStays(e.world.log, EvictStep(e).world.log, e.worker.phase);
    NoticesStayTrue(e, EvictStep(e));
  }

  lemma ReportReports(e: Engine)
    requires ReportsTrue(e) && e.worker.phase.Reporting?
    ensures ReportsTrue(ReportStep(e))
  {
    ReportsStayTrue(e, ReportStep(e));
  }

  lemma WatchReports(e: Engine, env: Env)
    requires ReportsTrue(e) && (e.worker.phase.Polling? || e.worker.phase.Reading?)
    ensures ReportsTrue(Work(e, env))
  {
    if e.worker.phase.Polling? {
      PollFrame(e, env);
    } else {
      ReadFrame(e, env);
    }
    NoticesStayTrue(e, Work(e, env));
  }

  lemma CacheReports(e: Engine, env: Env)
    requires ReportsTrue(e)
    requires e.worker.phase.Wishing? || e.worker.phase.Clearing? || e.worker.phase.Choosing?
             || e.worker.phase.Withdrawing? || e.worker.phase.Inserting?
    ensures ReportsTrue(Work(e, env))
  {
    WorkFrame(e, env);
    NoticesStayTrue(e, Work(e, env));
  }

  lemma QuietReports(e: Engine, env: Env)
    requires ReportsTrue(e) && QuietPhase(e.worker.phase) && !e.worker.phase.Placing? && !e.worker.phase.Measuring?
    ensures ReportsTrue(Work(e, env))
  {
    WorkIsQuiet(e, env);
    NoticesStayTrue(e, Work(e, env));
  }

  lemma WorkReports(e: Engine, env: Env)
    requires ReportsTrue(e)
    ensures ReportsTrue(Work(e, env))
  {
    match e.worker.phase
    case Draining => DrainReports(e, env);
    case Placing(_, _) => PlaceReports(e, env);
    case Measuring(_, _) => MeasureReports(e);
    case Writing(_, _, _) => WriteReports(e, env);
    case Evicting(_, _, _) => EvictReports(e);
    case Reporting(_, _, _) => ReportReports(e);
    case Polling => WatchReports(e, env);
    case Reading(_) => WatchReports(e, env);
    case Wishing => CacheReports(e, env);
    case Clearing(_, _) => CacheReports(e, env);
    case Choosing => CacheReports(e, env);
    case Withdrawing(_, _) => CacheReports(e, env);
    case Inserting(_, _) => CacheReports(e, env);
    case _ => QuietReports(e, env);
  }

  lemma ConsumeReports(s: State, ask: Ask)
    requires ReportsTrue(s.engine)
    ensures ReportsTrue(Consume(s, ask).engine)
  {
    var e, f := s.engine, Consume(s, ask).engine;
    ConsumeFrame(s, ask);
    OutcomeStays(e.world.log, f.world.log, e.worker.phase);
    ReportsStayTrue(e, f);
  }

  /** Over every run, a write is reported complete only after the device was told to
      write it, to that track and length, and answered that it had; and failed only
      with the error that stopped it. */
  lemma {:induction false} CompletionsAreTrue(status: Status, head: Track, max: nat, steps: seq<Step>)
    ensures ReportsTrue(Run(Begin(status, head, max), steps).engine)
  {
    if steps != [] {
      var front := steps[..|steps| - 1];
      CompletionsAreTrue(status, head, max, front);
      var s := Run(Begin(status, head, max), front);
      match steps[|steps| - 1]
      case WorkerStep(env) => WorkReports(s.engine, env);
      case ConsumerStep(ask) => ConsumeReports(s, ask);
    }
  }
}
