/** Any number of relay workers delivering outbox events to the inbox and the claim extractor, while episodes
    are recorded, processing raises, and workers stop at any point. */
module ClaimPipeline {
  import opened Kernel
  import opened Text
  import opened EpisodeStore
  import opened ClaimExtraction
  import RuntimeModel

  /** A relay worker: idle, delivering event number `done` of its batch, between recording that event in the
      inbox and the end of its processing, or about to take it out of the inbox after an exception. */
  datatype Worker =
    | Resting
    | Dispatching(batch: seq<Envelope>, done: nat)
    | Recorded(batch: seq<Envelope>, done: nat)
    | Undoing(batch: seq<Envelope>, done: nat)

  /** `delivered` are the events that reached the delegate publisher; no step looks at it. */
  datatype System = System(db: Db, workers: seq<Worker>, delivered: set<Uuid>)

  predicate Unpublished(db: Db, batch: seq<Envelope>) {
    && (forall event :: event in batch ==> event in db.memory.events && event.eventId !in db.published)
    && forall i, j :: 0 <= i < j < |batch| ==> batch[i].eventId != batch[j].eventId
  }

  function To(s: System, w: nat, worker: Worker): System
    requires w < |s.workers|
  {
    s.(workers := s.workers[w := worker])
  }

  /** A record-episode call commits, or is refused. */
  ghost predicate RecordStep(s: System, s': System, e: Episode, eventId: Uuid) {
    && FreshEpisode(s.db.memory, e) && (forall event :: event in s.db.memory.events ==> event.eventId != eventId)
    && s' == s.(db := s.db.(memory := Record(s.db.memory, e, eventId).0))
  }

  /** A poll reads some unpublished rows (their order and number are the relay's business). */
  predicate FetchStep(s: System, s': System, w: nat, batch: seq<Envelope>) {
    w < |s.workers| && s.workers[w] == Resting && Unpublished(s.db, batch) && s' == To(s, w, Dispatching(batch, 0))
  }

  /** The event at hand is not for a processor, or is in the inbox already - then the delegate publishes it, or raises,
      which ends the worker's round -, or it is recorded there. */
  predicate InboxStep(s: System, s': System, w: nat) {
    && w < |s.workers| && s.workers[w].Dispatching? && s.workers[w].done < |s.workers[w].batch|
    && var Dispatching(batch, done) := s.workers[w];
       var event := batch[done];
       if event.kind != EpisodeRecorded || event.eventId in s.db.inbox then
         s' == To(s, w, Dispatching(batch, done + 1)).(delivered := s.delivered + {event.eventId}) || s' == To(s, w, Resting)
       else s' == To(s, w, Recorded(batch, done)).(db := s.db.(inbox := s.db.inbox + {event.eventId}))
  }

  /** Processing raises, or commits and the acknowledgement is lost, or commits and the delegate raises, which leaves the
      inbox row and the claims in place, or commits and the delegate publishes. */
  ghost predicate ProcessStep(config: Config, s: System, s': System, w: nat, ids: nat -> Ids, weather: Weather) {
    && w < |s.workers| && s.workers[w].Recorded? && s.workers[w].done < |s.workers[w].batch|
    && var Recorded(batch, done) := s.workers[w];
       var event := batch[done];
       var (db, raised) := Processing(config, s.db, event, ids, weather);
       && Generates(config, s.db, event, ids, weather)
       && if raised.Some? then s' == To(s, w, Undoing(batch, done)).(db := db)
          else if weather.Undelivered? then s' == To(s, w, Resting).(db := db)
          else s' == To(s, w, Dispatching(batch, done + 1)).(db := db, delivered := s.delivered + {event.eventId})
  }

  /** Taking the event out of the inbox again; the exception then ends the worker's round. */
  predicate UndoStep(s: System, s': System, w: nat) {
    && w < |s.workers| && s.workers[w].Undoing? && s.workers[w].done < |s.workers[w].batch|
    && s' == To(s, w, Resting).(db := s.db.(inbox := s.db.inbox - {s.workers[w].batch[s.workers[w].done].eventId}))
  }

  predicate MarkStep(s: System, s': System, w: nat) {
    && w < |s.workers| && s.workers[w].Dispatching? && s.workers[w].done == |s.workers[w].batch|
    && s' == To(s, w, Resting).(db := s.db.(published := s.db.published + IdsOf(s.workers[w].batch)))
  }

  /** A hard stop: the process dies or the coroutine is cancelled. */
  predicate StopStep(s: System, s': System, w: nat) {
    w < |s.workers| && s' == To(s, w, Resting)
  }

  ghost predicate NextKind(config: Config, s: System, s': System, stops: bool) {
    || (exists e, eventId :: RecordStep(s, s', e, eventId))
    || (exists w: nat, batch :: FetchStep(s, s', w, batch))
    || (exists w: nat :: InboxStep(s, s', w))
    || (exists w: nat, ids, weather :: ProcessStep(config, s, s', w, ids, weather))
    || (exists w: nat :: UndoStep(s, s', w))
    || (exists w: nat :: MarkStep(s, s', w))
    || (exists w: nat :: StopStep(s, s', w) && (stops || HarmlessStop(config, s, w)))
  }

  ghost predicate Init(s: System) {
    s.db == Db(Committed([], map[], []), [], {}, {}) && s.delivered == {} && forall w :: w in s.workers ==> w == Resting
  }

  ghost predicate StepAt(config: Config, run: seq<System>, i: nat, stops: bool)
    requires i + 1 < |run|
  {
    NextKind(config, run[i], run[i + 1], stops)
  }

  /** A run in which workers may stop hard anywhere (`stops`), or only where that is harmless. */
  ghost predicate IsRun(config: Config, run: seq<System>, stops: bool) {
    && |run| > 0 && Init(run[0]) && forall i :: 0 <= i < |run| - 1 ==> StepAt(config, run, i, stops)
  }

  // ----- Effects happen once, however often events are delivered ----------------------------------------

  lemma RecordKeepsSound(db: Db, e: Episode, eventId: Uuid)
    requires Sound(db) && FreshEpisode(db.memory, e) && forall event :: event in db.memory.events ==> event.eventId != eventId
    ensures Sound(db.(memory := Record(db.memory, e, eventId).0))
    ensures db.memory.events <= Record(db.memory, e, eventId).0.events && db.memory.episodes <= Record(db.memory, e, eventId).0.episodes
  {
    RecordKeeps(db.memory, e, eventId);
    RecordAnswers(db.memory, e, eventId);
    if Record(db.memory, e, eventId).0 != db.memory {
      OtherKindKeepsSound(db, Record(db.memory, e, eventId).0, RecordedEvent(e, eventId));
    }
  }

  lemma OtherKindKeepsSound(db: Db, memory: Committed, event: Envelope)
    requires Sound(db) && Consistent(memory) && memory.events == db.memory.events + [event] && event.kind != ClaimProposed
    requires forall x :: x in db.memory.events ==> x.eventId != event.eventId
    ensures Sound(db.(memory := memory))
  {
    forall c | c in db.claims ensures ProposedOf(memory.events, c.id) == 1 {
      ProposedOfSnoc(db.memory.events, event, c.id);
    }
  }

  lemma StepKeepsSound(config: Config, s: System, s': System, stops: bool)
    requires Sound(s.db) && NextKind(config, s, s', stops)
    ensures Sound(s'.db)
  {
    if e, eventId :| RecordStep(s, s', e, eventId) {
      RecordKeepsSound(s.db, e, eventId);
    } else if w: nat, ids, weather :| ProcessStep(config, s, s', w, ids, weather) {
      ProcessingKeepsSound(config, s.db, s.workers[w].batch[s.workers[w].done], ids, weather);
    }
  }

  lemma ProcessingKeepsSound(config: Config, db: Db, event: Envelope, ids: nat -> Ids, weather: Weather)
    requires Sound(db) && Generates(config, db, event, ids, weather)
    ensures Sound(Processing(config, db, event, ids, weather).0)
  {
    if !weather.FailsBefore? && Process(config, db, event, ids).Ok? {
      ProcessKeeps(config, db, event, ids);
    }
  }

  /** In every run, stopped, failing and redelivering as it may, the tables stay sound: at most one claim per
      tenant, episode and extractor version, claims and claim-proposed events one to one, episodes and their
      recorded events one to one. */
  lemma {:induction false} EveryRunIsSound(config: Config, run: seq<System>, stops: bool, i: nat)
    requires IsRun(config, run, stops) && i < |run|
    ensures Sound(run[i].db)
  {
    if i > 0 {
      EveryRunIsSound(config, run, stops, i - 1);
      assert StepAt(config, run, i - 1, stops);
      StepKeepsSound(config, run[i - 1], run[i], stops);
    }
  }

  // ----- What publication means with one relay -----------------------------------------------------------

  /** Every proposal about the event's episode has its claim. */
  ghost predicate Claimed(config: Config, db: Db, event: Envelope) {
    forall c :: c in ProposalsFor(config, db, event) ==> HasClaim(db.claims, ClaimKeyOf(c))
  }

  /** The event whose inbox row may still lack its claims. */
  predicate InFlight(worker: Worker, event: Envelope) {
    (worker.Recorded? || worker.Undoing?) && worker.done < |worker.batch| && worker.batch[worker.done] == event
  }

  /** Everything that follows from an event of an episode having gone through. */
  ghost predicate Settled(config: Config, s: System, event: Envelope) {
    event.kind == EpisodeRecorded ==> event.eventId in s.delivered && event.eventId in s.db.inbox && Claimed(config, s.db, event)
  }

  ghost predicate WorkerHolds(config: Config, s: System, worker: Worker) {
    match worker
    case Resting => true
    case Dispatching(batch, done) => BatchHolds(config, s, batch, done)
    case Recorded(batch, done) => BatchHolds(config, s, batch, done) && AtHand(s, batch, done)
    case Undoing(batch, done) => BatchHolds(config, s, batch, done) && AtHand(s, batch, done)
  }

  ghost predicate BatchHolds(config: Config, s: System, batch: seq<Envelope>, done: nat) {
    done <= |batch| && Unpublished(s.db, batch) && forall j :: 0 <= j < done ==> Settled(config, s, batch[j])
  }

  ghost predicate AtHand(s: System, batch: seq<Envelope>, done: nat) {
    done < |batch| && batch[done].kind == EpisodeRecorded && batch[done].eventId in s.db.inbox
  }

  ghost predicate InboxHolds(config: Config, s: System, event: Envelope) {
    event.kind == EpisodeRecorded && event.eventId in s.db.inbox ==>
      Claimed(config, s.db, event) || (|s.workers| == 1 && InFlight(s.workers[0], event))
  }

  ghost predicate Inv(config: Config, s: System) {
    && Sound(s.db) && |s.workers| == 1 && WorkerHolds(config, s, s.workers[0])
    && s.db.inbox + s.db.published <= IdsOf(s.db.memory.events)
    && (forall event :: event in s.db.memory.events && event.eventId in s.db.published ==> Settled(config, s, event))
    && (forall event :: event in s.db.memory.events ==> InboxHolds(config, s, event))
  }

  /** A hard stop does no harm unless it hits between recording an event in the inbox and having its claims. */
  ghost predicate HarmlessStop(config: Config, s: System, w: nat)
    requires w < |s.workers|
  {
    forall event :: event in s.db.memory.events && InFlight(s.workers[w], event) && event.eventId in s.db.inbox ==>
      Claimed(config, s.db, event)
  }

  lemma SameIdSameEvent(events: seq<Envelope>, x: Envelope, y: Envelope)
    requires EventIdsDistinct(events) && x in events && y in events && x.eventId == y.eventId
    ensures x == y
  {
  }

  /** What proposals an event of the outbox leads to does not change as the tables grow. */
  lemma ProposalsStay(config: Config, db: Db, db': Db, event: Envelope)
    requires Sound(db) && event in db.memory.events && event.kind == EpisodeRecorded
    requires db.memory.episodes <= db'.memory.episodes
    ensures ProposalsFor(config, db', event) == ProposalsFor(config, db, event)
  {
    assert EventHolds(db.memory, event);
    var e :| e in db.memory.episodes && e.id == event.aggregate && event == RecordedEvent(e, event.eventId);
    FindEpisodeGrows(db.memory.episodes, db'.memory.episodes, event.scope.(tenant := event.tenant), event.episode);
  }

  lemma {:induction false} FindEpisodeGrows(episodes: seq<Episode>, more: seq<Episode>, scope: RuntimeModel.Scope, id: Uuid)
    requires episodes <= more && FindEpisode(episodes, scope, id).Some?
    ensures FindEpisode(more, scope, id) == FindEpisode(episodes, scope, id)
  {
    if !(episodes[0].id == id && episodes[0].request.scope == scope) {
      FindEpisodeGrows(episodes[1..], more[1..], scope, id);
    }
  }

  lemma ClaimedGrows(config: Config, db: Db, db': Db, event: Envelope)
    requires Sound(db) && event in db.memory.events && event.kind == EpisodeRecorded
    requires db.memory.episodes <= db'.memory.episodes && db.claims <= db'.claims && Claimed(config, db, event)
    ensures Claimed(config, db', event)
  {
    ProposalsStay(config, db, db', event);
    forall c | c in ProposalsFor(config, db', event) ensures HasClaim(db'.claims, ClaimKeyOf(c)) {
      HasClaimGrows(db.claims, db'.claims, ClaimKeyOf(c));
    }
  }

  lemma SettledGrows(config: Config, s: System, s': System, event: Envelope)
    requires Sound(s.db) && event in s.db.memory.events && Settled(config, s, event)
    requires s.db.memory.episodes <= s'.db.memory.episodes && s.db.claims <= s'.db.claims
    requires s.delivered <= s'.delivered && (event.eventId in s.db.inbox ==> event.eventId in s'.db.inbox)
    ensures Settled(config, s', event)
  {
    if event.kind == EpisodeRecorded {
      ClaimedGrows(config, s.db, s'.db, event);
    }
  }

  /** The tables and the deliveries grew; nothing left the inbox and nothing was published. */
  ghost predicate Grown(s: System, s': System) {
    && s.db.memory.episodes <= s'.db.memory.episodes && s.db.memory.events <= s'.db.memory.events
    && s.db.claims <= s'.db.claims && s.delivered <= s'.delivered
    && s.db.inbox <= s'.db.inbox && s'.db.published == s.db.published
  }

  lemma BatchGrows(config: Config, s: System, s': System, batch: seq<Envelope>, done: nat)
    requires Sound(s.db) && Grown(s, s') && BatchHolds(config, s, batch, done)
    ensures BatchHolds(config, s', batch, done)
  {
    forall j | 0 <= j < done ensures Settled(config, s', batch[j]) {
      SettledGrows(config, s, s', batch[j]);
    }
  }

  lemma PublishedGrows(config: Config, s: System, s': System)
    requires Inv(config, s) && Grown(s, s') && Sound(s'.db)
    ensures forall event :: event in s'.db.memory.events && event.eventId in s'.db.published ==> Settled(config, s', event)
  {
    forall event | event in s'.db.memory.events && event.eventId in s'.db.published ensures Settled(config, s', event) {
      assert event.eventId in IdsOf(s.db.memory.events);
      var x :| x in s.db.memory.events && x.eventId == event.eventId;
      assert x in s'.db.memory.events;
      SameIdSameEvent(s'.db.memory.events, x, event);
      SettledGrows(config, s, s', event);
    }
  }

  lemma KnownGrows(s: System, s': System)
    requires s.db.inbox + s.db.published <= IdsOf(s.db.memory.events) && s.db.memory.events <= s'.db.memory.events
    ensures s.db.inbox + s.db.published <= IdsOf(s'.db.memory.events)
  {
    forall id | id in s.db.inbox + s.db.published ensures id in IdsOf(s'.db.memory.events) {
      var event :| event in s.db.memory.events && event.eventId == id;
      assert event in s'.db.memory.events;
    }
  }

  lemma WasThere(config: Config, s: System, s': System, event: Envelope)
    requires Inv(config, s) && Grown(s, s') && Sound(s'.db)
    requires event in s'.db.memory.events && event.eventId in s.db.inbox
    ensures event in s.db.memory.events
  {
    assert event.eventId in IdsOf(s.db.memory.events);
    var x :| x in s.db.memory.events && x.eventId == event.eventId;
    assert x in s'.db.memory.events;
    SameIdSameEvent(s'.db.memory.events, x, event);
  }

  /** An event that was in the inbox before is as settled as it was. */
  lemma InboxGrows(config: Config, s: System, s': System, event: Envelope)
    requires Inv(config, s) && Grown(s, s') && Sound(s'.db) && |s'.workers| == 1
    requires event in s'.db.memory.events && event.eventId in s.db.inbox
    requires event in s.db.memory.events && InFlight(s.workers[0], event) ==> InFlight(s'.workers[0], event) || Claimed(config, s'.db, event)
    ensures InboxHolds(config, s', event)
  {
    WasThere(config, s, s', event);
    assert InboxHolds(config, s, event);
    if event.kind == EpisodeRecorded && Claimed(config, s.db, event) {
      ClaimedGrows(config, s.db, s'.db, event);
    }
  }

  lemma RecordStepKeeps(config: Config, s: System, s': System, e: Episode, eventId: Uuid)
    requires Inv(config, s) && RecordStep(s, s', e, eventId)
    ensures Inv(config, s')
  {
    RecordKeepsSound(s.db, e, eventId);
    KnownGrows(s, s');
    PublishedGrows(config, s, s');
    WorkerGrows(config, s, s');
    forall event | event in s'.db.memory.events ensures InboxHolds(config, s', event) {
      if event.eventId in s.db.inbox {
        InboxGrows(config, s, s', event);
      }
    }
  }

  lemma WorkerGrows(config: Config, s: System, s': System)
    requires Inv(config, s) && Grown(s, s') && s'.workers == s.workers
    ensures WorkerHolds(config, s', s'.workers[0])
  {
    if !s.workers[0].Resting? {
      BatchGrows(config, s, s', s.workers[0].batch, s.workers[0].done);
    }
  }

  lemma FetchStepKeeps(config: Config, s: System, s': System, w: nat, batch: seq<Envelope>)
    requires Inv(config, s) && FetchStep(s, s', w, batch)
    ensures Inv(config, s')
  {
    PublishedGrows(config, s, s');
    forall event | event in s'.db.memory.events ensures InboxHolds(config, s', event) {
      assert InboxHolds(config, s, event);
    }
  }

  lemma InboxStepKeeps(config: Config, s: System, s': System, w: nat)
    requires Inv(config, s) && InboxStep(s, s', w)
    ensures Inv(config, s')
  {
    if s'.workers[w].Resting? {
      StopStepKeeps(config, s, s', w);
    } else {
      InboxGoesOn(config, s, s', w);
    }
  }

  lemma InboxGoesOn(config: Config, s: System, s': System, w: nat)
    requires Inv(config, s) && InboxStep(s, s', w) && !s'.workers[w].Resting?
    ensures Inv(config, s')
  {
    var Dispatching(batch, done) := s.workers[w];
    var event := batch[done];
    assert event in s.db.memory.events;
    KnownGrows(s, s');
    PublishedGrows(config, s, s');
    BatchGrows(config, s, s', batch, done);
    assert InboxHolds(config, s, event);
    if event.kind != EpisodeRecorded || event.eventId in s.db.inbox {
      assert Settled(config, s', event);
    }
    forall x | x in s'.db.memory.events ensures InboxHolds(config, s', x) {
      InboxAfterStep(config, s, s', w, x);
    }
  }

  lemma InboxAfterStep(config: Config, s: System, s': System, w: nat, x: Envelope)
    requires Inv(config, s) && InboxStep(s, s', w) && x in s'.db.memory.events
    requires Grown(s, s') && InboxHolds(config, s, s.workers[w].batch[s.workers[w].done])
    ensures InboxHolds(config, s', x)
  {
    var event := s.workers[w].batch[s.workers[w].done];
    if x.eventId in s.db.inbox {
      if x == event {
        assert s'.db == s.db;
      } else {
        InboxGrows(config, s, s', x);
      }
    } else if x.eventId in s'.db.inbox {
      SameIdSameEvent(s'.db.memory.events, x, event);
    }
  }

  lemma ProcessingGrows(config: Config, db: Db, event: Envelope, ids: nat -> Ids, weather: Weather)
    requires Sound(db) && config.enabled && Generates(config, db, event, ids, weather)
    requires event in db.memory.events && event.kind == EpisodeRecorded
    ensures var (db', raised) := Processing(config, db, event, ids, weather);
            && Sound(db') && db.memory.episodes <= db'.memory.episodes && db.memory.events <= db'.memory.events
            && db.claims <= db'.claims && db'.inbox == db.inbox && db'.published == db.published
            && (raised.None? ==> Claimed(config, db', event))
  {
    if !weather.FailsBefore? && Process(config, db, event, ids).Ok? {
      var db' := Process(config, db, event, ids).value;
      ProcessKeeps(config, db, event, ids);
      ProposalsStay(config, db, db', event);
    }
  }

  /** The worker goes on from an event at hand, with the tables grown. */
  lemma FromAtHand(config: Config, s: System, s': System, event: Envelope)
    requires Inv(config, s) && Grown(s, s') && Sound(s'.db) && s'.db.inbox == s.db.inbox && |s'.workers| == 1
    requires WorkerHolds(config, s', s'.workers[0])
    requires forall x :: InFlight(s.workers[0], x) ==> x == event
    requires InFlight(s'.workers[0], event) || Claimed(config, s'.db, event)
    ensures Inv(config, s')
  {
    KnownGrows(s, s');
    PublishedGrows(config, s, s');
    forall x | x in s'.db.memory.events ensures InboxHolds(config, s', x) {
      if x.eventId in s.db.inbox {
        InboxGrows(config, s, s', x);
      }
    }
  }

  lemma RaisedKeeps(config: Config, s: System, s': System, batch: seq<Envelope>, done: nat)
    requires Inv(config, s) && s.workers == [Recorded(batch, done)] && s'.workers == [Undoing(batch, done)]
    requires Grown(s, s') && Sound(s'.db) && s'.db.inbox == s.db.inbox
    ensures Inv(config, s')
  {
    assert WorkerHolds(config, s, s.workers[0]);
    BatchGrows(config, s, s', batch, done);
    FromAtHand(config, s, s', batch[done]);
  }

  lemma ProcessedKeeps(config: Config, s: System, s': System, batch: seq<Envelope>, done: nat)
    requires Inv(config, s) && s.workers == [Recorded(batch, done)] && s'.workers == [Dispatching(batch, done + 1)]
    requires Grown(s, s') && Sound(s'.db) && s'.db.inbox == s.db.inbox
    requires done < |batch| && batch[done].eventId in s'.delivered && Claimed(config, s'.db, batch[done])
    ensures Inv(config, s')
  {
    assert WorkerHolds(config, s, s.workers[0]);
    BatchGrows(config, s, s', batch, done);
    assert Settled(config, s', batch[done]);
    FromAtHand(config, s, s', batch[done]);
  }

  lemma ProcessStepShape(config: Config, s: System, s': System, w: nat, ids: nat -> Ids, weather: Weather, batch: seq<Envelope>, done: nat)
    requires ProcessStep(config, s, s', w, ids, weather) && s.workers == [Recorded(batch, done)]
    ensures done < |batch| && Generates(config, s.db, batch[done], ids, weather)
    ensures var (db, raised) := Processing(config, s.db, batch[done], ids, weather);
            && s'.db == db
            && (raised.Some? ==> s'.workers == [Undoing(batch, done)] && s'.delivered == s.delivered)
            && (raised.None? && weather.Undelivered? ==> s'.workers == [Resting] && s'.delivered == s.delivered)
            && (raised.None? && !weather.Undelivered? ==>
                  s'.workers == [Dispatching(batch, done + 1)] && s'.delivered == s.delivered + {batch[done].eventId})
  {
  }

  lemma ProcessStepGrows(config: Config, s: System, s': System, w: nat, ids: nat -> Ids, weather: Weather, batch: seq<Envelope>, done: nat)
    requires Sound(s.db) && config.enabled && ProcessStep(config, s, s', w, ids, weather) && s.workers == [Recorded(batch, done)]
    requires done < |batch| && batch[done] in s.db.memory.events && batch[done].kind == EpisodeRecorded
    ensures Grown(s, s') && Sound(s'.db) && s'.db.inbox == s.db.inbox
    ensures s'.workers == [Undoing(batch, done)]
            || (s'.workers == [Dispatching(batch, done + 1)] && batch[done].eventId in s'.delivered && Claimed(config, s'.db, batch[done]))
            || (s'.workers == [Resting] && Claimed(config, s'.db, batch[done]))
  {
    ProcessStepShape(config, s, s', w, ids, weather, batch, done);
    ProcessingGrows(config, s.db, batch[done], ids, weather);
  }

  lemma ProcessStepKeeps(config: Config, s: System, s': System, w: nat, ids: nat -> Ids, weather: Weather, batch: seq<Envelope>, done: nat)
    requires Inv(config, s) && config.enabled && ProcessStep(config, s, s', w, ids, weather) && s.workers == [Recorded(batch, done)]
    ensures Inv(config, s')
  {
    RecordedIsKnown(config, s, batch, done);
    ProcessStepGrows(config, s, s', w, ids, weather, batch, done);
    if s'.workers == [Undoing(batch, done)] {
      RaisedKeeps(config, s, s', batch, done);
    } else if s'.workers == [Resting] {
      FromAtHand(config, s, s', batch[done]);
    } else {
      ProcessedKeeps(config, s, s', batch, done);
    }
  }

  lemma RecordedIsKnown(config: Config, s: System, batch: seq<Envelope>, done: nat)
    requires Inv(config, s) && s.workers == [Recorded(batch, done)]
    ensures done < |batch| && batch[done] in s.db.memory.events && batch[done].kind == EpisodeRecorded
  {
    assert WorkerHolds(config, s, s.workers[0]);
  }

  lemma UndoStepKeeps(config: Config, s: System, s': System, w: nat)
    requires Inv(config, s) && UndoStep(s, s', w)
    ensures Inv(config, s')
  {
    var event := s.workers[w].batch[s.workers[w].done];
    forall x | x in s'.db.memory.events && x.eventId in s'.db.published ensures Settled(config, s', x) {
      assert Settled(config, s, x) && x.eventId != event.eventId;
    }
    forall x | x in s'.db.memory.events ensures InboxHolds(config, s', x) {
      assert InboxHolds(config, s, x);
    }
  }

  lemma MarkStepKeeps(config: Config, s: System, s': System, w: nat)
    requires Inv(config, s) && MarkStep(s, s', w)
    ensures Inv(config, s')
  {
    var batch := s.workers[w].batch;
    forall x | x in s'.db.memory.events && x.eventId in s'.db.published ensures Settled(config, s', x) {
      if x.eventId in s.db.published {
        assert Settled(config, s, x);
      } else {
        var y :| y in batch && y.eventId == x.eventId;
        SameIdSameEvent(s.db.memory.events, x, y);
        assert Settled(config, s, x);
      }
    }
    forall x | x in s'.db.memory.events ensures InboxHolds(config, s', x) {
      assert InboxHolds(config, s, x);
    }
    forall id | id in IdsOf(batch) ensures id in IdsOf(s.db.memory.events) {
    }
  }

  /** A hard stop keeps the invariant exactly when it is harmless. */
  lemma StopStepKeeps(config: Config, s: System, s': System, w: nat)
    requires Inv(config, s) && StopStep(s, s', w)
    ensures Inv(config, s') <==> HarmlessStop(config, s, w)
  {
    if HarmlessStop(config, s, w) {
      PublishedGrows(config, s, s');
      forall x | x in s'.db.memory.events ensures InboxHolds(config, s', x) {
        assert InboxHolds(config, s, x);
      }
    } else {
      var event :| event in s.db.memory.events && InFlight(s.workers[w], event) && event.eventId in s.db.inbox
                   && !Claimed(config, s.db, event);
      assert event.kind == EpisodeRecorded;
      assert !InboxHolds(config, s', event);
    }
  }

  lemma AnyProcessStepKeeps(config: Config, s: System, s': System, w: nat, ids: nat -> Ids, weather: Weather)
    requires Inv(config, s) && config.enabled && ProcessStep(config, s, s', w, ids, weather)
    ensures Inv(config, s')
  {
    var Recorded(batch, done) := s.workers[w];
    OnlyWorker(s.workers, w, s.workers[w]);
    ProcessStepKeeps(config, s, s', w, ids, weather, batch, done);
  }

  lemma OnlyWorker(workers: seq<Worker>, w: nat, worker: Worker)
    requires w < |workers| == 1 && workers[w] == worker
    ensures workers == [worker]
  {
  }

  lemma StepKeeps(config: Config, s: System, s': System)
    requires config.enabled && Inv(config, s) && NextKind(config, s, s', false)
    ensures Inv(config, s')
  {
    if e, eventId :| RecordStep(s, s', e, eventId) {
      RecordStepKeeps(config, s, s', e, eventId);
    } else if w: nat, batch :| FetchStep(s, s', w, batch) {
      FetchStepKeeps(config, s, s', w, batch);
    } else if w: nat :| InboxStep(s, s', w) {
      InboxStepKeeps(config, s, s', w);
    } else if w: nat, ids, weather :| ProcessStep(config, s, s', w, ids, weather) {
      AnyProcessStepKeeps(config, s, s', w, ids, weather);
    } else if w: nat :| UndoStep(s, s', w) {
      UndoStepKeeps(config, s, s', w);
    } else if w: nat :| MarkStep(s, s', w) {
      MarkStepKeeps(config, s, s', w);
    } else {
      var w: nat :| StopStep(s, s', w) && HarmlessStop(config, s, w);
      StopStepKeeps(config, s, s', w);
    }
  }

  lemma {:induction false} RunKeeps(config: Config, run: seq<System>, i: nat)
    requires config.enabled && IsRun(config, run, false) && |run[0].workers| == 1 && i < |run|
    ensures Inv(config, run[i])
  {
    if i == 0 {
      assert run[0].workers[0] in run[0].workers;
    } else {
      RunKeeps(config, run, i - 1);
      assert StepAt(config, run, i - 1, false);
      StepKeeps(config, run[i - 1], run[i]);
    }
  }

  /** With one relay, extraction enabled and no hard stop in the window, an episode's event that is marked
      published was delivered, is in the inbox, and its episode has a claim for every proposal. */
  lemma PublishedMeansClaimed(config: Config, run: seq<System>, i: nat, event: Envelope)
    requires config.enabled && IsRun(config, run, false) && |run[0].workers| == 1 && i < |run|
    requires event in run[i].db.memory.events && event.kind == EpisodeRecorded && event.eventId in run[i].db.published
    ensures event.eventId in run[i].delivered && event.eventId in run[i].db.inbox
    ensures exists e :: e in run[i].db.memory.episodes && e.id == event.aggregate && TenantOf(e) == event.tenant
                        && forall c :: c in config.propose(e) ==> HasClaim(run[i].db.claims, ClaimKeyOf(c))
  {
    RunKeeps(config, run, i);
    var db := run[i].db;
    assert Settled(config, run[i], event) && EventHolds(db.memory, event);
    var e :| e in db.memory.episodes && e.id == event.aggregate && event == RecordedEvent(e, event.eventId);
    var found := FindEpisode(db.memory.episodes, event.scope.(tenant := event.tenant), event.episode);
    assert found.value in db.memory.episodes;
  }

  // ----- What a hard stop in the window costs ---------------------------------------------------------------

  /** The event is in the inbox, nobody is working on it, and a proposal about its episode has no claim. */
  ghost predicate Lost(config: Config, s: System, event: Envelope, c: Claim) {
    && event in s.db.memory.events && event.kind == EpisodeRecorded && event.eventId in s.db.inbox
    && (forall w :: 0 <= w < |s.workers| ==> !AtWork(s.workers[w], event.eventId))
    && c in ProposalsFor(config, s.db, event) && !HasClaim(s.db.claims, ClaimKeyOf(c))
  }

  predicate AtWork(worker: Worker, id: Uuid) {
    (worker.Recorded? || worker.Undoing?) && worker.done < |worker.batch| && worker.batch[worker.done].eventId == id
  }

  lemma {:induction false} TwoEventsCount(events: seq<Envelope>, i: nat, j: nat, id: Uuid)
    requires i < j < |events| && events[i].kind == events[j].kind == EpisodeRecorded
    requires events[i].aggregate == events[j].aggregate == id
    ensures EventsOf(events, id) >= 2
  {
    var init := events[..|events| - 1];
    if j < |init| {
      TwoEventsCount(init, i, j, id);
    } else {
      OneEventCounts(init, i, id);
    }
  }

  lemma {:induction false} OneEventCounts(events: seq<Envelope>, i: nat, id: Uuid)
    requires i < |events| && events[i].kind == EpisodeRecorded && events[i].aggregate == id
    ensures EventsOf(events, id) >= 1
  {
    if i < |events| - 1 {
      OneEventCounts(events[..|events| - 1], i, id);
    }
  }

  /** Each episode has one recorded event. */
  lemma OneEventEach(c: Committed, x: Envelope, y: Envelope)
    requires Consistent(c) && x in c.events && y in c.events && x.kind == y.kind == EpisodeRecorded && x.aggregate == y.aggregate
    ensures x == y
  {
    assert EventHolds(c, x);
    var e :| e in c.episodes && e.id == x.aggregate && x == RecordedEvent(e, x.eventId);
    assert EpisodeHolds(c, e);
    OneOfOne(c.events, x, y, e.id);
  }

  lemma OneOfOne(events: seq<Envelope>, x: Envelope, y: Envelope, id: Uuid)
    requires x in events && y in events && x.kind == y.kind == EpisodeRecorded && x.aggregate == y.aggregate == id
    requires EventsOf(events, id) == 1
    ensures x == y
  {
    var i :| 0 <= i < |events| && events[i] == x;
    var j :| 0 <= j < |events| && events[j] == y;
    if i < j {
      TwoEventsCount(events, i, j, id);
    } else if j < i {
      TwoEventsCount(events, j, i, id);
    }
  }

  /** Workers deliver events of the outbox, and process recorded ones. */
  ghost predicate WorkersKnow(s: System) {
    forall w :: 0 <= w < |s.workers| ==> WorkerKnows(s.db, s.workers[w])
  }

  ghost predicate WorkerKnows(db: Db, worker: Worker) {
    && (!worker.Resting? ==> forall event :: event in worker.batch ==> event in db.memory.events)
    && ((worker.Recorded? || worker.Undoing?) && worker.done < |worker.batch| ==> worker.batch[worker.done].kind == EpisodeRecorded)
  }

  ghost predicate MemoryGrows(db: Db, db': Db) {
    db.memory.events <= db'.memory.events && db.memory.episodes <= db'.memory.episodes
  }

  /** Events and episodes are only added. */
  lemma StepGrows(config: Config, s: System, s': System, stops: bool)
    requires Sound(s.db) && NextKind(config, s, s', stops)
    ensures MemoryGrows(s.db, s'.db)
  {
    if e, eventId :| RecordStep(s, s', e, eventId) {
      RecordKeepsSound(s.db, e, eventId);
    } else if w: nat, ids, weather :| ProcessStep(config, s, s', w, ids, weather) {
      ProcessStepExtends(config, s, s', w, ids, weather);
    } else {
      assert s'.db.memory == s.db.memory;
    }
  }

  lemma ProcessStepExtends(config: Config, s: System, s': System, w: nat, ids: nat -> Ids, weather: Weather)
    requires Sound(s.db) && ProcessStep(config, s, s', w, ids, weather)
    ensures MemoryGrows(s.db, s'.db)
  {
    ProcessingExtends(config, s.db, s.workers[w].batch[s.workers[w].done], ids, weather);
  }

  lemma ProcessingExtends(config: Config, db: Db, event: Envelope, ids: nat -> Ids, weather: Weather)
    requires Sound(db) && Generates(config, db, event, ids, weather)
    ensures MemoryGrows(db, Processing(config, db, event, ids, weather).0)
  {
    if !weather.FailsBefore? && Process(config, db, event, ids).Ok? {
      ProcessKeeps(config, db, event, ids);
    }
  }

  /** How a step changes a worker. */
  ghost predicate WorkerSteps(s: System, before: Worker, after: Worker) {
    || after == before || after == Resting
    || (after.Dispatching? && before.Resting? && Unpublished(s.db, after.batch))
    || (after.Dispatching? && !before.Resting? && after.batch == before.batch)
    || (after.Recorded? && before.Dispatching? && after.batch == before.batch && after.done == before.done < |before.batch|
        && before.batch[before.done].kind == EpisodeRecorded && before.batch[before.done].eventId !in s.db.inbox)
    || (after.Undoing? && before == Recorded(after.batch, after.done))
  }

  lemma StepMovesWorkers(config: Config, s: System, s': System, stops: bool)
    requires NextKind(config, s, s', stops)
    ensures |s'.workers| == |s.workers| && forall w :: 0 <= w < |s.workers| ==> WorkerSteps(s, s.workers[w], s'.workers[w])
  {
  }

  lemma StepKeepsKnown(config: Config, s: System, s': System, stops: bool)
    requires Sound(s.db) && WorkersKnow(s) && NextKind(config, s, s', stops)
    ensures WorkersKnow(s')
  {
    StepGrows(config, s, s', stops);
    StepMovesWorkers(config, s, s', stops);
    forall w | 0 <= w < |s'.workers| ensures WorkerKnows(s'.db, s'.workers[w]) {
      assert WorkerKnows(s.db, s.workers[w]) && WorkerSteps(s, s.workers[w], s'.workers[w]);
    }
  }

  lemma {:induction false} EveryRunKnows(config: Config, run: seq<System>, stops: bool, i: nat)
    requires IsRun(config, run, stops) && i < |run|
    ensures WorkersKnow(run[i])
  {
    if i == 0 {
      assert forall w :: 0 <= w < |run[0].workers| ==> run[0].workers[w] in run[0].workers;
    } else {
      EveryRunKnows(config, run, stops, i - 1);
      EveryRunIsSound(config, run, stops, i - 1);
      assert StepAt(config, run, i - 1, stops);
      StepKeepsKnown(config, run[i - 1], run[i], stops);
    }
  }

  /** Processing another event stores no claim for this one's episode. */
  lemma OtherEventNoClaim(config: Config, db: Db, event: Envelope, other: Envelope, c: Claim, ids: nat -> Ids)
    requires Sound(db) && Faithful(config.propose) && Supplied(config, db, other, ids)
    requires event in db.memory.events && event.kind == EpisodeRecorded && c in ProposalsFor(config, db, event)
    requires other in db.memory.events && other.kind == EpisodeRecorded && other.eventId != event.eventId
    requires Process(config, db, other, ids).Ok? && !HasClaim(db.claims, ClaimKeyOf(c))
    ensures !HasClaim(Process(config, db, other, ids).value.claims, ClaimKeyOf(c))
  {
    assert EventHolds(db.memory, event) && EventHolds(db.memory, other);
    if HasClaim(Process(config, db, other, ids).value.claims, ClaimKeyOf(c)) {
      ProposeFromAdds(db, other, ProposalsFor(config, db, other), ids, 0, ClaimKeyOf(c));
      var d :| d in ProposalsFor(config, db, other) && ClaimKeyOf(d) == ClaimKeyOf(c);
      assert d.episode == other.episode && c.episode == event.episode;
      OneEventEach(db.memory, event, other);
      assert false;
    }
  }

  /** A step that is not about the event leaves its inbox row and its missing claim. */
  lemma StepKeepsMissing(config: Config, s: System, s': System, event: Envelope, c: Claim)
    requires Sound(s.db) && WorkersKnow(s) && Faithful(config.propose)
    requires Lost(config, s, event, c) && NextKind(config, s, s', true)
    ensures event.eventId in s'.db.inbox && !HasClaim(s'.db.claims, ClaimKeyOf(c))
  {
    if w: nat, ids, weather :| ProcessStep(config, s, s', w, ids, weather) {
      ProcessStepKeepsMissing(config, s, s', w, ids, weather, event, c);
    } else if w: nat :| UndoStep(s, s', w) {
      UndoStepKeepsMissing(config, s, s', w, event, c);
    } else {
      QuietStepKeeps(config, s, s');
    }
  }

  /** A step that neither processes nor undoes leaves the claims and only adds to the inbox. */
  lemma QuietStepKeeps(config: Config, s: System, s': System)
    requires NextKind(config, s, s', true)
    requires !(exists w: nat, ids, weather :: ProcessStep(config, s, s', w, ids, weather)) && !(exists w: nat :: UndoStep(s, s', w))
    ensures s'.db.claims == s.db.claims && s.db.inbox <= s'.db.inbox
  {
  }

  lemma UndoStepKeepsMissing(config: Config, s: System, s': System, w: nat, event: Envelope, c: Claim)
    requires Lost(config, s, event, c) && UndoStep(s, s', w)
    ensures event.eventId in s'.db.inbox && !HasClaim(s'.db.claims, ClaimKeyOf(c))
  {
    assert !AtWork(s.workers[w], event.eventId);
  }

  lemma ProcessStepKeepsMissing(
    config: Config, s: System, s': System, w: nat, ids: nat -> Ids, weather: Weather, event: Envelope, c: Claim)
    requires Sound(s.db) && WorkersKnow(s) && Faithful(config.propose)
    requires Lost(config, s, event, c) && ProcessStep(config, s, s', w, ids, weather)
    ensures event.eventId in s'.db.inbox && !HasClaim(s'.db.claims, ClaimKeyOf(c))
  {
    assert WorkerKnows(s.db, s.workers[w]) && !AtWork(s.workers[w], event.eventId);
    ProcessKeepsMissing(config, s.db, event, s.workers[w].batch[s.workers[w].done], c, ids, weather);
  }

  lemma ProcessKeepsMissing(config: Config, db: Db, event: Envelope, other: Envelope, c: Claim, ids: nat -> Ids, weather: Weather)
    requires Sound(db) && Faithful(config.propose) && Generates(config, db, other, ids, weather)
    requires event in db.memory.events && event.kind == EpisodeRecorded && c in ProposalsFor(config, db, event)
    requires other in db.memory.events && other.kind == EpisodeRecorded && other.eventId != event.eventId
    requires !HasClaim(db.claims, ClaimKeyOf(c))
    ensures var db' := Processing(config, db, other, ids, weather).0;
            db'.inbox == db.inbox && !HasClaim(db'.claims, ClaimKeyOf(c))
  {
    if !weather.FailsBefore? && Process(config, db, other, ids).Ok? {
      OtherEventNoClaim(config, db, event, other, c, ids);
      ProcessKeeps(config, db, other, ids);
    }
  }

  lemma StepKeepsLost(config: Config, s: System, s': System, event: Envelope, c: Claim)
    requires Sound(s.db) && WorkersKnow(s) && Faithful(config.propose)
    requires Lost(config, s, event, c) && NextKind(config, s, s', true)
    ensures Lost(config, s', event, c)
  {
    StepGrows(config, s, s', true);
    StepKeepsMissing(config, s, s', event, c);
    StepMovesWorkers(config, s, s', true);
    ProposalsStay(config, s.db, s'.db, event);
    forall w | 0 <= w < |s'.workers| ensures !AtWork(s'.workers[w], event.eventId) {
      assert !AtWork(s.workers[w], event.eventId) && WorkerSteps(s, s.workers[w], s'.workers[w]);
    }
  }

  lemma RunStepKeepsLost(config: Config, run: seq<System>, j: nat, event: Envelope, c: Claim)
    requires IsRun(config, run, true) && Faithful(config.propose) && j + 1 < |run| && Lost(config, run[j], event, c)
    ensures Lost(config, run[j + 1], event, c)
  {
    EveryRunIsSound(config, run, true, j);
    EveryRunKnows(config, run, true, j);
    assert StepAt(config, run, j, true);
    StepKeepsLost(config, run[j], run[j + 1], event, c);
  }

  /** Once an event's claim is lost, it stays lost to the end of every run, whatever is redelivered: the inbox
      row that was to prevent a second effect prevents the first. */
  lemma {:induction false} LostForGood(config: Config, run: seq<System>, i: nat, j: nat, event: Envelope, c: Claim)
    requires IsRun(config, run, true) && Faithful(config.propose) && i <= j < |run| && Lost(config, run[i], event, c)
    ensures Lost(config, run[j], event, c)
  {
    if i < j {
      LostForGood(config, run, i, j - 1, event, c);
      RunStepKeepsLost(config, run, j - 1, event, c);
    }
  }

  /** A lost event is nevertheless marked published by the next round that fetches it. */
  lemma LostIsPublished(config: Config, s: System, w: nat, event: Envelope, c: Claim) returns (run: seq<System>)
    requires Lost(config, s, event, c) && w < |s.workers| && s.workers[w] == Resting && event.eventId !in s.db.published
    ensures |run| == 4 && run[0] == s && forall i :: 0 <= i < 3 ==> NextKind(config, run[i], run[i + 1], false)
    ensures event.eventId in run[3].db.published && run[3].db.memory == s.db.memory && !Claimed(config, run[3].db, event)
  {
    var s1 := To(s, w, Dispatching([event], 0));
    var s2 := To(s1, w, Dispatching([event], 1)).(delivered := s.delivered + {event.eventId});
    var s3 := To(s2, w, Resting).(db := s.db.(published := s.db.published + IdsOf([event])));
    assert FetchStep(s, s1, w, [event]);
    assert InboxStep(s1, s2, w);
    assert MarkStep(s2, s3, w);
    assert event in [event];
    run := [s, s1, s2, s3];
  }

  /** With two relays nothing need stop hard: while one is processing an event the other skips and publishes
      it, and then the first one's processing raises. */
  lemma TwoRelaysLose(config: Config, s: System, v: nat, w: nat, event: Envelope) returns (run: seq<System>)
    requires v < |s.workers| && w < |s.workers| && v != w
    requires s.workers[v] == Recorded([event], 0) && s.workers[w] == Dispatching([event], 0)
    requires event.eventId in s.db.inbox && !Claimed(config, s.db, event)
    ensures |run| == 5 && run[0] == s && forall i :: 0 <= i < 4 ==> NextKind(config, run[i], run[i + 1], false)
    ensures event.eventId in run[4].db.published && event.eventId !in run[4].db.inbox
    ensures run[4].db.memory == s.db.memory && !Claimed(config, run[4].db, event)
  {
    var s1 := To(s, w, Dispatching([event], 1)).(delivered := s.delivered + {event.eventId});
    assert event in [event] && IdsOf([event]) == {event.eventId};
    var s2 := To(s1, w, Resting).(db := s.db.(published := s.db.published + {event.eventId}));
    var s3 := To(s2, v, Undoing([event], 0));
    var s4 := To(s3, v, Resting).(db := s3.db.(inbox := s3.db.inbox - {event.eventId}));
    assert InboxStep(s, s1, w);
    assert MarkStep(s1, s2, w);
    assert ProcessStep(config, s2, s3, v, (k: nat) => Ids(0, 0), FailsBefore(Raised("timeout")));
    assert UndoStep(s3, s4, v);
    run := [s, s1, s2, s3, s4];
  }
}
