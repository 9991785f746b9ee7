/** Recording episodes: the committed memory state, what one append does to it, and the in-memory
    database with its single-use copy-on-write transactions. */
module EpisodeStore {
  import opened Kernel
  import opened Text
  import opened RuntimeModel

  datatype SourceType = User | Agent | Tool | File | System
  datatype Sensitivity = Public | Internal | Confidential | Restricted
  datatype RetentionClass = Ephemeral | Standard | Extended | LegalHold

  /** The fields that define an episode for idempotent replay. Times are UTC microseconds. */
  datatype Request = Request(
    scope: Scope, actorId: Uuid, sourceType: SourceType, contentRef: Uuid, observedAt: int,
    contentHash: string, sensitivity: Sensitivity, retention: RetentionClass, consentBasis: string)

  datatype Episode = Episode(id: Uuid, key: string, request: Request, ingestedAt: int)

  datatype IndexKey = IndexKey(tenant: Uuid, key: string)

  datatype EventKind = EpisodeRecorded | ClaimProposed | OtherKind(name: string)

  datatype Envelope = Envelope(
    eventId: Uuid, kind: EventKind, tenant: Uuid, aggregate: Uuid, occurredAt: int, causation: Option<Uuid>,
    scope: Scope, episode: Uuid)

  datatype Committed = Committed(episodes: seq<Episode>, index: map<IndexKey, Uuid>, events: seq<Envelope>)

  datatype MemoryError =
    | IdempotencyConflict | AggregateUnknown | TenantMismatch | NotActive | AlreadyEntered | AlreadyCommitted
    | NoSuchElement

  datatype AppendResult = AppendResult(episode: Uuid, created: bool)

  function TenantOf(e: Episode): Uuid {
    e.request.scope.tenant
  }

  function KeyOf(e: Episode): IndexKey {
    IndexKey(TenantOf(e), e.key)
  }

  function FirstWith(episodes: seq<Episode>, id: Uuid): (e: Option<Episode>)
    ensures e.None? <==> forall x :: x in episodes ==> x.id != id
    ensures e.Some? ==> e.value in episodes && e.value.id == id
  {
    if episodes == [] then None
    else if episodes[0].id == id then Some(episodes[0])
    else FirstWith(episodes[1..], id)
  }

  predicate SameRequest(a: Episode, b: Episode) {
    a.request == b.request
  }

  /** The serial append. */
  function Append(c: Committed, e: Episode): Result<(Committed, AppendResult), MemoryError> {
    if KeyOf(e) in c.index then
      match FirstWith(c.episodes, c.index[KeyOf(e)])
      case None => Err(NoSuchElement)
      case Some(existing) =>
        if !SameRequest(existing, e) then Err(IdempotencyConflict)
        else Ok((c, AppendResult(c.index[KeyOf(e)], false)))
    else
      Ok((Committed(c.episodes + [e], c.index[KeyOf(e) := e.id], c.events), AppendResult(e.id, true)))
  }

  function Publish(c: Committed, event: Envelope): Result<Committed, MemoryError> {
    if event.kind == EpisodeRecorded && FirstWith(c.episodes, event.aggregate).None? then Err(AggregateUnknown)
    else if event.kind == EpisodeRecorded && TenantOf(FirstWith(c.episodes, event.aggregate).value) != event.tenant then
      Err(TenantMismatch)
    else Ok(c.(events := c.events + [event]))
  }

  function RecordedEvent(e: Episode, eventId: Uuid): Envelope {
    Envelope(eventId, EpisodeRecorded, TenantOf(e), e.id, e.ingestedAt, None, e.request.scope, e.id)
  }

  /** What recording an episode does to the committed state, and its answer: append, publish the recorded
      event when the episode is new, commit. An exception leaves the committed state alone. */
  function Record(c: Committed, e: Episode, eventId: Uuid): (Committed, Result<AppendResult, MemoryError>) {
    match Append(c, e)
    case Err(error) => (c, Err(error))
    case Ok((work, result)) =>
      if !result.created then (work, Ok(result))
      else
        match Publish(work, RecordedEvent(e, eventId))
        case Err(error) => (c, Err(error))
        case Ok(done) => (done, Ok(result))
  }

  // ----- What the committed state keeps ---------------------------------------------------------

  /** Recorded events about an episode. */
  function EventsOf(events: seq<Envelope>, id: Uuid): (n: nat) {
    if events == [] then 0
    else
      var last := events[|events| - 1];
      EventsOf(events[..|events| - 1], id) + if last.kind == EpisodeRecorded && last.aggregate == id then 1 else 0
  }

  ghost predicate IdsDistinct(episodes: seq<Episode>) {
    forall i, j :: 0 <= i < j < |episodes| ==> episodes[i].id != episodes[j].id
  }

  ghost predicate EpisodeHolds(c: Committed, e: Episode) {
    && KeyOf(e) in c.index && c.index[KeyOf(e)] == e.id && FirstWith(c.episodes, e.id) == Some(e)
    && EventsOf(c.events, e.id) == 1
  }

  ghost predicate EventHolds(c: Committed, event: Envelope) {
    event.kind == EpisodeRecorded ==> exists e :: e in c.episodes && e.id == event.aggregate && event == RecordedEvent(e, event.eventId)
  }

  /** Ids are distinct, the index covers exactly the committed tenant and key pairs, every lookup finds its episode, and each
      episode has exactly one recorded event, of its own tenant. */
  ghost predicate Consistent(c: Committed) {
    && IdsDistinct(c.episodes)
    && (forall e :: e in c.episodes ==> EpisodeHolds(c, e))
    && (forall k :: k in c.index ==> exists e :: e in c.episodes && KeyOf(e) == k && e.id == c.index[k])
    && (forall event :: event in c.events ==> EventHolds(c, event))
  }

  ghost predicate FreshEpisode(c: Committed, e: Episode) {
    forall x :: x in c.episodes ==> x.id != e.id
  }

  lemma EventsOfSnoc(events: seq<Envelope>, event: Envelope, id: Uuid)
    ensures EventsOf(events + [event], id) ==
            EventsOf(events, id) + if event.kind == EpisodeRecorded && event.aggregate == id then 1 else 0
  {
    assert (events + [event])[..|events + [event]| - 1] == events;
  }

  lemma {:induction false} NoEventsOf(events: seq<Envelope>, id: Uuid)
    requires forall event :: event in events && event.kind == EpisodeRecorded ==> event.aggregate != id
    ensures EventsOf(events, id) == 0
  {
    if events != [] {
      NoEventsOf(events[..|events| - 1], id);
    }
  }

  lemma {:induction false} FirstWithSnoc(episodes: seq<Episode>, e: Episode, id: Uuid)
    ensures FirstWith(episodes + [e], id) ==
            if FirstWith(episodes, id).Some? then FirstWith(episodes, id) else if e.id == id then Some(e) else None
  {
    if episodes != [] {
      assert (episodes + [e])[1..] == episodes[1..] + [e];
      FirstWithSnoc(episodes[1..], e, id);
    } else {
      assert (episodes + [e])[1..] == [];
    }
  }

  /** In a consistent state recording never fails except for a conflict, answers with the one episode of its
      tenant and key, and says `created` exactly when the pair was free. */
  lemma RecordAnswers(c: Committed, e: Episode, eventId: Uuid)
    requires Consistent(c) && FreshEpisode(c, e)
    ensures var (after, answer) := Record(c, e, eventId);
            && (answer.Err? <==> KeyOf(e) in c.index && !SameRequest(FirstWith(c.episodes, c.index[KeyOf(e)]).value, e))
            && (answer.Err? ==> answer.error == IdempotencyConflict && after == c)
            && (answer.Ok? ==> KeyOf(e) in after.index && answer.value.episode == after.index[KeyOf(e)]
                               && (answer.value.created <==> KeyOf(e) !in c.index))
            && (answer.Ok? && answer.value.created ==>
                  after == Committed(c.episodes + [e], c.index[KeyOf(e) := e.id], c.events + [RecordedEvent(e, eventId)]))
            && (answer.Ok? && !answer.value.created ==> after == c)
    ensures KeyOf(e) in c.index ==> FirstWith(c.episodes, c.index[KeyOf(e)]).Some?
  {
    if KeyOf(e) !in c.index {
      FirstWithSnoc(c.episodes, e, e.id);
    }
  }

  /** In a consistent state recording is refused exactly when its tenant and key are bound to an episode with
      another request, answers a replay with the bound episode and changes nothing, and otherwise stores the episode
      and one event: about it, in its scope, at its ingestion time, without a cause. */
  lemma RecordDecides(c: Committed, e: Episode, eventId: Uuid)
    requires Consistent(c) && FreshEpisode(c, e)
    ensures var (after, answer) := Record(c, e, eventId);
            var key := IndexKey(e.request.scope.tenant, e.key);
            if key in c.index then
              exists bound :: bound in c.episodes && bound.id == c.index[key] && after == c
                 && bound.key == e.key && bound.request.scope.tenant == e.request.scope.tenant
                 && answer == if bound.request == e.request then Ok(AppendResult(bound.id, false)) else Err(IdempotencyConflict)
            else
              && answer == Ok(AppendResult(e.id, true))
              && after == Committed(c.episodes + [e], c.index[key := e.id], c.events + [
                   Envelope(eventId := eventId, kind := EpisodeRecorded, tenant := e.request.scope.tenant, aggregate := e.id,
                            occurredAt := e.ingestedAt, causation := None, scope := e.request.scope, episode := e.id)])
  {
    RecordAnswers(c, e, eventId);
    if KeyOf(e) in c.index {
      var bound :| bound in c.episodes && KeyOf(bound) == KeyOf(e) && bound.id == c.index[KeyOf(e)];
      assert EpisodeHolds(c, bound);
    }
  }

  /** Publishing: an event about a new episode needs a committed episode with its id, of its own tenant; what is
      published is appended to the events and nothing else changes. */
  lemma PublishDecides(c: Committed, event: Envelope)
    requires IdsDistinct(c.episodes)
    ensures var r := Publish(c, event);
            var about := event.kind == EpisodeRecorded;
            && (r == Err(AggregateUnknown) <==> about && forall x :: x in c.episodes ==> x.id != event.aggregate)
            && (r == Err(TenantMismatch) <==>
                  about && exists x :: x in c.episodes && x.id == event.aggregate && x.request.scope.tenant != event.tenant)
            && (r.Ok? <==> (about ==> exists x :: x in c.episodes && x.id == event.aggregate && x.request.scope.tenant == event.tenant))
            && (r.Ok? ==> r.value == Committed(c.episodes, c.index, c.events + [event]))
  {
    var found := FirstWith(c.episodes, event.aggregate);
    if found.Some? {
      forall x | x in c.episodes && x.id == event.aggregate ensures x == found.value {
        var i :| 0 <= i < |c.episodes| && c.episodes[i] == x;
        var j :| 0 <= j < |c.episodes| && c.episodes[j] == found.value;
      }
    }
  }

  lemma RecordKeeps(c: Committed, e: Episode, eventId: Uuid)
    requires Consistent(c) && FreshEpisode(c, e)
    ensures Consistent(Record(c, e, eventId).0)
  {
    RecordAnswers(c, e, eventId);
    if KeyOf(e) !in c.index {
      NewEpisodeKeeps(c, e, eventId);
    }
  }

  lemma NewEpisodeKeeps(c: Committed, e: Episode, eventId: Uuid)
    requires Consistent(c) && FreshEpisode(c, e) && KeyOf(e) !in c.index
    ensures Consistent(Committed(c.episodes + [e], c.index[KeyOf(e) := e.id], c.events + [RecordedEvent(e, eventId)]))
  {
    var event := RecordedEvent(e, eventId);
    var c' := Committed(c.episodes + [e], c.index[KeyOf(e) := e.id], c.events + [event]);
    forall x | x in c'.episodes ensures EpisodeHolds(c', x) {
      FirstWithSnoc(c.episodes, e, x.id);
      EventsOfSnoc(c.events, event, x.id);
      if x in c.episodes {
        assert EpisodeHolds(c, x);
      } else {
        forall old_ | old_ in c.events && old_.kind == EpisodeRecorded ensures old_.aggregate != e.id {
          assert EventHolds(c, old_);
        }
        NoEventsOf(c.events, e.id);
      }
    }
    forall k | k in c'.index ensures exists x :: x in c'.episodes && KeyOf(x) == k && x.id == c'.index[k] {
      if k == KeyOf(e) {
        assert e in c'.episodes;
      } else {
        var x :| x in c.episodes && KeyOf(x) == k && x.id == c.index[k];
        assert x in c'.episodes;
      }
    }
    forall x | x in c'.events ensures EventHolds(c', x) {
      if x in c.events {
        assert EventHolds(c, x);
        if x.kind == EpisodeRecorded {
          var y :| y in c.episodes && y.id == x.aggregate && x == RecordedEvent(y, x.eventId);
          assert y in c'.episodes;
        }
      } else {
        assert e in c'.episodes;
      }
    }
  }

  // ----- The in-memory database and its transactions ---------------------------------------------

  class MemoryDatabase {
    var state: Committed
    var locked: bool

    constructor ()
      ensures state == Committed([], map[], []) && !locked
    {
      state, locked := Committed([], map[], []), false;
    }
  }

  /** A transaction as its user sees it. */
  datatype Phase = Unentered | Open | Saved | Closed

  class UnitOfWork {
    const database: MemoryDatabase
    var entered: bool
    var active: bool
    var committed: bool
    var work: Committed

    constructor (database: MemoryDatabase)
      ensures this.database == database && Valid() && Current() == Unentered
    {
      this.database := database;
      entered, active, committed, work := false, false, false, Committed([], map[], []);
    }

    function Current(): Phase
      reads this
    {
      if !entered then Unentered else if !active then Closed else if committed then Saved else Open
    }

    /** Exactly an entered and not yet exited transaction holds the database lock it took. */
    ghost predicate Valid()
      reads this, database
    {
      (active ==> entered && database.locked) && (committed ==> entered)
    }

    /** Why an operation cannot be used now, if it cannot. */
    function Unusable(): Option<MemoryError>
      reads this
    {
      if Current() == Open then None else if Current() == Saved then Some(AlreadyCommitted) else Some(NotActive)
    }

    /** Runs once the lock is free. */
    method Enter() returns (r: Result<(), MemoryError>)
      requires Valid() && (entered || !database.locked)
      modifies this, database`locked
      ensures Valid()
      ensures old(Current()) == Unentered ==> r == Ok(()) && Current() == Open && work == database.state && database.locked
      ensures old(Current()) != Unentered ==> r == Err(AlreadyEntered) && Current() == old(Current()) && work == old(work)
                                              && database.locked == old(database.locked)
    {
      if entered {
        return Err(AlreadyEntered);
      }
      entered := true;
      database.locked := true;
      active, committed := true, false;
      work := database.state;
      r := Ok(());
    }

    method AppendEpisode(e: Episode) returns (r: Result<AppendResult, MemoryError>)
      requires Valid()
      modifies this`work
      ensures Valid()
      ensures Unusable().Some? ==> r == Err(Unusable().value) && work == old(work)
      ensures Unusable().None? ==>
                match Append(old(work), e)
                case Err(error) => r == Err(error) && work == old(work)
                case Ok((after, result)) => r == Ok(result) && work == after
    {
      if Unusable().Some? {
        return Err(Unusable().value);
      }
      if KeyOf(e) in work.index {
        var existing := FirstWith(work.episodes, work.index[KeyOf(e)]);
        if existing.None? {
          return Err(NoSuchElement);
        }
        if !SameRequest(existing.value, e) {
          return Err(IdempotencyConflict);
        }
        return Ok(AppendResult(work.index[KeyOf(e)], false));
      }
      work := work.(episodes := work.episodes + [e]);
      work := work.(index := work.index[KeyOf(e) := e.id]);
      r := Ok(AppendResult(e.id, true));
    }

    method PublishEvent(event: Envelope) returns (r: Result<(), MemoryError>)
      requires Valid()
      modifies this`work
      ensures Valid()
      ensures Unusable().Some? ==> r == Err(Unusable().value) && work == old(work)
      ensures Unusable().None? ==>
                match Publish(old(work), event)
                case Err(error) => r == Err(error) && work == old(work)
                case Ok(after) => r == Ok(()) && work == after
    {
      if Unusable().Some? {
        return Err(Unusable().value);
      }
      if event.kind == EpisodeRecorded {
        var aggregate := FirstWith(work.episodes, event.aggregate);
        if aggregate.None? {
          return Err(AggregateUnknown);
        }
        if TenantOf(aggregate.value) != event.tenant {
          return Err(TenantMismatch);
        }
      }
      work := work.(events := work.events + [event]);
      r := Ok(());
    }

    /** Replaces the committed state with the transaction's copy. */
    method Commit() returns (r: Result<(), MemoryError>)
      requires Valid()
      modifies this`committed, database`state
      ensures Valid()
      ensures old(Unusable()).Some? ==> r == Err(old(Unusable()).value) && database.state == old(database.state) && committed == old(committed)
      ensures old(Unusable()).None? ==> r == Ok(()) && database.state == work && Current() == Saved
    {
      if Unusable().Some? {
        return Err(Unusable().value);
      }
      database.state := work;
      committed := true;
      r := Ok(());
    }

    /** Gives the lock back; what was not committed is dropped. */
    method Exit() returns (r: Result<(), MemoryError>)
      requires Valid()
      modifies this`active, database`locked
      ensures Valid()
      ensures old(active) ==> r == Ok(()) && Current() == Closed && !database.locked
      ensures !old(active) ==> r == Err(NotActive) && !active && database.locked == old(database.locked)
    {
      if !active {
        return Err(NotActive);
      }
      active := false;
      database.locked := false;
      r := Ok(());
    }
  }

  /** Records an episode in one transaction of its own; the caller waited for the lock. `stopAfter` is how many
      operations complete before the call is interrupted: an interrupted transaction is exited uncommitted. */
  method RecordEpisode(database: MemoryDatabase, e: Episode, eventId: Uuid, stopAfter: nat)
    returns (answer: Option<Result<AppendResult, MemoryError>>)
    requires !database.locked
    modifies database
    ensures !database.locked
    ensures answer.Some? ==> (database.state, answer.value) == Record(old(database.state), e, eventId)
    ensures answer.None? ==> database.state == old(database.state) || database.state == Record(old(database.state), e, eventId).0
  {
    var work := new UnitOfWork(database);
    var entered := work.Enter();
    if stopAfter == 0 {
      var left := work.Exit();
      return None;
    }
    var appended := work.AppendEpisode(e);
    if appended.Err? {
      var left := work.Exit();
      return Some(Err(appended.error));
    }
    if stopAfter == 1 {
      var left := work.Exit();
      return None;
    }
    if appended.value.created {
      var published := work.PublishEvent(RecordedEvent(e, eventId));
      if published.Err? {
        var left := work.Exit();
        return Some(Err(published.error));
      }
    }
    if stopAfter == 2 {
      var left := work.Exit();
      return None;
    }
    var saved := work.Commit();
    var left := work.Exit();
    if stopAfter == 3 {
      return None;
    }
    answer := Some(Ok(appended.value));
  }
}
