/** Consuming outbox events: extracting claims from a recorded episode in one transaction, and the inbox
    that keeps an event from being processed twice. */
module ClaimExtraction {
  import opened Kernel
  import opened Text
  import opened RuntimeModel
  import opened EpisodeStore

  /** A proposed claim: the parts that vary. Its one piece of evidence names the episode and the extractor. */
  datatype Claim = Claim(
    id: Uuid, scope: Scope, episode: Uuid, version: string, objectValue: string, validFrom: int, recordedFrom: int)

  datatype ClaimKey = ClaimKey(tenant: Uuid, episode: Uuid, version: string)

  /** Ids generated for one proposal: the claim's and its event's. */
  datatype Ids = Ids(claim: Uuid, event: Uuid)

  datatype Config = Config(enabled: bool, propose: Episode -> seq<Claim>)

  /** The memory tables; `published` are the ids of outbox rows with a publication time. */
  datatype Db = Db(memory: Committed, claims: seq<Claim>, inbox: set<Uuid>, published: set<Uuid>)

  datatype Fault =
    | EpisodeMissing | MalformedEvent | EvidenceMismatch | ForeignKeyViolation | UniqueViolation
    | ClaimUnknown | ClaimTenantMismatch | Raised(what: string)

  function IdsOf(batch: seq<Envelope>): set<Uuid> {
    set event | event in batch :: event.eventId
  }

  function ClaimKeyOf(c: Claim): ClaimKey {
    ClaimKey(c.scope.tenant, c.episode, c.version)
  }

  /** The rule-based extractor: one claim about the content hash. The id is a placeholder. */
  function Deterministic(version: string): Episode -> seq<Claim> {
    (e: Episode) => [Claim(0, e.request.scope, e.id, version, e.request.contentHash, e.request.observedAt, e.ingestedAt)]
  }

  function ClaimEvent(c: Claim, eventId: Uuid, cause: Uuid): Envelope {
    Envelope(eventId, ClaimProposed, c.scope.tenant, c.id, c.recordedFrom, Some(cause), c.scope, c.episode)
  }

  predicate HasClaim(claims: seq<Claim>, key: ClaimKey) {
    exists c :: c in claims && ClaimKeyOf(c) == key
  }

  /** INSERT ... ON CONFLICT (tenant, episode, extractor version) DO NOTHING; says whether a row was inserted. */
  function AddProposal(db: Db, c: Claim): Result<(Db, bool), Fault> {
    if HasClaim(db.claims, ClaimKeyOf(c)) then Ok((db, false))
    else if !(exists e :: e in db.memory.episodes && TenantOf(e) == c.scope.tenant && e.id == c.episode) then
      Err(ForeignKeyViolation)
    else if exists x :: x in db.claims && x.scope.tenant == c.scope.tenant && x.id == c.id then Err(UniqueViolation)
    else Ok((db.(claims := db.claims + [c]), true))
  }

  /** Publishing a claim-proposed event checks it against the tenants of the claims with its id. */
  function PublishProposal(db: Db, event: Envelope): Result<Db, Fault> {
    if !(exists x :: x in db.claims && x.id == event.aggregate) then Err(ClaimUnknown)
    else if !(exists x :: x in db.claims && x.id == event.aggregate && x.scope.tenant == event.tenant) then
      Err(ClaimTenantMismatch)
    else Ok(db.(memory := db.memory.(events := db.memory.events + [event])))
  }

  /** One proposal: stored under its new id, with an event when it was not stored before. */
  function ProposeOne(db: Db, cause: Envelope, proposal: Claim, ids: Ids): Result<Db, Fault> {
    var c := proposal.(id := ids.claim);
    match AddProposal(db, c)
    case Err(fault) => Err(fault)
    case Ok((added, created)) =>
      if !created then Ok(added)
      else if c.episode != cause.episode then Err(EvidenceMismatch)
      else PublishProposal(added, ClaimEvent(c, ids.event, cause.eventId))
  }

  /** The proposals from number `i` on. */
  function ProposeFrom(db: Db, cause: Envelope, proposals: seq<Claim>, ids: nat -> Ids, i: nat): Result<Db, Fault>
    requires i <= |proposals|
    decreases |proposals| - i
  {
    if i == |proposals| then Ok(db)
    else
      match ProposeOne(db, cause, proposals[i], ids(i))
      case Err(fault) => Err(fault)
      case Ok(next) => ProposeFrom(next, cause, proposals, ids, i + 1)
  }

  /** Looking an episode up by id within exactly a scope. */
  function FindEpisode(episodes: seq<Episode>, scope: Scope, id: Uuid): (e: Option<Episode>)
    ensures e.Some? ==> e.value in episodes && e.value.id == id && e.value.request.scope == scope
    ensures e.None? ==> forall x :: x in episodes ==> !(x.id == id && x.request.scope == scope)
  {
    if episodes == [] then None
    else if episodes[0].id == id && episodes[0].request.scope == scope then Some(episodes[0])
    else FindEpisode(episodes[1..], scope, id)
  }

  /** Processing a recorded event: one transaction that stores all proposals or, when it raises, nothing. */
  function Process(config: Config, db: Db, event: Envelope, ids: nat -> Ids): Result<Db, Fault> {
    if event.aggregate != event.episode then Err(MalformedEvent)
    else if !config.enabled then Ok(db)
    else
      match FindEpisode(db.memory.episodes, event.scope.(tenant := event.tenant), event.episode)
      case None => Err(EpisodeMissing)
      case Some(e) => ProposeFrom(db, event, config.propose(e), ids, 0)
  }

  // ----- What the tables keep -----------------------------------------------------------------------

  ghost predicate EventIdsDistinct(events: seq<Envelope>) {
    forall i, j :: 0 <= i < j < |events| ==> events[i].eventId != events[j].eventId
  }

  ghost predicate ClaimsDistinct(claims: seq<Claim>) {
    forall i, j :: 0 <= i < j < |claims| ==> claims[i].id != claims[j].id && ClaimKeyOf(claims[i]) != ClaimKeyOf(claims[j])
  }

  /** Claim-proposed events about a claim. */
  function ProposedOf(events: seq<Envelope>, id: Uuid): (n: nat) {
    if events == [] then 0
    else
      var last := events[|events| - 1];
      ProposedOf(events[..|events| - 1], id) + if last.kind == ClaimProposed && last.aggregate == id then 1 else 0
  }

  ghost predicate ProposalHolds(claims: seq<Claim>, event: Envelope) {
    event.kind == ClaimProposed ==>
      event.causation.Some? && exists c :: c in claims && c.id == event.aggregate
                                           && event == ClaimEvent(c, event.eventId, event.causation.value)
  }

  /** At most one claim per tenant, episode and extractor version; claims and claim-proposed events one to one. */
  ghost predicate Sound(db: Db) {
    && Consistent(db.memory) && EventIdsDistinct(db.memory.events) && ClaimsDistinct(db.claims)
    && (forall c :: c in db.claims ==> ProposedOf(db.memory.events, c.id) == 1)
    && (forall event :: event in db.memory.events ==> ProposalHolds(db.claims, event))
  }

  /** Generated ids are new, and different from each other. */
  ghost predicate FreshIds(db: Db, ids: Ids) {
    && (forall c :: c in db.claims ==> c.id != ids.claim)
    && (forall event :: event in db.memory.events ==> event.eventId != ids.event)
  }

  ghost predicate FreshSupply(db: Db, ids: nat -> Ids, from_: nat, n: nat) {
    && (forall i :: from_ <= i < n ==> FreshIds(db, ids(i)))
    && (forall i, j :: from_ <= i < j < n ==> ids(i).claim != ids(j).claim && ids(i).event != ids(j).event)
  }

  lemma ProposedOfSnoc(events: seq<Envelope>, event: Envelope, id: Uuid)
    ensures ProposedOf(events + [event], id) ==
            ProposedOf(events, id) + if event.kind == ClaimProposed && event.aggregate == id then 1 else 0
  {
    assert (events + [event])[..|events + [event]| - 1] == events;
  }

  lemma {:induction false} NoProposalOf(events: seq<Envelope>, id: Uuid)
    requires forall event :: event in events && event.kind == ClaimProposed ==> event.aggregate != id
    ensures ProposedOf(events, id) == 0
  {
    if events != [] {
      NoProposalOf(events[..|events| - 1], id);
    }
  }

  /** An event of another kind leaves the episodes' events alone. */
  lemma OtherEventKeeps(c: Committed, event: Envelope)
    requires Consistent(c) && event.kind != EpisodeRecorded
    ensures Consistent(c.(events := c.events + [event]))
  {
    var c' := c.(events := c.events + [event]);
    forall e | e in c'.episodes ensures EpisodeHolds(c', e) {
      assert EpisodeHolds(c, e);
      EventsOfSnoc(c.events, event, e.id);
    }
    forall x | x in c'.events ensures EventHolds(c', x) {
      if x in c.events {
        assert EventHolds(c, x);
      }
    }
  }

  lemma NewClaimKeeps(db: Db, c: Claim, eventId: Uuid, cause: Uuid)
    requires Sound(db) && FreshIds(db, Ids(c.id, eventId)) && !HasClaim(db.claims, ClaimKeyOf(c))
    ensures Sound(db.(claims := db.claims + [c],
                      memory := db.memory.(events := db.memory.events + [ClaimEvent(c, eventId, cause)])))
  {
    var event := ClaimEvent(c, eventId, cause);
    OtherEventKeeps(db.memory, event);
    forall x | x in db.claims + [c] ensures ProposedOf(db.memory.events + [event], x.id) == 1 {
      ProposedOfSnoc(db.memory.events, event, x.id);
      if x !in db.claims {
        NoEventYet(db, c.id);
      }
    }
    forall x | x in db.memory.events + [event] ensures ProposalHolds(db.claims + [c], x) {
      if x in db.memory.events {
        assert ProposalHolds(db.claims, x);
      } else {
        assert c in db.claims + [c];
      }
    }
  }

  lemma NoEventYet(db: Db, id: Uuid)
    requires Sound(db) && forall x :: x in db.claims ==> x.id != id
    ensures ProposedOf(db.memory.events, id) == 0
  {
    forall event | event in db.memory.events && event.kind == ClaimProposed ensures event.aggregate != id {
      assert ProposalHolds(db.claims, event);
    }
    NoProposalOf(db.memory.events, id);
  }

  /** What processing may change: claims and claim-proposed events are added, nothing else. */
  ghost predicate Extends(db: Db, db': Db) {
    && db'.memory.episodes == db.memory.episodes && db'.memory.index == db.memory.index
    && db'.inbox == db.inbox && db'.published == db.published
    && db.claims <= db'.claims && db.memory.events <= db'.memory.events
    && |db'.claims| - |db.claims| == |db'.memory.events| - |db.memory.events|
    && (forall i :: |db.memory.events| <= i < |db'.memory.events| ==> db'.memory.events[i].kind == ClaimProposed)
  }

  lemma ProposeOneKeeps(db: Db, cause: Envelope, proposal: Claim, ids: Ids)
    requires Sound(db) && FreshIds(db, ids) && ProposeOne(db, cause, proposal, ids).Ok?
    ensures var db' := ProposeOne(db, cause, proposal, ids).value;
            && Sound(db') && Extends(db, db') && HasClaim(db'.claims, ClaimKeyOf(proposal)) && |db'.claims| <= |db.claims| + 1
            && (forall c :: c in db'.claims ==> c in db.claims || c.id == ids.claim)
            && (forall event :: event in db'.memory.events ==> event in db.memory.events || event.eventId == ids.event)
  {
    var c := proposal.(id := ids.claim);
    assert ClaimKeyOf(c) == ClaimKeyOf(proposal);
    if !HasClaim(db.claims, ClaimKeyOf(c)) {
      NewClaimKeeps(db, c, ids.event, cause.eventId);
      assert c in db.claims + [c];
    }
  }

  lemma HasClaimGrows(claims: seq<Claim>, more: seq<Claim>, key: ClaimKey)
    requires claims <= more && HasClaim(claims, key)
    ensures HasClaim(more, key)
  {
    var c :| c in claims && ClaimKeyOf(c) == key;
    assert c in more;
  }

  lemma ExtendsTransitive(a: Db, b: Db, c: Db)
    requires Extends(a, b) && Extends(b, c)
    ensures Extends(a, c)
  {
    forall i | |a.memory.events| <= i < |c.memory.events| ensures c.memory.events[i].kind == ClaimProposed {
      if i < |b.memory.events| {
        assert c.memory.events[i] == b.memory.events[i];
      }
    }
  }

  lemma {:induction false} ProposeFromKeeps(db: Db, cause: Envelope, proposals: seq<Claim>, ids: nat -> Ids, i: nat)
    requires i <= |proposals| && Sound(db) && FreshSupply(db, ids, i, |proposals|)
    requires ProposeFrom(db, cause, proposals, ids, i).Ok?
    ensures var db' := ProposeFrom(db, cause, proposals, ids, i).value;
            && Sound(db') && Extends(db, db') && |db'.claims| <= |db.claims| + |proposals| - i
            && forall j :: i <= j < |proposals| ==> HasClaim(db'.claims, ClaimKeyOf(proposals[j]))
    decreases |proposals| - i
  {
    if i < |proposals| {
      var next := ProposeOne(db, cause, proposals[i], ids(i)).value;
      ProposeOneKeeps(db, cause, proposals[i], ids(i));
      forall j | i + 1 <= j < |proposals| ensures FreshIds(next, ids(j)) {
        assert FreshIds(db, ids(j));
      }
      ProposeFromKeeps(next, cause, proposals, ids, i + 1);
      var db' := ProposeFrom(db, cause, proposals, ids, i).value;
      ExtendsTransitive(db, next, db');
      HasClaimGrows(next.claims, db'.claims, ClaimKeyOf(proposals[i]));
    }
  }

  /** Processing adds claims for its proposals only. */
  lemma {:induction false} ProposeFromAdds(db: Db, cause: Envelope, proposals: seq<Claim>, ids: nat -> Ids, i: nat, key: ClaimKey)
    requires i <= |proposals| && ProposeFrom(db, cause, proposals, ids, i).Ok?
    requires HasClaim(ProposeFrom(db, cause, proposals, ids, i).value.claims, key) && !HasClaim(db.claims, key)
    ensures exists c :: c in proposals && ClaimKeyOf(c) == key
    decreases |proposals| - i
  {
    if i < |proposals| {
      var next := ProposeOne(db, cause, proposals[i], ids(i)).value;
      if HasClaim(next.claims, key) {
        var c :| c in next.claims && ClaimKeyOf(c) == key;
        assert ClaimKeyOf(proposals[i].(id := ids(i).claim)) == ClaimKeyOf(proposals[i]);
        assert proposals[i] in proposals;
      } else {
        ProposeFromAdds(next, cause, proposals, ids, i + 1, key);
      }
    }
  }

  /** How many proposals processing an event will generate ids for. */
  function ProposalsFor(config: Config, db: Db, event: Envelope): seq<Claim> {
    match FindEpisode(db.memory.episodes, event.scope.(tenant := event.tenant), event.episode)
    case None => []
    case Some(e) => if config.enabled then config.propose(e) else []
  }

  ghost predicate Supplied(config: Config, db: Db, event: Envelope, ids: nat -> Ids) {
    FreshSupply(db, ids, 0, |ProposalsFor(config, db, event)|)
  }

  /** Processing, whenever it does not raise, keeps the tables sound, adds one event per claim it adds, and
      leaves a claim stored for every proposal about the episode. */
  lemma ProcessKeeps(config: Config, db: Db, event: Envelope, ids: nat -> Ids)
    requires Sound(db) && Supplied(config, db, event, ids) && Process(config, db, event, ids).Ok?
    ensures var db' := Process(config, db, event, ids).value;
            && Sound(db') && Extends(db, db') && |db'.claims| <= |db.claims| + |ProposalsFor(config, db, event)|
            && forall c :: c in ProposalsFor(config, db, event) ==> HasClaim(db'.claims, ClaimKeyOf(c))
  {
    if config.enabled {
      ProposeFromKeeps(db, event, ProposalsFor(config, db, event), ids, 0);
    }
  }

  // ----- When processing cannot raise -----------------------------------------------------------------

  /** An extractor whose proposals are about the episode they were made from, in its scope. */
  ghost predicate Faithful(propose: Episode -> seq<Claim>) {
    forall e: Episode, c :: c in propose(e) ==> c.scope == e.request.scope && c.episode == e.id
  }

  lemma DeterministicIsFaithful(version: string)
    ensures Faithful(Deterministic(version)) && forall e: Episode :: |Deterministic(version)(e)| == 1
  {
  }

  lemma {:induction false} ProposeFromSucceeds(db: Db, cause: Envelope, proposals: seq<Claim>, ids: nat -> Ids, i: nat, e: Episode)
    requires i <= |proposals| && Sound(db) && FreshSupply(db, ids, i, |proposals|)
    requires e in db.memory.episodes && cause.episode == e.id
    requires forall c :: c in proposals ==> c.scope == e.request.scope && c.episode == e.id
    ensures ProposeFrom(db, cause, proposals, ids, i).Ok?
    decreases |proposals| - i
  {
    if i < |proposals| {
      assert proposals[i] in proposals && FreshIds(db, ids(i));
      var c := proposals[i].(id := ids(i).claim);
      assert c in db.claims + [c];
      ProposeOneKeeps(db, cause, proposals[i], ids(i));
      var next := ProposeOne(db, cause, proposals[i], ids(i)).value;
      forall j | i + 1 <= j < |proposals| ensures FreshIds(next, ids(j)) {
        assert FreshIds(db, ids(j));
      }
      ProposeFromSucceeds(next, cause, proposals, ids, i + 1, e);
    }
  }

  /** With a faithful extractor and fresh ids, processing an outbox event about an episode does not raise. */
  lemma ProcessSucceeds(config: Config, db: Db, event: Envelope, ids: nat -> Ids)
    requires Sound(db) && event in db.memory.events && event.kind == EpisodeRecorded
    requires Faithful(config.propose) && Supplied(config, db, event, ids)
    ensures Process(config, db, event, ids).Ok?
  {
    assert EventHolds(db.memory, event);
    var e :| e in db.memory.episodes && e.id == event.aggregate && event == RecordedEvent(e, event.eventId);
    if config.enabled {
      var found := FindEpisode(db.memory.episodes, event.scope.(tenant := event.tenant), event.episode);
      ProposeFromSucceeds(db, event, config.propose(found.value), ids, 0, found.value);
    }
  }

  // ----- The inbox ------------------------------------------------------------------------------------

  /** How delivering an event went, beyond what the tables decide: an exception before processing commits, one after
      it (a lost acknowledgement), one raised by the publisher that comes after the inbox, or none. */
  datatype Weather = Calm | FailsBefore(fault: Fault) | FailsAfter(fault: Fault) | Undelivered(fault: Fault)

  datatype Outcome = Processed | Skipped

  /** The ids are new, if processing comes to generate any. */
  ghost predicate Generates(config: Config, db: Db, event: Envelope, ids: nat -> Ids, weather: Weather) {
    weather.FailsBefore? || Supplied(config, db, event, ids)
  }

  /** Processing under a weather: the tables it leaves and the exception it raises, if any. */
  function Processing(config: Config, db: Db, event: Envelope, ids: nat -> Ids, weather: Weather): (Db, Option<Fault>) {
    if weather.FailsBefore? then (db, Some(weather.fault))
    else
      match Process(config, db, event, ids)
      case Err(fault) => (db, Some(fault))
      case Ok(after) => (after, if weather.FailsAfter? then Some(weather.fault) else None)
  }

  /** Handling a delivered event: an event recorded in the inbox is skipped, and one whose processing raises
      is taken out of the inbox again. */
  function Handle(config: Config, db: Db, event: Envelope, ids: nat -> Ids, weather: Weather): (Db, Result<Outcome, Fault>) {
    if event.kind != EpisodeRecorded || event.eventId in db.inbox then (db, Ok(Skipped))
    else
      var (after, raised) := Processing(config, db.(inbox := db.inbox + {event.eventId}), event, ids, weather);
      if raised.Some? then (after.(inbox := after.inbox - {event.eventId}), Err(raised.value))
      else (after, Ok(Processed))
  }

  /** Delivering an event: the inbox handles it, then the delegate publishes it. */
  function Deliver(config: Config, db: Db, event: Envelope, ids: nat -> Ids, weather: Weather): (Db, Result<Outcome, Fault>) {
    var (after, outcome) := Handle(config, db, event, ids, weather);
    (after, if outcome.Ok? && weather.Undelivered? then Err(weather.fault) else outcome)
  }

  lemma {:induction false} ProposeFromInbox(db: Db, cause: Envelope, proposals: seq<Claim>, ids: nat -> Ids, i: nat)
    requires i <= |proposals| && ProposeFrom(db, cause, proposals, ids, i).Ok?
    ensures ProposeFrom(db, cause, proposals, ids, i).value.inbox == db.inbox
    decreases |proposals| - i
  {
    if i < |proposals| {
      ProposeFromInbox(ProposeOne(db, cause, proposals[i], ids(i)).value, cause, proposals, ids, i + 1);
    }
  }

  /** An event that was processed, or skipped for being in the inbox, is there, and delivering it again changes
      nothing; one whose processing raised is not, so delivering it again processes it again. No other event's
      row is touched. */
  lemma InboxDeduplicates(config: Config, db: Db, event: Envelope, ids: nat -> Ids, weather: Weather, ids': nat -> Ids, weather': Weather)
    requires event.kind == EpisodeRecorded
    ensures var (after, outcome) := Handle(config, db, event, ids, weather);
            && (outcome.Ok? ==> after.inbox == db.inbox + {event.eventId}
                                && Handle(config, after, event, ids', weather') == (after, Ok(Skipped)))
            && (outcome.Err? ==> event.eventId !in db.inbox && after.inbox == db.inbox
                                 && Handle(config, after, event, ids', weather').1 != Ok(Skipped))
  {
    if event.eventId !in db.inbox {
      var recorded := db.(inbox := db.inbox + {event.eventId});
      if config.enabled && Process(config, recorded, event, ids).Ok? {
        ProposeFromInbox(recorded, event, ProposalsFor(config, recorded, event), ids, 0);
      }
      assert recorded.inbox - {event.eventId} == db.inbox;
    } else {
      assert db.inbox + {event.eventId} == db.inbox;
    }
  }

  /** The memory tables behind the stores, and the handlers that use them. */
  class MemoryTables {
    var memory: Committed
    var claims: seq<Claim>
    var inbox: set<Uuid>
    var published: set<Uuid>

    constructor (db: Db)
      ensures Contents() == db
    {
      memory, claims, inbox, published := db.memory, db.claims, db.inbox, db.published;
    }

    function Contents(): Db
      reads this
    {
      Db(memory, claims, inbox, published)
    }

    /** INSERT ... ON CONFLICT (event id) DO NOTHING, in its own transaction. */
    method TryRecord(event: Envelope) returns (recorded: bool)
      modifies this`inbox
      ensures recorded <==> event.eventId !in old(inbox)
      ensures inbox == old(inbox) + {event.eventId}
    {
      recorded := event.eventId !in inbox;
      inbox := inbox + {event.eventId};
    }

    method RemoveRecord(event: Envelope)
      modifies this`inbox
      ensures inbox == old(inbox) - {event.eventId}
    {
      inbox := inbox - {event.eventId};
    }

    /** Loads the episode, stores its proposals and their events in a transaction, commits. */
    method ExtractClaims(config: Config, event: Envelope, ids: nat -> Ids) returns (r: Result<(), Fault>)
      modifies this`memory, this`claims
      ensures match Process(config, old(Contents()), event, ids)
              case Err(fault) => r == Err(fault) && Contents() == old(Contents())
              case Ok(after) => r == Ok(()) && Contents() == after
    {
      if event.aggregate != event.episode {
        return Err(MalformedEvent);
      }
      if !config.enabled {
        return Ok(());
      }
      ghost var before := Contents();
      var work := Contents();
      var episode := FindEpisode(work.memory.episodes, event.scope.(tenant := event.tenant), event.episode);
      if episode.None? {
        return Err(EpisodeMissing);
      }
      var proposals := config.propose(episode.value);
      for i := 0 to |proposals|
        invariant ProposeFrom(before, event, proposals, ids, 0) == ProposeFrom(work, event, proposals, ids, i)
        invariant work.inbox == inbox && work.published == published && Contents() == before
      {
        var claim := proposals[i].(id := ids(i).claim);
        var added := AddProposal(work, claim);
        if added.Err? {
          return Err(added.error);
        }
        work := added.value.0;
        if added.value.1 {
          if claim.episode != event.episode {
            return Err(EvidenceMismatch);
          }
          var sent := PublishProposal(work, ClaimEvent(claim, ids(i).event, event.eventId));
          if sent.Err? {
            return Err(sent.error);
          }
          work := sent.value;
        }
      }
      memory, claims := work.memory, work.claims;
      r := Ok(());
    }

    method ProcessEvent(config: Config, event: Envelope, ids: nat -> Ids, weather: Weather) returns (r: Result<(), Fault>)
      modifies this`memory, this`claims
      ensures var (after, raised) := Processing(config, old(Contents()), event, ids, weather);
              Contents() == after && r == if raised.Some? then Err(raised.value) else Ok(())
    {
      if weather.FailsBefore? {
        return Err(weather.fault);
      }
      r := ExtractClaims(config, event, ids);
      if r.Ok? && weather.FailsAfter? {
        r := Err(weather.fault);
      }
    }

    method HandleEvent(config: Config, event: Envelope, ids: nat -> Ids, weather: Weather) returns (r: Result<Outcome, Fault>)
      modifies this
      ensures (Contents(), r) == Handle(config, old(Contents()), event, ids, weather)
    {
      if event.kind != EpisodeRecorded {
        return Ok(Skipped);
      }
      ghost var before := Contents();
      var recorded := TryRecord(event);
      if !recorded {
        assert inbox == before.inbox;
        return Ok(Skipped);
      }
      var processed := ProcessEvent(config, event, ids, weather);
      if processed.Err? {
        RemoveRecord(event);
        return Err(processed.error);
      }
      r := Ok(Processed);
    }

    method DeliverEvent(config: Config, event: Envelope, ids: nat -> Ids, weather: Weather) returns (r: Result<Outcome, Fault>)
      modifies this
      ensures (Contents(), r) == Deliver(config, old(Contents()), event, ids, weather)
    {
      r := HandleEvent(config, event, ids, weather);
      if r.Ok? && weather.Undelivered? {
        r := Err(weather.fault);
      }
    }
  }
}
