/** The outbox relay: poll the oldest unpublished events, deliver them, mark them published. Delivering an
    episode's event appends claim events to the outbox being drained. */
module OutboxRelay {
  import opened Kernel
  import opened Text
  import opened Sorting
  import opened EpisodeStore
  import opened ClaimExtraction

  datatype Counts = Counts(fetched: nat, dispatched: nat, published: nat, remaining: nat)

  /** Rows without a publication time, keyed by what they are ordered by. */
  function Waiting(events: seq<Envelope>, published: set<Uuid>): seq<Keyed<Envelope>> {
    if events == [] then []
    else
      var last := events[|events| - 1];
      Waiting(events[..|events| - 1], published)
        + if last.eventId in published then [] else [Keyed([last.occurredAt, last.eventId], last)]
  }

  function Items(xs: seq<Keyed<Envelope>>): (events: seq<Envelope>)
    ensures |events| == |xs| && forall i :: 0 <= i < |xs| ==> events[i] == xs[i].item
  {
    seq(|xs|, i requires 0 <= i < |xs| => xs[i].item)
  }

  function Fetched(db: Db, limit: nat): seq<Envelope> {
    var ordered := Items(Sort(Waiting(db.memory.events, db.published)));
    if |ordered| <= limit then ordered else ordered[..limit]
  }

  /** Delivering the events from number `i` on; the first exception ends the round. */
  function DispatchFrom(config: Config, db: Db, batch: seq<Envelope>, ids: (nat, nat) -> Ids, weather: nat -> Weather, i: nat)
    : (Db, Option<Fault>)
    requires i <= |batch|
    decreases |batch| - i
  {
    if i == |batch| then (db, None)
    else
      var (after, outcome) := Deliver(config, db, batch[i], (k: nat) => ids(i, k), weather(i));
      match outcome
      case Err(fault) => (after, Some(fault))
      case Ok(_) => DispatchFrom(config, after, batch, ids, weather, i + 1)
  }

  /** One relay round. */
  function Round(config: Config, db: Db, limit: nat, ids: (nat, nat) -> Ids, weather: nat -> Weather): (Db, Result<Counts, Fault>) {
    var batch := Fetched(db, limit);
    if batch == [] then (db, Ok(Counts(0, 0, 0, |Waiting(db.memory.events, db.published)|)))
    else
      var (after, raised) := DispatchFrom(config, db, batch, ids, weather, 0);
      if raised.Some? then (after, Err(raised.value))
      else
        var marked := after.(published := after.published + IdsOf(batch));
        (marked, Ok(Counts(|batch|, |batch|, |batch|, |Waiting(marked.memory.events, marked.published)|)))
  }

  class RelayOutboxEventsHandler {
    const tables: MemoryTables
    const config: Config

    constructor (tables: MemoryTables, config: Config)
      ensures this.tables == tables && this.config == config
    {
      this.tables, this.config := tables, config;
    }

    method FetchUnpublished(limit: nat) returns (batch: seq<Envelope>)
      ensures batch == Fetched(tables.Contents(), limit)
    {
      batch := Fetched(tables.Contents(), limit);
    }

    method CountUnpublished() returns (n: nat)
      ensures n == |Waiting(tables.memory.events, tables.published)|
    {
      n := |Waiting(tables.memory.events, tables.published)|;
    }

    method MarkPublished(batch: seq<Envelope>)
      modifies tables`published
      ensures tables.published == old(tables.published) + IdsOf(batch)
    {
      tables.published := tables.published + IdsOf(batch);
    }

    method Relay(limit: nat, ids: (nat, nat) -> Ids, weather: nat -> Weather) returns (r: Result<Counts, Fault>)
      modifies tables
      ensures (tables.Contents(), r) == Round(config, old(tables.Contents()), limit, ids, weather)
    {
      var batch := FetchUnpublished(limit);
      if batch == [] {
        var remaining := CountUnpublished();
        return Ok(Counts(0, 0, 0, remaining));
      }
      ghost var whole := DispatchFrom(config, tables.Contents(), batch, ids, weather, 0);
      var dispatched := 0;
      for i := 0 to |batch|
        invariant dispatched == i && whole == DispatchFrom(config, tables.Contents(), batch, ids, weather, i)
      {
        var outcome := tables.DeliverEvent(config, batch[i], (k: nat) => ids(i, k), weather(i));
        if outcome.Err? {
          return Err(outcome.error);
        }
        dispatched := dispatched + 1;
      }
      MarkPublished(batch);
      var remaining := CountUnpublished();
      r := Ok(Counts(|batch|, dispatched, |batch|, remaining));
    }
  }

  // ----- What a poll returns --------------------------------------------------------------------------

  lemma {:induction false} WaitingMember(events: seq<Envelope>, published: set<Uuid>, x: Keyed<Envelope>)
    ensures x in Waiting(events, published) <==>
            x.item in events && x.item.eventId !in published && x.key == [x.item.occurredAt, x.item.eventId]
  {
    if events != [] {
      var rest, last := events[..|events| - 1], events[|events| - 1];
      WaitingMember(rest, published, x);
      assert events == rest + [last];
    }
  }

  lemma {:induction false} WaitingDistinct(events: seq<Envelope>, published: set<Uuid>)
    requires EventIdsDistinct(events)
    ensures DistinctKeys(Waiting(events, published))
  {
    if events != [] {
      var rest, last := events[..|events| - 1], events[|events| - 1];
      WaitingDistinct(rest, published);
      var before := Waiting(rest, published);
      forall i | 0 <= i < |before| ensures before[i].key != [last.occurredAt, last.eventId] {
        assert before[i] in before;
        WaitingMember(rest, published, before[i]);
        var j :| 0 <= j < |rest| && rest[j] == before[i].item;
        assert events[j].eventId != events[|events| - 1].eventId;
        assert before[i].key[1] != last.eventId;
      }
    }
  }

  ghost predicate Before(a: Envelope, b: Envelope) {
    Less([a.occurredAt, a.eventId], [b.occurredAt, b.eventId])
  }

  /** Older, or as old with the smaller id. */
  lemma BeforeIs(a: Envelope, b: Envelope)
    ensures Before(a, b) <==> a.occurredAt < b.occurredAt || (a.occurredAt == b.occurredAt && a.eventId < b.eventId)
  {
    var x, y := [a.occurredAt, a.eventId as int], [b.occurredAt, b.eventId as int];
    assert x[1..] == [a.eventId as int] && y[1..] == [b.eventId as int];
    assert x[1..][1..] == [] && y[1..][1..] == [];
    assert Less(x[1..], y[1..]) <==> a.eventId < b.eventId;
  }

  /** A poll returns unpublished events, each once, in order, as many as the limit allows, and what it leaves
      comes after everything it returns. */
  lemma FetchesOldest(db: Db, limit: nat)
    requires EventIdsDistinct(db.memory.events)
    ensures var batch := Fetched(db, limit);
            && (forall event :: event in batch ==> event in db.memory.events && event.eventId !in db.published)
            && (forall i, j :: 0 <= i < j < |batch| ==> Before(batch[i], batch[j]) && batch[i].eventId != batch[j].eventId)
            && |batch| == (if |Waiting(db.memory.events, db.published)| < limit then |Waiting(db.memory.events, db.published)| else limit)
            && forall event :: event in db.memory.events && event.eventId !in db.published && event !in batch ==>
                 forall x :: x in batch ==> Before(x, event)
  {
    var waiting := Waiting(db.memory.events, db.published);
    var sorted := Sort(waiting);
    WaitingDistinct(db.memory.events, db.published);
    SortSorts(waiting);
    SameMembers(sorted, waiting);
    var batch, ordered := Fetched(db, limit), Items(sorted);
    forall i | 0 <= i < |ordered|
      ensures ordered[i] in db.memory.events && ordered[i].eventId !in db.published
      ensures sorted[i].key == [ordered[i].occurredAt, ordered[i].eventId]
    {
      SortMember(waiting, i);
      WaitingMember(db.memory.events, db.published, sorted[i]);
    }
    forall i, j | 0 <= i < j < |ordered| ensures Before(ordered[i], ordered[j]) && ordered[i].eventId != ordered[j].eventId {
      assert Less(sorted[i].key, sorted[j].key);
      if ordered[i].eventId == ordered[j].eventId {
        SameId(db.memory.events, ordered[i], ordered[j]);
        LessTotal(sorted[i].key, sorted[j].key);
      }
    }
    forall event, x | event in db.memory.events && event.eventId !in db.published && event !in batch && x in batch
      ensures Before(x, event)
    {
      var keyed := Keyed([event.occurredAt, event.eventId], event);
      WaitingMember(db.memory.events, db.published, keyed);
      assert keyed in sorted;
      var j :| 0 <= j < |sorted| && sorted[j] == keyed;
      assert ordered[j] == event;
      var i :| 0 <= i < |batch| && batch[i] == x;
      assert event == (ordered[..|batch|] + ordered[|batch|..])[j] && ordered[..|batch|] == batch;
      assert event in ordered[|batch|..];
      assert Before(ordered[i], ordered[j]);
    }
  }

  /** Marking takes exactly the batch's rows off what waits, so no later poll returns them. */
  lemma MarkedIsNotPolled(db: Db, batch: seq<Envelope>, limit: nat)
    requires EventIdsDistinct(db.memory.events) && forall event :: event in batch ==> event in db.memory.events
    ensures var marked := db.(published := db.published + IdsOf(batch));
            && (forall x :: x in Waiting(marked.memory.events, marked.published) <==>
                  x in Waiting(db.memory.events, db.published) && x.item !in batch)
            && forall event :: event in Fetched(marked, limit) ==> event !in batch
  {
    var marked := db.(published := db.published + IdsOf(batch));
    forall x ensures x in Waiting(marked.memory.events, marked.published) <==>
                     x in Waiting(db.memory.events, db.published) && x.item !in batch
    {
      WaitingMember(db.memory.events, db.published, x);
      WaitingMember(db.memory.events, marked.published, x);
      if x.item in db.memory.events && x.item.eventId in IdsOf(batch) {
        var event :| event in batch && event.eventId == x.item.eventId;
        SameId(db.memory.events, event, x.item);
      }
    }
    FetchesOldest(marked, limit);
  }

  lemma SameId(events: seq<Envelope>, x: Envelope, y: Envelope)
    requires EventIdsDistinct(events) && x in events && y in events && x.eventId == y.eventId
    ensures x == y
  {
  }

  // ----- Draining ---------------------------------------------------------------------------------------

  /** What an unpublished event weighs when processing an episode's event appends up to `n` claim events. */
  function WeightOf(event: Envelope, n: nat): nat {
    if event.kind == EpisodeRecorded then n + 1 else 1
  }

  function Weight(events: seq<Envelope>, published: set<Uuid>, n: nat): nat {
    if events == [] then 0
    else
      var last := events[|events| - 1];
      Weight(events[..|events| - 1], published, n) + if last.eventId in published then 0 else WeightOf(last, n)
  }

  /** Up to `n` claim events for each episode event from number `i` on. */
  function Allowance(batch: seq<Envelope>, i: nat, n: nat): nat
    requires i <= |batch|
    decreases |batch| - i
  {
    if i == |batch| then 0 else Allowance(batch, i + 1, n) + if batch[i].kind == EpisodeRecorded then n else 0
  }

  /** With n = 0 the weight counts the waiting rows; with n = 1 it is twice the episode events plus the others. */
  lemma {:induction false} WeightCounts(events: seq<Envelope>, published: set<Uuid>, n: nat)
    ensures Weight(events, published, 0) == |Waiting(events, published)|
    ensures |Waiting(events, published)| <= Weight(events, published, n) <= (n + 1) * |Waiting(events, published)|
  {
    if events != [] {
      WeightCounts(events[..|events| - 1], published, n);
    }
  }

  lemma {:induction false} WeightGrows(events: seq<Envelope>, more: seq<Envelope>, published: set<Uuid>, n: nat)
    requires events <= more
    requires forall i :: |events| <= i < |more| ==> more[i].kind == ClaimProposed && more[i].eventId !in published
    ensures Weight(more, published, n) == Weight(events, published, n) + |more| - |events|
  {
    if |events| < |more| {
      WeightGrows(events, more[..|more| - 1], published, n);
    } else {
      assert more == events;
    }
  }

  lemma {:induction false} OtherIdSameWeight(events: seq<Envelope>, published: set<Uuid>, id: Uuid, n: nat)
    requires forall event :: event in events ==> event.eventId != id
    ensures Weight(events, published + {id}, n) == Weight(events, published, n)
  {
    if events != [] {
      OtherIdSameWeight(events[..|events| - 1], published, id, n);
    }
  }

  lemma {:induction false} MarkOne(events: seq<Envelope>, published: set<Uuid>, event: Envelope, n: nat)
    requires EventIdsDistinct(events) && event in events && event.eventId !in published
    ensures Weight(events, published, n) == Weight(events, published + {event.eventId}, n) + WeightOf(event, n)
  {
    var rest, last := events[..|events| - 1], events[|events| - 1];
    assert events == rest + [last];
    if event == last {
      OtherIdSameWeight(rest, published, event.eventId, n);
    } else {
      MarkOne(rest, published, event, n);
    }
  }

  /** Marking a batch takes off one per event and `n` more per episode event. */
  lemma {:induction false} MarkBatch(events: seq<Envelope>, published: set<Uuid>, batch: seq<Envelope>, i: nat, n: nat)
    requires i <= |batch| && EventIdsDistinct(events)
    requires forall j :: i <= j < |batch| ==> batch[j] in events && batch[j].eventId !in published
    requires forall j, k :: i <= j < k < |batch| ==> batch[j].eventId != batch[k].eventId
    ensures Weight(events, published, n) ==
            Weight(events, published + IdsOf(batch[i..]), n) + (|batch| - i) + Allowance(batch, i, n)
    decreases |batch| - i
  {
    if i < |batch| {
      var marked := published + {batch[i].eventId};
      MarkOne(events, published, batch[i], n);
      MarkBatch(events, marked, batch, i + 1, n);
      assert batch[i..] == [batch[i]] + batch[i + 1..];
      assert published + IdsOf(batch[i..]) == marked + IdsOf(batch[i + 1..]);
    } else {
      assert batch[i..] == [] && published + IdsOf([]) == published;
    }
  }

  /** Published ids are ids of outbox rows. */
  ghost predicate PublishedKnown(db: Db) {
    forall id :: id in db.published ==> exists event :: event in db.memory.events && event.eventId == id
  }

  ghost predicate AtMost(propose: Episode -> seq<Claim>, n: nat) {
    forall e: Episode :: |propose(e)| <= n
  }

  ghost predicate Calmly(weather: nat -> Weather) {
    forall i: nat :: weather(i) == Calm
  }

  /** Every id is new when it is generated. */
  ghost predicate SuppliedAlong(config: Config, db: Db, batch: seq<Envelope>, ids: (nat, nat) -> Ids, weather: nat -> Weather, i: nat)
    requires i <= |batch|
    decreases |batch| - i
  {
    i == |batch|
    || (&& Generates(config, db.(inbox := db.inbox + {batch[i].eventId}), batch[i], (k: nat) => ids(i, k), weather(i))
        && SuppliedAlong(config, Deliver(config, db, batch[i], (k: nat) => ids(i, k), weather(i)).0, batch, ids, weather, i + 1))
  }

  /** What delivering may change. */
  ghost predicate Delivers(db: Db, db': Db, added: nat) {
    && db'.published == db.published && db.claims <= db'.claims && db.memory.events <= db'.memory.events
    && |db'.claims| - |db.claims| == |db'.memory.events| - |db.memory.events| <= added
    && forall i :: |db.memory.events| <= i < |db'.memory.events| ==> db'.memory.events[i].kind == ClaimProposed
  }

  lemma HandleCalmly(config: Config, db: Db, event: Envelope, ids: nat -> Ids, n: nat)
    requires Sound(db) && event in db.memory.events && Faithful(config.propose) && AtMost(config.propose, n)
    requires Supplied(config, db.(inbox := db.inbox + {event.eventId}), event, ids)
    ensures var (after, outcome) := Deliver(config, db, event, ids, Calm);
            && outcome.Ok? && Sound(after) && Delivers(db, after, if event.kind == EpisodeRecorded then n else 0)
  {
    if event.kind == EpisodeRecorded && event.eventId !in db.inbox {
      var recorded := db.(inbox := db.inbox + {event.eventId});
      ProcessSucceeds(config, recorded, event, ids);
      ProcessKeeps(config, recorded, event, ids);
    }
  }

  lemma DeliversTransitive(a: Db, b: Db, c: Db, m: nat, n: nat)
    requires Delivers(a, b, m) && Delivers(b, c, n)
    ensures Delivers(a, c, m + n)
  {
    forall i | |a.memory.events| <= i < |c.memory.events| ensures c.memory.events[i].kind == ClaimProposed {
      if i < |b.memory.events| {
        assert c.memory.events[i] == b.memory.events[i];
      }
    }
  }

  /** Delivering a batch in calm weather does not raise, and appends at most `n` claim events per episode event. */
  lemma {:induction false} DispatchCalmly(
    config: Config, db: Db, batch: seq<Envelope>, ids: (nat, nat) -> Ids, weather: nat -> Weather, i: nat, n: nat)
    requires i <= |batch| && Sound(db) && Calmly(weather) && Faithful(config.propose) && AtMost(config.propose, n)
    requires forall j :: i <= j < |batch| ==> batch[j] in db.memory.events
    requires SuppliedAlong(config, db, batch, ids, weather, i)
    ensures var (after, raised) := DispatchFrom(config, db, batch, ids, weather, i);
            raised.None? && Sound(after) && Delivers(db, after, Allowance(batch, i, n))
    decreases |batch| - i
  {
    if i < |batch| {
      var supply := (k: nat) => ids(i, k);
      HandleCalmly(config, db, batch[i], supply, n);
      var next := Deliver(config, db, batch[i], supply, weather(i)).0;
      StillStored(db, next, batch, i + 1, if batch[i].kind == EpisodeRecorded then n else 0);
      DispatchCalmly(config, next, batch, ids, weather, i + 1, n);
      DeliversMore(db, next, DispatchFrom(config, next, batch, ids, weather, i + 1).0, batch, i, n);
    }
  }

  lemma StillStored(db: Db, next: Db, batch: seq<Envelope>, i: nat, added: nat)
    requires Delivers(db, next, added) && forall j :: i <= j < |batch| ==> batch[j] in db.memory.events
    ensures forall j :: i <= j < |batch| ==> batch[j] in next.memory.events
  {
    forall j | i <= j < |batch| ensures batch[j] in next.memory.events {
      var k :| 0 <= k < |db.memory.events| && db.memory.events[k] == batch[j];
      assert next.memory.events[k] == batch[j];
    }
  }

  lemma DeliversMore(db: Db, next: Db, after: Db, batch: seq<Envelope>, i: nat, n: nat)
    requires i < |batch| && Delivers(db, next, if batch[i].kind == EpisodeRecorded then n else 0)
    requires Delivers(next, after, Allowance(batch, i + 1, n))
    ensures Delivers(db, after, Allowance(batch, i, n))
  {
    DeliversTransitive(db, next, after, if batch[i].kind == EpisodeRecorded then n else 0, Allowance(batch, i + 1, n));
  }

  /** Events appended since the published ids were known are not published. */
  lemma NewAreWaiting(db: Db, after: Db, added: nat)
    requires PublishedKnown(db) && Sound(after) && Delivers(db, after, added)
    ensures forall i :: |db.memory.events| <= i < |after.memory.events| ==> after.memory.events[i].eventId !in db.published
  {
    forall i | |db.memory.events| <= i < |after.memory.events| ensures after.memory.events[i].eventId !in db.published {
      forall event | event in db.memory.events ensures event.eventId != after.memory.events[i].eventId {
        var j :| 0 <= j < |db.memory.events| && db.memory.events[j] == event;
        assert after.memory.events[j] == event;
      }
    }
  }

  /** Delivering the fetched batch, and marking it. */
  lemma BatchDelivered(config: Config, db: Db, batch: seq<Envelope>, ids: (nat, nat) -> Ids, weather: nat -> Weather, n: nat)
    requires Sound(db) && PublishedKnown(db) && Calmly(weather) && Faithful(config.propose) && AtMost(config.propose, n)
    requires SuppliedAlong(config, db, batch, ids, weather, 0)
    requires forall event :: event in batch ==> event in db.memory.events
    ensures var (delivered, raised) := DispatchFrom(config, db, batch, ids, weather, 0);
            && raised.None? && Sound(delivered) && Delivers(db, delivered, Allowance(batch, 0, n))
            && Sound(delivered.(published := delivered.published + IdsOf(batch)))
            && PublishedKnown(delivered.(published := delivered.published + IdsOf(batch)))
            && forall i :: |db.memory.events| <= i < |delivered.memory.events| ==>
                 delivered.memory.events[i].kind == ClaimProposed && delivered.memory.events[i].eventId !in db.published
  {
    DispatchCalmly(config, db, batch, ids, weather, 0, n);
    var delivered := DispatchFrom(config, db, batch, ids, weather, 0).0;
    NewAreWaiting(db, delivered, Allowance(batch, 0, n));
    forall event | event in db.memory.events ensures event in delivered.memory.events {
      var i :| 0 <= i < |db.memory.events| && db.memory.events[i] == event;
      assert delivered.memory.events[i] == event;
    }
  }

  lemma Balances(db: Db, delivered: Db, batch: seq<Envelope>, n: nat)
    requires Sound(delivered) && db.memory.events <= delivered.memory.events
    requires forall i :: |db.memory.events| <= i < |delivered.memory.events| ==>
               delivered.memory.events[i].kind == ClaimProposed && delivered.memory.events[i].eventId !in db.published
    requires forall event :: event in batch ==> event in db.memory.events && event.eventId !in db.published
    requires forall i, j :: 0 <= i < j < |batch| ==> batch[i].eventId != batch[j].eventId
    ensures var more := delivered.memory.events;
            && Weight(more, db.published + IdsOf(batch), n) + |batch| + Allowance(batch, 0, n) ==
               Weight(db.memory.events, db.published, n) + |more| - |db.memory.events|
            && Weight(more, db.published + IdsOf(batch), 0) == |Waiting(more, db.published + IdsOf(batch))|
            && Weight(db.memory.events, db.published, 0) == |Waiting(db.memory.events, db.published)|
  {
    WeightGrows(db.memory.events, delivered.memory.events, db.published, n);
    forall j | 0 <= j < |batch| ensures batch[j] in delivered.memory.events && batch[j].eventId !in db.published {
      assert batch[j] in batch;
      var i :| 0 <= i < |db.memory.events| && db.memory.events[i] == batch[j];
      assert delivered.memory.events[i] == batch[j];
    }
    MarkBatch(delivered.memory.events, db.published, batch, 0, n);
    assert batch[0..] == batch;
    WeightCounts(delivered.memory.events, db.published + IdsOf(batch), 0);
    WeightCounts(db.memory.events, db.published, 0);
  }

  lemma Accounts(db: Db, delivered: Db, batch: seq<Envelope>, n: nat)
    requires Sound(delivered) && Delivers(db, delivered, Allowance(batch, 0, n))
    requires forall i :: |db.memory.events| <= i < |delivered.memory.events| ==>
               delivered.memory.events[i].kind == ClaimProposed && delivered.memory.events[i].eventId !in db.published
    requires forall event :: event in batch ==> event in db.memory.events && event.eventId !in db.published
    requires forall i, j :: 0 <= i < j < |batch| ==> batch[i].eventId != batch[j].eventId
    ensures var published := db.published + IdsOf(batch);
            && |Waiting(delivered.memory.events, published)| ==
               |Waiting(db.memory.events, db.published)| - |batch| + |delivered.claims| - |db.claims|
            && Weight(delivered.memory.events, published, n) + |batch| <= Weight(db.memory.events, db.published, n)
  {
    Balances(db, delivered, batch, n);
    Balances(db, delivered, batch, 0);
    NoAllowance(batch, 0);
  }

  lemma {:induction false} NoAllowance(batch: seq<Envelope>, i: nat)
    requires i <= |batch|
    ensures Allowance(batch, i, 0) == 0
    decreases |batch| - i
  {
    if i < |batch| {
      NoAllowance(batch, i + 1);
    }
  }

  lemma RoundShape(config: Config, db: Db, limit: nat, ids: (nat, nat) -> Ids, weather: nat -> Weather,
                   batch: seq<Envelope>, after: Db, raised: Option<Fault>)
    requires batch == Fetched(db, limit) != [] && (after, raised) == DispatchFrom(config, db, batch, ids, weather, 0)
    ensures Round(config, db, limit, ids, weather) ==
            if raised.Some? then (after, Err(raised.value))
            else
              var marked := after.(published := after.published + IdsOf(batch));
              (marked, Ok(Counts(|batch|, |batch|, |batch|, |Waiting(marked.memory.events, marked.published)|)))
  {
  }

  /** A calm round returns; it keeps the tables sound; its counts balance - what remains is what was waiting,
      less what it published, plus a row per claim it added; and the weight drops by at least the batch. */
  lemma CalmRound(config: Config, db: Db, limit: nat, ids: (nat, nat) -> Ids, weather: nat -> Weather, n: nat)
    requires Sound(db) && PublishedKnown(db) && Calmly(weather) && Faithful(config.propose) && AtMost(config.propose, n)
    requires SuppliedAlong(config, db, Fetched(db, limit), ids, weather, 0)
    ensures var (after, outcome) := Round(config, db, limit, ids, weather);
            var waiting, batch := |Waiting(db.memory.events, db.published)|, Fetched(db, limit);
            && outcome.Ok? && Sound(after) && PublishedKnown(after)
            && outcome.value.fetched == outcome.value.dispatched == outcome.value.published == |batch|
            && |batch| == (if waiting < limit then waiting else limit)
            && outcome.value.remaining == |Waiting(after.memory.events, after.published)|
            && outcome.value.remaining == waiting - |batch| + |after.claims| - |db.claims|
            && Weight(after.memory.events, after.published, n) + |batch| <= Weight(db.memory.events, db.published, n)
            && after.published == db.published + IdsOf(batch)
  {
    var batch := Fetched(db, limit);
    FetchesOldest(db, limit);
    if batch == [] {
      assert db.published + IdsOf(batch) == db.published;
    } else {
      BatchDelivered(config, db, batch, ids, weather, n);
      var (delivered, raised) := DispatchFrom(config, db, batch, ids, weather, 0);
      RoundShape(config, db, limit, ids, weather, batch, delivered, raised);
      Accounts(db, delivered, batch, n);
    }
  }

  // ----- Repeated rounds ----------------------------------------------------------------------------------

  /** One calm round between two states of a run. */
  ghost predicate RoundAt(config: Config, limit: nat, run: seq<Db>, ids: nat -> (nat, nat) -> Ids, weather: nat -> Weather, i: nat)
    requires i + 1 < |run|
  {
    && SuppliedAlong(config, run[i], Fetched(run[i], limit), ids(i), weather, 0)
    && run[i + 1] == Round(config, run[i], limit, ids(i), weather).0
  }

  ghost predicate Rounds(config: Config, limit: nat, run: seq<Db>, ids: nat -> (nat, nat) -> Ids, weather: nat -> Weather) {
    run != [] && forall i :: 0 <= i < |run| - 1 ==> RoundAt(config, limit, run, ids, weather, i)
  }

  /** A calm round takes at least one off the weight, unless nothing is waiting. */
  lemma RoundLightens(config: Config, db: Db, limit: nat, ids: (nat, nat) -> Ids, weather: nat -> Weather, n: nat)
    requires Sound(db) && PublishedKnown(db) && Calmly(weather) && Faithful(config.propose) && AtMost(config.propose, n)
    requires SuppliedAlong(config, db, Fetched(db, limit), ids, weather, 0) && limit > 0
    ensures var after := Round(config, db, limit, ids, weather).0;
            && Sound(after) && PublishedKnown(after)
            && (Weight(after.memory.events, after.published, n) < Weight(db.memory.events, db.published, n)
                || Waiting(after.memory.events, after.published) == [])
  {
    CalmRound(config, db, limit, ids, weather, n);
    var after := Round(config, db, limit, ids, weather).0;
    if |Waiting(db.memory.events, db.published)| == 0 {
      WeightCounts(db.memory.events, db.published, n);
      WeightCounts(after.memory.events, after.published, n);
    }
  }

  lemma {:induction false} RoundsLighten(
    config: Config, limit: nat, run: seq<Db>, ids: nat -> (nat, nat) -> Ids, weather: nat -> Weather, n: nat, k: nat)
    requires Rounds(config, limit, run, ids, weather) && limit > 0 && k < |run|
    requires Sound(run[0]) && PublishedKnown(run[0]) && Calmly(weather) && Faithful(config.propose) && AtMost(config.propose, n)
    ensures Sound(run[k]) && PublishedKnown(run[k])
    ensures Weight(run[k].memory.events, run[k].published, n) + k <= Weight(run[0].memory.events, run[0].published, n)
            || Waiting(run[k].memory.events, run[k].published) == []
  {
    if k > 0 {
      RoundsLighten(config, limit, run, ids, weather, n, k - 1);
      assert RoundAt(config, limit, run, ids, weather, k - 1);
      RoundLightens(config, run[k - 1], limit, ids(k - 1), weather, n);
    }
  }

  lemma {:induction false} NoneWaiting(events: seq<Envelope>, published: set<Uuid>)
    requires Waiting(events, published) == []
    ensures forall event :: event in events ==> event.eventId in published
  {
    forall event | event in events ensures event.eventId in published {
      WaitingMember(events, published, Keyed([event.occurredAt, event.eventId], event));
    }
  }

  /** Repeated calm rounds drain the outbox, although they append to it: after as many rounds as the first
      state's weight, every event is published. */
  lemma RoundsDrain(config: Config, limit: nat, run: seq<Db>, ids: nat -> (nat, nat) -> Ids, weather: nat -> Weather, n: nat, k: nat)
    requires Rounds(config, limit, run, ids, weather) && limit > 0 && k < |run|
    requires Sound(run[0]) && PublishedKnown(run[0]) && Calmly(weather) && Faithful(config.propose) && AtMost(config.propose, n)
    requires k >= Weight(run[0].memory.events, run[0].published, n)
    ensures forall event :: event in run[k].memory.events ==> event.eventId in run[k].published
  {
    RoundsLighten(config, limit, run, ids, weather, n, k);
    WeightCounts(run[k].memory.events, run[k].published, n);
    NoneWaiting(run[k].memory.events, run[k].published);
  }

  /** With the rule-based extractor twice the unpublished episode events plus the others is enough. */
  lemma DeterministicDrains(version: string, limit: nat, run: seq<Db>, ids: nat -> (nat, nat) -> Ids, weather: nat -> Weather, k: nat)
    requires Rounds(Config(true, Deterministic(version)), limit, run, ids, weather) && limit > 0 && k < |run|
    requires Sound(run[0]) && PublishedKnown(run[0]) && Calmly(weather)
    requires k >= Weight(run[0].memory.events, run[0].published, 1)
    ensures forall event :: event in run[k].memory.events ==> event.eventId in run[k].published
  {
    DeterministicIsFaithful(version);
    RoundsDrain(Config(true, Deterministic(version)), limit, run, ids, weather, 1, k);
  }
}
