/** What processing an event stores and announces, claim by claim, and what every claim of a run says. */
module ClaimFacts {
  import opened Kernel
  import opened Text
  import opened RuntimeModel
  import opened EpisodeStore
  import opened ClaimExtraction
  import P = ClaimPipeline

  /** Claims of one tenant, episode and extractor version: only one of them is ever stored. */
  predicate Rivals(a: Claim, b: Claim) {
    a.scope.tenant == b.scope.tenant && a.episode == b.episode && a.version == b.version
  }

  /** Proposal number `i`, the loop being at `from_`, has no rival among the stored claims or earlier proposals. */
  predicate IsNew(claims: seq<Claim>, proposals: seq<Claim>, from_: nat, i: nat)
    requires i < |proposals|
  {
    && (forall c :: c in claims ==> !Rivals(c, proposals[i]))
    && forall j :: from_ <= j < i ==> !Rivals(proposals[j], proposals[i])
  }

  ghost predicate Picks(picks: seq<nat>, claims: seq<Claim>, proposals: seq<Claim>, from_: nat) {
    && (forall k :: 0 <= k < |picks| ==> from_ <= picks[k] < |proposals|)
    && (forall k, l :: 0 <= k < l < |picks| ==> picks[k] < picks[l])
    && forall i: nat :: from_ <= i < |proposals| ==> (i in picks <==> IsNew(claims, proposals, from_, i))
  }

  /** The claims of the picked proposals, in order, each as it was proposed except for its id. */
  function Stored(proposals: seq<Claim>, ids: nat -> Ids, picks: seq<nat>): (claims: seq<Claim>)
    requires forall k :: 0 <= k < |picks| ==> picks[k] < |proposals|
    ensures |claims| == |picks|
  {
    seq(|picks|, k requires 0 <= k < |picks| => proposals[picks[k]].(id := ids(picks[k]).claim))
  }

  /** Their events, in the same order. */
  function Announced(proposals: seq<Claim>, cause: Uuid, ids: nat -> Ids, picks: seq<nat>): (events: seq<Envelope>)
    requires forall k :: 0 <= k < |picks| ==> picks[k] < |proposals|
    ensures |events| == |picks|
  {
    seq(|picks|, k requires 0 <= k < |picks| =>
      var p := proposals[picks[k]];
      Envelope(eventId := ids(picks[k]).event, kind := ClaimProposed, tenant := p.scope.tenant,
               aggregate := ids(picks[k]).claim, occurredAt := p.recordedFrom, causation := Some(cause),
               scope := p.scope, episode := p.episode))
  }

  lemma HasClaimIsRival(claims: seq<Claim>, c: Claim)
    ensures HasClaim(claims, ClaimKeyOf(c)) <==> exists x :: x in claims && Rivals(x, c)
  {
    if x :| x in claims && Rivals(x, c) {
      assert ClaimKeyOf(x) == ClaimKeyOf(c);
    }
    if HasClaim(claims, ClaimKeyOf(c)) {
      var x :| x in claims && ClaimKeyOf(x) == ClaimKeyOf(c);
      assert Rivals(x, c);
    }
  }

  /** One proposal without a rival is stored with its event; one with a rival changes nothing. */
  lemma ProposeOneStores(db: Db, cause: Envelope, p: Claim, ids: Ids)
    requires ProposeOne(db, cause, p, ids).Ok?
    ensures var next := ProposeOne(db, cause, p, ids).value;
            if exists x :: x in db.claims && Rivals(x, p) then next == db
            else next == db.(claims := db.claims + [p.(id := ids.claim)],
                             memory := db.memory.(events := db.memory.events +
                               [Envelope(eventId := ids.event, kind := ClaimProposed, tenant := p.scope.tenant,
                                         aggregate := ids.claim, occurredAt := p.recordedFrom, causation := Some(cause.eventId),
                                         scope := p.scope, episode := p.episode)]))
  {
    var c := p.(id := ids.claim);
    assert ClaimKeyOf(c) == ClaimKeyOf(p);
    HasClaimIsRival(db.claims, p);
  }

  /** A proposal with a stored rival makes no difference to which later ones are new. */
  lemma NewSkips(claims: seq<Claim>, proposals: seq<Claim>, i: nat, j: nat)
    requires i < j < |proposals| && exists x :: x in claims && Rivals(x, proposals[i])
    ensures IsNew(claims, proposals, i + 1, j) <==> IsNew(claims, proposals, i, j)
  {
    var x :| x in claims && Rivals(x, proposals[i]);
    if Rivals(proposals[i], proposals[j]) {
      assert Rivals(x, proposals[j]);
    }
  }

  /** One that is stored rivals the later ones it rivalled as a proposal. */
  lemma NewTakes(claims: seq<Claim>, proposals: seq<Claim>, i: nat, j: nat, c: Claim)
    requires i < j < |proposals| && c == proposals[i].(id := c.id)
    ensures IsNew(claims + [c], proposals, i + 1, j) <==> IsNew(claims, proposals, i, j)
  {
    assert Rivals(c, proposals[j]) <==> Rivals(proposals[i], proposals[j]);
    assert forall x :: x in claims + [c] <==> x in claims || x == c;
  }

  lemma PicksSkip(picks: seq<nat>, claims: seq<Claim>, proposals: seq<Claim>, i: nat)
    requires i < |proposals| && Picks(picks, claims, proposals, i + 1)
    requires exists x :: x in claims && Rivals(x, proposals[i])
    ensures Picks(picks, claims, proposals, i)
  {
    forall j: nat | i <= j < |proposals| ensures j in picks <==> IsNew(claims, proposals, i, j) {
      if j > i {
        NewSkips(claims, proposals, i, j);
      }
    }
  }

  lemma PicksTake(picks: seq<nat>, claims: seq<Claim>, proposals: seq<Claim>, i: nat, c: Claim)
    requires i < |proposals| && Picks(picks, claims + [c], proposals, i + 1) && c == proposals[i].(id := c.id)
    requires !exists x :: x in claims && Rivals(x, proposals[i])
    ensures Picks([i] + picks, claims, proposals, i)
  {
    forall j: nat | i <= j < |proposals| ensures j in [i] + picks <==> IsNew(claims, proposals, i, j) {
      if j > i {
        NewTakes(claims, proposals, i, j, c);
      }
    }
  }

  lemma StoredFirst(claims: seq<Claim>, events: seq<Envelope>, proposals: seq<Claim>, cause: Uuid, ids: nat -> Ids,
                    i: nat, rest: seq<nat>)
    requires i < |proposals| && forall k :: 0 <= k < |rest| ==> rest[k] < |proposals|
    ensures var p, picks := proposals[i], [i] + rest;
            && claims + Stored(proposals, ids, picks) == claims + [p.(id := ids(i).claim)] + Stored(proposals, ids, rest)
            && events + Announced(proposals, cause, ids, picks) ==
               events + [Envelope(eventId := ids(i).event, kind := ClaimProposed, tenant := p.scope.tenant,
                                  aggregate := ids(i).claim, occurredAt := p.recordedFrom, causation := Some(cause),
                                  scope := p.scope, episode := p.episode)] + Announced(proposals, cause, ids, rest)
  {
    var a, b := Stored(proposals, ids, [i] + rest), Announced(proposals, cause, ids, [i] + rest);
    assert a == [a[0]] + Stored(proposals, ids, rest);
    assert b == [b[0]] + Announced(proposals, cause, ids, rest);
  }

  lemma {:induction false} ProposeFromStores(db: Db, cause: Envelope, proposals: seq<Claim>, ids: nat -> Ids, i: nat)
    returns (picks: seq<nat>)
    requires i <= |proposals| && ProposeFrom(db, cause, proposals, ids, i).Ok?
    ensures Picks(picks, db.claims, proposals, i)
    ensures ProposeFrom(db, cause, proposals, ids, i).value ==
            db.(claims := db.claims + Stored(proposals, ids, picks),
                memory := db.memory.(events := db.memory.events + Announced(proposals, cause.eventId, ids, picks)))
    decreases |proposals| - i
  {
    if i == |proposals| {
      picks := [];
      assert db.claims + Stored(proposals, ids, []) == db.claims;
      assert db.memory.events + Announced(proposals, cause.eventId, ids, []) == db.memory.events;
    } else {
      var next := ProposeOne(db, cause, proposals[i], ids(i)).value;
      ProposeOneStores(db, cause, proposals[i], ids(i));
      var rest := ProposeFromStores(next, cause, proposals, ids, i + 1);
      if exists x :: x in db.claims && Rivals(x, proposals[i]) {
        PicksSkip(rest, db.claims, proposals, i);
        picks := rest;
      } else {
        PicksTake(rest, db.claims, proposals, i, proposals[i].(id := ids(i).claim));
        picks := [i] + rest;
        StoredFirst(db.claims, db.memory.events, proposals, cause.eventId, ids, i, rest);
      }
    }
  }

  /** Processing that succeeds adds, in order, exactly the proposals about the episode that have no rival among
      the stored claims or the proposals before them, with nothing but the id replaced, and one event for each. */
  lemma ProcessStores(config: Config, db: Db, event: Envelope, ids: nat -> Ids) returns (picks: seq<nat>)
    requires Process(config, db, event, ids).Ok?
    ensures var proposals := ProposalsFor(config, db, event);
            && Picks(picks, db.claims, proposals, 0)
            && Process(config, db, event, ids).value ==
               db.(claims := db.claims + Stored(proposals, ids, picks),
                   memory := db.memory.(events := db.memory.events + Announced(proposals, event.eventId, ids, picks)))
  {
    if config.enabled {
      picks := ProposeFromStores(db, event, ProposalsFor(config, db, event), ids, 0);
    } else {
      picks := [];
      assert db.claims + Stored([], ids, []) == db.claims;
      assert db.memory.events + Announced([], event.eventId, ids, []) == db.memory.events;
    }
  }

  /** Which proposals those are: none while extraction is disabled, else what the extractor makes of the one stored
      episode with the event's id in exactly the event's scope and tenant; without one processing raises. */
  lemma ProposalsAreTheEpisodes(config: Config, db: Db, event: Envelope, ids: nat -> Ids)
    requires Sound(db)
    ensures !config.enabled ==> ProposalsFor(config, db, event) == []
    ensures config.enabled ==>
              forall e :: e in db.memory.episodes && e.id == event.episode && e.request.scope == event.scope.(tenant := event.tenant)
                ==> ProposalsFor(config, db, event) == config.propose(e)
    ensures event.aggregate != event.episode ==> Process(config, db, event, ids) == Err(MalformedEvent)
    ensures event.aggregate == event.episode && config.enabled
            && !(exists e :: e in db.memory.episodes && e.id == event.episode && e.request.scope == event.scope.(tenant := event.tenant))
            ==> Process(config, db, event, ids) == Err(EpisodeMissing)
  {
    var found := FindEpisode(db.memory.episodes, event.scope.(tenant := event.tenant), event.episode);
    forall e | e in db.memory.episodes && e.id == event.episode && e.request.scope == event.scope.(tenant := event.tenant)
      ensures found == Some(e)
    {
      var i :| 0 <= i < |db.memory.episodes| && db.memory.episodes[i] == e;
      var j :| 0 <= j < |db.memory.episodes| && db.memory.episodes[j] == found.value;
    }
  }

  /** A proposal that can be stored: about the delivered event's episode, which its own tenant has. */
  predicate Fits(episodes: seq<Episode>, cause: Envelope, p: Claim) {
    p.episode == cause.episode && exists e :: e in episodes && e.id == p.episode && e.request.scope.tenant == p.scope.tenant
  }

  lemma ProposeOneDecides(db: Db, cause: Envelope, p: Claim, ids: Ids)
    requires FreshIds(db, ids)
    ensures var r := ProposeOne(db, cause, p, ids);
            && (r.Ok? <==> (exists x :: x in db.claims && Rivals(x, p)) || Fits(db.memory.episodes, cause, p))
            && (r.Err? ==> r.error == if exists e :: e in db.memory.episodes && e.id == p.episode && e.request.scope.tenant == p.scope.tenant
                                      then EvidenceMismatch else ForeignKeyViolation)
  {
    var c := p.(id := ids.claim);
    assert ClaimKeyOf(c) == ClaimKeyOf(p);
    HasClaimIsRival(db.claims, p);
    assert c in db.claims + [c];
  }

  lemma {:induction false} ProposeFromDecides(db: Db, cause: Envelope, proposals: seq<Claim>, ids: nat -> Ids, i: nat)
    requires i <= |proposals| && Sound(db) && FreshSupply(db, ids, i, |proposals|)
    ensures ProposeFrom(db, cause, proposals, ids, i).Ok? <==>
            forall j :: i <= j < |proposals| && IsNew(db.claims, proposals, i, j) ==> Fits(db.memory.episodes, cause, proposals[j])
    decreases |proposals| - i
  {
    if i < |proposals| {
      ProposeOneDecides(db, cause, proposals[i], ids(i));
      if ProposeOne(db, cause, proposals[i], ids(i)).Ok? {
        RestDecides(db, cause, proposals, ids, i);
      } else {
        assert IsNew(db.claims, proposals, i, i);
      }
    }
  }

  lemma {:induction false} RestDecides(db: Db, cause: Envelope, proposals: seq<Claim>, ids: nat -> Ids, i: nat)
    requires i < |proposals| && Sound(db) && FreshSupply(db, ids, i, |proposals|)
    requires ProposeOne(db, cause, proposals[i], ids(i)).Ok?
    ensures ProposeFrom(db, cause, proposals, ids, i).Ok? <==>
            forall j :: i <= j < |proposals| && IsNew(db.claims, proposals, i, j) ==> Fits(db.memory.episodes, cause, proposals[j])
    decreases |proposals| - i, 0
  {
    var next := ProposeOne(db, cause, proposals[i], ids(i)).value;
    ProposeOneKeeps(db, cause, proposals[i], ids(i));
    ProposeOneStores(db, cause, proposals[i], ids(i));
    ProposeOneDecides(db, cause, proposals[i], ids(i));
    forall j | i + 1 <= j < |proposals| ensures FreshIds(next, ids(j)) {
      assert FreshIds(db, ids(j));
    }
    ProposeFromDecides(next, cause, proposals, ids, i + 1);
    forall j | i < j < |proposals| ensures IsNew(next.claims, proposals, i + 1, j) <==> IsNew(db.claims, proposals, i, j) {
      if exists x :: x in db.claims && Rivals(x, proposals[i]) {
        NewSkips(db.claims, proposals, i, j);
      } else {
        NewTakes(db.claims, proposals, i, j, proposals[i].(id := ids(i).claim));
      }
    }
  }

  /** With fresh ids processing succeeds exactly when the event names one episode, and extraction is disabled or the
      episode is stored in the event's scope and every proposal without a rival fits it. */
  lemma ProcessDecides(config: Config, db: Db, event: Envelope, ids: nat -> Ids)
    requires Sound(db) && Supplied(config, db, event, ids)
    ensures Process(config, db, event, ids).Ok? <==>
            && event.aggregate == event.episode
            && (config.enabled ==>
                  && (exists e :: e in db.memory.episodes && e.id == event.episode && e.request.scope == event.scope.(tenant := event.tenant))
                  && var proposals := ProposalsFor(config, db, event);
                     forall j :: 0 <= j < |proposals| && IsNew(db.claims, proposals, 0, j) ==>
                       Fits(db.memory.episodes, event, proposals[j]))
  {
    ProposalsAreTheEpisodes(config, db, event, ids);
    if config.enabled && FindEpisode(db.memory.episodes, event.scope.(tenant := event.tenant), event.episode).Some? {
      ProposeFromDecides(db, event, ProposalsFor(config, db, event), ids, 0);
    }
  }

  // ----- What delivering an event does ----------------------------------------------------------------

  function WithInbox(r: Result<Db, Fault>, inbox: set<Uuid>): Result<Db, Fault> {
    match r
    case Err(fault) => Err(fault)
    case Ok(db) => Ok(db.(inbox := inbox))
  }

  /** Processing neither reads nor writes the inbox. */
  lemma {:induction false} ProposeFromSkipsInbox(db: Db, inbox: set<Uuid>, cause: Envelope, proposals: seq<Claim>, ids: nat -> Ids, i: nat)
    requires i <= |proposals|
    ensures ProposeFrom(db.(inbox := inbox), cause, proposals, ids, i) == WithInbox(ProposeFrom(db, cause, proposals, ids, i), inbox)
    decreases |proposals| - i
  {
    if i < |proposals| {
      ProposeOneSkipsInbox(db, inbox, cause, proposals[i], ids(i));
      var r := ProposeOne(db, cause, proposals[i], ids(i));
      if r.Ok? {
        ProposeFromSkipsInbox(r.value, inbox, cause, proposals, ids, i + 1);
      }
    }
  }

  lemma ProposeOneSkipsInbox(db: Db, inbox: set<Uuid>, cause: Envelope, p: Claim, ids: Ids)
    ensures ProposeOne(db.(inbox := inbox), cause, p, ids) == WithInbox(ProposeOne(db, cause, p, ids), inbox)
  {
  }

  lemma ProcessSkipsInbox(config: Config, db: Db, inbox: set<Uuid>, event: Envelope, ids: nat -> Ids)
    ensures Process(config, db.(inbox := inbox), event, ids) == WithInbox(Process(config, db, event, ids), inbox)
  {
    if event.aggregate == event.episode && config.enabled && ProposalsFor(config, db, event) != [] {
      ProposeFromSkipsInbox(db, inbox, event, ProposalsFor(config, db, event), ids, 0);
    }
  }

  /** Delivering: an event that is not about a new episode or is in the inbox already is only published on; any other
      leaves nothing when it fails before its commit, its claims without an inbox row when the acknowledgement is
      lost, and both otherwise, even when publishing it on raises afterwards. */
  lemma DeliverDecides(config: Config, db: Db, event: Envelope, ids: nat -> Ids, weather: Weather)
    ensures var (after, outcome) := Deliver(config, db, event, ids, weather);
            var processed := Process(config, db, event, ids);
            if event.kind != EpisodeRecorded || event.eventId in db.inbox then
              after == db && outcome == if weather.Undelivered? then Err(weather.fault) else Ok(Skipped)
            else if weather.FailsBefore? then after == db && outcome == Err(weather.fault)
            else if processed.Err? then after == db && outcome == Err(processed.error)
            else if weather.FailsAfter? then after == processed.value && outcome == Err(weather.fault)
            else && after == processed.value.(inbox := db.inbox + {event.eventId})
                 && outcome == if weather.Undelivered? then Err(weather.fault) else Ok(Processed)
  {
    var row := db.inbox + {event.eventId};
    ProcessSkipsInbox(config, db, row, event, ids);
    if Process(config, db, event, ids).Ok? {
      var picks := ProcessStores(config, db, event, ids);
      if event.eventId !in db.inbox {
        assert row - {event.eventId} == db.inbox;
      }
    } else if event.eventId !in db.inbox {
      assert row - {event.eventId} == db.inbox;
    }
  }

  // ----- What the claims of a run say -----------------------------------------------------------------

  /** Where a claim comes from: a proposal about the episode `e` whose recorded event was processed, and the event
      that announced it. */
  ghost predicate Origin(config: Config, db: Db, c: Claim, e: Episode, recorded: Envelope, told: Envelope) {
    && e in db.memory.episodes && c.(id := 0) in Unnamed(config.propose(e))
    && recorded in db.memory.events && recorded.kind == EpisodeRecorded && recorded.aggregate == e.id
    && told in db.memory.events
    && told == Envelope(eventId := told.eventId, kind := ClaimProposed, tenant := c.scope.tenant, aggregate := c.id,
                        occurredAt := c.recordedFrom, causation := Some(recorded.eventId), scope := c.scope, episode := c.episode)
  }

  function Unnamed(claims: seq<Claim>): set<Claim> {
    set c | c in claims :: c.(id := 0)
  }

  ghost predicate Sourced(config: Config, db: Db) {
    forall c :: c in db.claims ==> HasOrigin(config, db, c)
  }

  ghost predicate HasOrigin(config: Config, db: Db, c: Claim) {
    exists e, recorded, told :: Origin(config, db, c, e, recorded, told)
  }

  lemma OriginStays(config: Config, db: Db, db': Db, c: Claim)
    requires P.MemoryGrows(db, db') && HasOrigin(config, db, c)
    ensures HasOrigin(config, db', c)
  {
    var e, recorded, told :| Origin(config, db, c, e, recorded, told);
    assert Origin(config, db', c, e, recorded, told);
  }

  lemma ProcessKeepsSourced(config: Config, db: Db, event: Envelope, ids: nat -> Ids)
    requires Sound(db) && Sourced(config, db) && Process(config, db, event, ids).Ok?
    requires event in db.memory.events && event.kind == EpisodeRecorded
    ensures Sourced(config, Process(config, db, event, ids).value)
  {
    var db' := Process(config, db, event, ids).value;
    var picks := ProcessStores(config, db, event, ids);
    var proposals := ProposalsFor(config, db, event);
    forall c | c in db'.claims ensures HasOrigin(config, db', c) {
      if c in db.claims {
        OriginStays(config, db, db', c);
      } else {
        var stored := Stored(proposals, ids, picks);
        var k :| 0 <= k < |stored| && stored[k] == c;
        NewClaimSourced(config, db, db', event, proposals, ids, picks, k);
      }
    }
  }

  lemma NewClaimSourced(config: Config, db: Db, db': Db, event: Envelope, proposals: seq<Claim>, ids: nat -> Ids, picks: seq<nat>, k: nat)
    requires proposals == ProposalsFor(config, db, event) && event in db.memory.events && event.kind == EpisodeRecorded
    requires event.aggregate == event.episode && k < |picks| && forall l :: 0 <= l < |picks| ==> picks[l] < |proposals|
    requires db'.memory == db.memory.(events := db.memory.events + Announced(proposals, event.eventId, ids, picks))
    ensures HasOrigin(config, db', Stored(proposals, ids, picks)[k])
  {
    var c, told := Stored(proposals, ids, picks)[k], Announced(proposals, event.eventId, ids, picks)[k];
    var e := FindEpisode(db.memory.episodes, event.scope.(tenant := event.tenant), event.episode).value;
    assert proposals[picks[k]] in config.propose(e) && c.(id := 0) == proposals[picks[k]].(id := 0);
    assert told in db'.memory.events;
    assert Origin(config, db', c, e, event, told);
  }

  lemma ProcessStepKeepsSourced(config: Config, s: P.System, s': P.System, w: nat, ids: nat -> Ids, weather: Weather)
    requires Sound(s.db) && P.WorkersKnow(s) && Sourced(config, s.db) && P.ProcessStep(config, s, s', w, ids, weather)
    ensures Sourced(config, s'.db)
  {
    var worker := s.workers[w];
    assert P.WorkerKnows(s.db, worker);
    var event := worker.batch[worker.done];
    if !weather.FailsBefore? && Process(config, s.db, event, ids).Ok? {
      ProcessKeepsSourced(config, s.db, event, ids);
    }
  }

  lemma StepKeepsSourced(config: Config, s: P.System, s': P.System, stops: bool)
    requires Sound(s.db) && P.WorkersKnow(s) && Sourced(config, s.db) && P.NextKind(config, s, s', stops)
    ensures Sourced(config, s'.db)
  {
    if w: nat, ids, weather :| P.ProcessStep(config, s, s', w, ids, weather) {
      ProcessStepKeepsSourced(config, s, s', w, ids, weather);
    } else {
      P.StepGrows(config, s, s', stops);
      forall c | c in s'.db.claims ensures HasOrigin(config, s'.db, c) {
        OriginStays(config, s.db, s'.db, c);
      }
    }
  }

  lemma RunStepKeepsSourced(config: Config, run: seq<P.System>, stops: bool, i: nat)
    requires P.IsRun(config, run, stops) && i + 1 < |run| && Sourced(config, run[i].db)
    ensures Sourced(config, run[i + 1].db)
  {
    P.EveryRunIsSound(config, run, stops, i);
    P.EveryRunKnows(config, run, stops, i);
    assert P.StepAt(config, run, i, stops);
    StepKeepsSourced(config, run[i], run[i + 1], stops);
  }

  /** In every run, with any extractor, every claim is a proposal about a recorded episode with only its id
      replaced, announced by an event caused by that episode's recorded event. */
  lemma {:induction false} EveryClaimIsSourced(config: Config, run: seq<P.System>, stops: bool, i: nat)
    requires P.IsRun(config, run, stops) && i < |run|
    ensures Sourced(config, run[i].db)
  {
    if i == 0 {
      assert run[0].db.claims == [];
    } else {
      EveryClaimIsSourced(config, run, stops, i - 1);
      RunStepKeepsSourced(config, run, stops, i - 1);
    }
  }

  /** With the rule-based extractor every claim of every run says, field by field, what its episode says: the
      content hash is its value, valid from the observation on and recorded at the ingestion. */
  lemma EveryClaimIsTrue(version: string, config: Config, run: seq<P.System>, stops: bool, i: nat, c: Claim)
    returns (e: Episode, recorded: Envelope, told: Envelope)
    requires config.propose == Deterministic(version) && P.IsRun(config, run, stops) && i < |run| && c in run[i].db.claims
    ensures e in run[i].db.memory.episodes
    ensures c.scope == e.request.scope && c.episode == e.id && c.version == version
    ensures c.objectValue == e.request.contentHash && c.validFrom == e.request.observedAt && c.recordedFrom == e.ingestedAt
    ensures recorded in run[i].db.memory.events && recorded.kind == EpisodeRecorded && recorded.aggregate == e.id
    ensures told in run[i].db.memory.events
    ensures told == Envelope(eventId := told.eventId, kind := ClaimProposed, tenant := e.request.scope.tenant, aggregate := c.id,
                             occurredAt := e.ingestedAt, causation := Some(recorded.eventId), scope := e.request.scope, episode := e.id)
  {
    EveryClaimIsSourced(config, run, stops, i);
    assert HasOrigin(config, run[i].db, c);
    e, recorded, told :| Origin(config, run[i].db, c, e, recorded, told);
    assert |config.propose(e)| == 1;
  }
}
