/** How many relays and which hard stops the claim pipeline can take: the exact conditions, and runs from the
    empty tables that show what happens beyond them. */
module LostClaims {
  import opened Kernel
  import opened Text
  import opened EpisodeStore
  import opened ClaimExtraction
  import opened ClaimPipeline

  /** Every episode's event that is marked published has its claims. */
  ghost predicate AllClaimed(config: Config, s: System) {
    forall event :: event in s.db.memory.events && event.kind == EpisodeRecorded && event.eventId in s.db.published ==>
      Claimed(config, s.db, event)
  }

  /** Nothing has happened yet, with `n` relays. */
  function Start(n: nat): (s: System)
    ensures |s.workers| == n && forall w :: 0 <= w < n ==> s.workers[w] == Resting
  {
    System.System(Db(Committed([], map[], []), [], {}, {}), seq(n, _ => Resting), {})
  }

  lemma StartIsRun(config: Config, n: nat, stops: bool)
    ensures IsRun(config, [Start(n)], stops)
  {
  }

  lemma Longer(config: Config, run: seq<System>, stops: bool, s: System)
    requires IsRun(config, run, stops) && NextKind(config, run[|run| - 1], s, stops)
    ensures IsRun(config, run + [s], stops)
  {
    var longer := run + [s];
    forall i | 0 <= i < |longer| - 1 ensures StepAt(config, longer, i, stops) {
      if i + 1 < |run| {
        assert StepAt(config, run, i, stops);
      }
    }
  }

  /** Steps without harmful stops, from a state on. */
  ghost predicate GoesOn(config: Config, s: System, run: seq<System>) {
    |run| > 0 && run[0] == s && forall i :: 0 <= i < |run| - 1 ==> StepAt(config, run, i, false)
  }

  lemma StopsAllowed(config: Config, s: System, s': System)
    requires NextKind(config, s, s', false)
    ensures NextKind(config, s, s', true)
  {
    if w: nat :| StopStep(s, s', w) && HarmlessStop(config, s, w) {
    }
  }

  lemma RunAllowsStops(config: Config, run: seq<System>)
    requires IsRun(config, run, false)
    ensures IsRun(config, run, true)
  {
    forall i | 0 <= i < |run| - 1 ensures StepAt(config, run, i, true) {
      assert StepAt(config, run, i, false);
      StopsAllowed(config, run[i], run[i + 1]);
    }
  }

  lemma {:induction false} RunGoesOn(config: Config, run: seq<System>, stops: bool, more: seq<System>, k: nat)
    requires IsRun(config, run, stops) && GoesOn(config, run[|run| - 1], more) && k < |more|
    ensures IsRun(config, run + more[1..k + 1], stops)
    ensures (run + more[1..k + 1])[|run| + k - 1] == more[k]
  {
    if k == 0 {
      assert run + more[1..1] == run;
    } else {
      RunGoesOn(config, run, stops, more, k - 1);
      assert StepAt(config, more, k - 1, false);
      if stops {
        StopsAllowed(config, more[k - 1], more[k]);
      }
      Longer(config, run + more[1..k], stops, more[k]);
      assert run + more[1..k + 1] == run + more[1..k] + [more[k]];
    }
  }

  // ----- One relay at most --------------------------------------------------------------------------------

  /** In every run of `n` relays without harmful stops, published means claimed. */
  ghost predicate AlwaysClaimed(config: Config, n: nat) {
    forall run: seq<System> :: IsRun(config, run, false) && |run[0].workers| == n ==> AllClaimed(config, run[|run| - 1])
  }

  lemma OneRelayClaims(config: Config, run: seq<System>)
    requires config.enabled && IsRun(config, run, false) && |run[0].workers| == 1
    ensures AllClaimed(config, run[|run| - 1])
  {
    RunKeeps(config, run, |run| - 1);
    var s := run[|run| - 1];
    forall event | event in s.db.memory.events && event.kind == EpisodeRecorded && event.eventId in s.db.published
      ensures Claimed(config, s.db, event)
    {
      assert Settled(config, s, event);
    }
  }

  lemma {:induction false} NoRelayPublishes(config: Config, run: seq<System>, i: nat)
    requires IsRun(config, run, false) && |run[0].workers| == 0 && i < |run|
    ensures run[i].workers == [] && run[i].db.published == {}
  {
    if i > 0 {
      NoRelayPublishes(config, run, i - 1);
      assert StepAt(config, run, i - 1, false);
    }
  }

  /** An episode is recorded, and its event is the only one. */
  function AfterRecording(n: nat, e: Episode, eventId: Uuid): (s: System) {
    Start(n).(db := Start(n).db.(memory := Committed([e], map[KeyOf(e) := e.id], [RecordedEvent(e, eventId)])))
  }

  lemma RecordingHappens(config: Config, n: nat, e: Episode, eventId: Uuid, stops: bool) returns (run: seq<System>)
    ensures run == [Start(n), AfterRecording(n, e, eventId)] && IsRun(config, run, stops)
  {
    var s, s' := Start(n), AfterRecording(n, e, eventId);
    assert RecordStep(s, s', e, eventId) by {
      RecordFirst(e, eventId);
    }
    StartIsRun(config, n, stops);
    Longer(config, [s], stops, s');
    run := [s, s'];
    assert run == [s] + [s'];
  }

  lemma RecordFirst(e: Episode, eventId: Uuid)
    ensures Record(Committed([], map[], []), e, eventId).0 == Committed([e], map[KeyOf(e) := e.id], [RecordedEvent(e, eventId)])
  {
    assert [] + [e] == [e] && [] + [RecordedEvent(e, eventId)] == [RecordedEvent(e, eventId)];
    assert FirstWith([e], e.id) == Some(e);
  }

  /** Its proposals lack their claims until processing commits. */
  lemma NotYetClaimed(config: Config, db: Db, e: Episode, eventId: Uuid)
    requires config.enabled && config.propose(e) != [] && db.memory.episodes == [e] && db.claims == []
    ensures ProposalsFor(config, db, RecordedEvent(e, eventId)) == config.propose(e)
    ensures !Claimed(config, db, RecordedEvent(e, eventId))
  {
    var event := RecordedEvent(e, eventId);
    assert event.scope.(tenant := event.tenant) == e.request.scope;
    assert FindEpisode([e], e.request.scope, e.id) == Some(e);
    assert config.propose(e)[0] in config.propose(e);
  }

  /** One relay has recorded the event in the inbox, another has fetched it too. */
  lemma BothHaveIt(config: Config, n: nat, e: Episode, eventId: Uuid) returns (run: seq<System>, s: System)
    requires n >= 2
    ensures IsRun(config, run, false) && run[|run| - 1] == s && |run[0].workers| == n && |s.workers| == n
    ensures s.workers[0] == Recorded([RecordedEvent(e, eventId)], 0) && s.workers[1] == Dispatching([RecordedEvent(e, eventId)], 0)
    ensures s.db == AfterRecording(n, e, eventId).db.(inbox := {eventId})
  {
    var event := RecordedEvent(e, eventId);
    run := RecordingHappens(config, n, e, eventId, false);
    var s1 := run[1];
    var s2 := To(s1, 0, Dispatching([event], 0));
    var s3 := To(s2, 1, Dispatching([event], 0));
    s := To(s3, 0, Recorded([event], 0)).(db := s3.db.(inbox := s3.db.inbox + {eventId}));
    assert FetchStep(s1, s2, 0, [event]);
    assert FetchStep(s2, s3, 1, [event]);
    assert InboxStep(s3, s, 0);
    Longer(config, run, false, s2);
    Longer(config, run + [s2], false, s3);
    Longer(config, run + [s2] + [s3], false, s);
    run := run + [s2] + [s3] + [s];
  }

  /** From empty tables two relays, without any hard stop, come to publish an event whose claims are missing, for
      every extractor and every episode it has proposals about. */
  lemma TwoRelaysPublishUnclaimed(config: Config, n: nat, e: Episode, eventId: Uuid) returns (run: seq<System>)
    requires config.enabled && config.propose(e) != [] && n >= 2
    ensures IsRun(config, run, false) && |run[0].workers| == n && !AllClaimed(config, run[|run| - 1])
  {
    var event := RecordedEvent(e, eventId);
    var before, s := BothHaveIt(config, n, e, eventId);
    NotYetClaimed(config, s.db, e, eventId);
    var more := TwoRelaysLose(config, s, 0, 1, event);
    forall i | 0 <= i < |more| - 1 ensures StepAt(config, more, i, false) {
    }
    RunGoesOn(config, before, false, more, 4);
    run := before + more[1..5];
    assert run[|run| - 1] == more[4] && event in more[4].db.memory.events;
  }

  /** Published means claimed in every run without harmful stops exactly when there is at most one relay. */
  lemma OneRelayAtMost(config: Config, n: nat)
    requires config.enabled && exists e: Episode :: config.propose(e) != []
    ensures AlwaysClaimed(config, n) <==> n <= 1
  {
    if n >= 2 {
      var e: Episode :| config.propose(e) != [];
      var run := TwoRelaysPublishUnclaimed(config, n, e, 0);
    } else {
      forall run: seq<System> | IsRun(config, run, false) && |run[0].workers| == n ensures AllClaimed(config, run[|run| - 1]) {
        if n == 1 {
          OneRelayClaims(config, run);
        } else {
          NoRelayPublishes(config, run, |run| - 1);
        }
      }
    }
  }

  // ----- No stop in the window ----------------------------------------------------------------------------

  /** However the run goes on without harmful stops, published means claimed. */
  ghost predicate SafeFrom(config: Config, s: System) {
    forall run :: GoesOn(config, s, run) ==> AllClaimed(config, run[|run| - 1])
  }

  /** A harmful stop loses a claim of an event not yet published. */
  lemma HarmfulStopLoses(config: Config, s: System, s': System, w: nat) returns (event: Envelope, c: Claim)
    requires Inv(config, s) && StopStep(s, s', w) && !HarmlessStop(config, s, w)
    ensures Lost(config, s', event, c) && event.eventId !in s'.db.published
  {
    event :| event in s.db.memory.events && InFlight(s.workers[w], event) && event.eventId in s.db.inbox
             && !Claimed(config, s.db, event);
    InFlightUnpublished(config, s, w, event);
    c :| c in ProposalsFor(config, s.db, event) && !HasClaim(s.db.claims, ClaimKeyOf(c));
  }

  lemma InFlightUnpublished(config: Config, s: System, w: nat, event: Envelope)
    requires Inv(config, s) && w < |s.workers| && InFlight(s.workers[w], event) && event in s.db.memory.events
    ensures event.kind == EpisodeRecorded && event.eventId !in s.db.published
  {
    assert WorkerHolds(config, s, s.workers[0]);
    assert event in s.workers[w].batch;
  }

  /** After it the next round publishes the event without its claim. */
  lemma HarmfulStopPublishes(config: Config, s: System, s': System, w: nat) returns (more: seq<System>)
    requires Inv(config, s) && StopStep(s, s', w) && !HarmlessStop(config, s, w)
    ensures GoesOn(config, s', more) && !AllClaimed(config, more[|more| - 1])
  {
    var event, c := HarmfulStopLoses(config, s, s', w);
    more := LostGoesOn(config, s', w, event, c);
  }

  lemma LostGoesOn(config: Config, s: System, w: nat, event: Envelope, c: Claim) returns (more: seq<System>)
    requires Lost(config, s, event, c) && w < |s.workers| && s.workers[w] == Resting && event.eventId !in s.db.published
    ensures GoesOn(config, s, more) && !AllClaimed(config, more[|more| - 1])
  {
    more := LostIsPublished(config, s, w, event, c);
    forall i | 0 <= i < |more| - 1 ensures StepAt(config, more, i, false) {
    }
    assert event in more[3].db.memory.events;
  }

  lemma {:induction false} GoingOnKeeps(config: Config, s: System, run: seq<System>, i: nat)
    requires config.enabled && Inv(config, s) && GoesOn(config, s, run) && i < |run|
    ensures Inv(config, run[i])
  {
    if i > 0 {
      GoingOnKeeps(config, s, run, i - 1);
      assert StepAt(config, run, i - 1, false);
      StepKeeps(config, run[i - 1], run[i]);
    }
  }

  lemma InvClaims(config: Config, s: System)
    requires Inv(config, s)
    ensures AllClaimed(config, s)
  {
    forall event | event in s.db.memory.events && event.kind == EpisodeRecorded && event.eventId in s.db.published
      ensures Claimed(config, s.db, event)
    {
      assert Settled(config, s, event);
    }
  }

  /** After a hard stop of the one relay, anywhere in any run, published goes on to mean claimed exactly when the
      stop did not fall between an inbox row and its claims. */
  lemma StopDecides(config: Config, run: seq<System>, s': System, w: nat)
    requires config.enabled && IsRun(config, run, false) && |run[0].workers| == 1 && StopStep(run[|run| - 1], s', w)
    ensures SafeFrom(config, s') <==> HarmlessStop(config, run[|run| - 1], w)
  {
    var s := run[|run| - 1];
    RunKeeps(config, run, |run| - 1);
    if HarmlessStop(config, s, w) {
      StopStepKeeps(config, s, s', w);
      forall more | GoesOn(config, s', more) ensures AllClaimed(config, more[|more| - 1]) {
        GoingOnKeeps(config, s', more, |more| - 1);
        InvClaims(config, more[|more| - 1]);
      }
    } else {
      var more := HarmfulStopPublishes(config, s, s', w);
    }
  }

  /** A harmful stop is for good: whatever happens later, redeliveries and further stops included, a claim of that
      event stays missing. */
  lemma HarmfulStopIsForGood(config: Config, run: seq<System>, i: nat, w: nat) returns (event: Envelope, c: Claim)
    requires config.enabled && Faithful(config.propose) && IsRun(config, run, true) && i + 1 < |run| && |run[0].workers| == 1
    requires IsRun(config, run[..i + 1], false) && StopStep(run[i], run[i + 1], w) && !HarmlessStop(config, run[i], w)
    ensures event in run[i].db.memory.events
    ensures forall j :: i < j < |run| ==> Lost(config, run[j], event, c) && !Claimed(config, run[j].db, event)
  {
    InvBefore(config, run, i);
    event, c := HarmfulStopLoses(config, run[i], run[i + 1], w);
    StaysLost(config, run, i + 1, event, c);
  }

  lemma StaysLost(config: Config, run: seq<System>, i: nat, event: Envelope, c: Claim)
    requires IsRun(config, run, true) && Faithful(config.propose) && i < |run| && Lost(config, run[i], event, c)
    ensures forall j :: i <= j < |run| ==> Lost(config, run[j], event, c) && !Claimed(config, run[j].db, event)
  {
    forall j | i <= j < |run| ensures Lost(config, run[j], event, c) && !Claimed(config, run[j].db, event) {
      LostForGood(config, run, i, j, event, c);
    }
  }

  /** The state before the stop, in a run without harmful stops. */
  lemma InvBefore(config: Config, run: seq<System>, i: nat)
    requires config.enabled && i < |run| && |run[0].workers| == 1 && IsRun(config, run[..i + 1], false)
    ensures Inv(config, run[i])
  {
    RunKeeps(config, run[..i + 1], i);
  }

  /** One relay comes to the window from empty tables. */
  lemma WindowReached(config: Config, e: Episode, eventId: Uuid) returns (run: seq<System>)
    requires config.enabled && config.propose(e) != []
    ensures IsRun(config, run, false) && |run[0].workers| == 1 && |run[|run| - 1].workers| == 1
    ensures !HarmlessStop(config, run[|run| - 1], 0)
  {
    var event := RecordedEvent(e, eventId);
    run := RecordingHappens(config, 1, e, eventId, false);
    var s1 := run[1];
    var s2 := To(s1, 0, Dispatching([event], 0));
    var s3 := To(s2, 0, Recorded([event], 0)).(db := s2.db.(inbox := s2.db.inbox + {eventId}));
    assert FetchStep(s1, s2, 0, [event]);
    assert InboxStep(s2, s3, 0);
    Longer(config, run, false, s2);
    Longer(config, run + [s2], false, s3);
    run := run + [s2] + [s3];
    NotYetClaimed(config, s3.db, e, eventId);
    assert event in s3.db.memory.events && InFlight(s3.workers[0], event);
  }

  /** From empty tables one relay that is stopped there publishes an event whose claims are missing, for every
      extractor and every episode it has proposals about. */
  lemma StoppedRelayPublishesUnclaimed(config: Config, e: Episode, eventId: Uuid) returns (run: seq<System>)
    requires config.enabled && config.propose(e) != []
    ensures IsRun(config, run, true) && |run[0].workers| == 1 && !AllClaimed(config, run[|run| - 1])
  {
    var before := WindowReached(config, e, eventId);
    var s := before[|before| - 1];
    RunKeeps(config, before, |before| - 1);
    var more := HarmfulStopPublishes(config, s, To(s, 0, Resting), 0);
    run := PastTheStop(config, before, To(s, 0, Resting), more);
  }

  lemma PastTheStop(config: Config, before: seq<System>, s': System, more: seq<System>) returns (run: seq<System>)
    requires IsRun(config, before, false) && StopStep(before[|before| - 1], s', 0) && GoesOn(config, s', more)
    ensures IsRun(config, run, true) && run[0] == before[0] && run[|run| - 1] == more[|more| - 1]
  {
    RunAllowsStops(config, before);
    Longer(config, before, true, s');
    RunGoesOn(config, before + [s'], true, more, |more| - 1);
    run := before + [s'] + more[1..|more| - 1 + 1];
  }
}
