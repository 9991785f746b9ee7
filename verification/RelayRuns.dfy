/** What the handlers do is what the steps of the pipeline do: handling an event, and a relay round, are runs of
    one worker's steps. */
module RelayRuns {
  import opened Kernel
  import opened Text
  import opened EpisodeStore
  import opened ClaimExtraction
  import opened ClaimPipeline
  import opened LostClaims
  import OutboxRelay

  lemma OneMore(config: Config, s: System, run: seq<System>, s': System)
    requires GoesOn(config, s, run) && NextKind(config, run[|run| - 1], s', false)
    ensures GoesOn(config, s, run + [s'])
  {
    var longer := run + [s'];
    forall i | 0 <= i < |longer| - 1 ensures StepAt(config, longer, i, false) {
      if i + 1 < |run| {
        assert StepAt(config, run, i, false);
      }
    }
  }

  lemma {:induction false} Joined(config: Config, s: System, run: seq<System>, more: seq<System>)
    requires GoesOn(config, s, run) && GoesOn(config, run[|run| - 1], more)
    ensures GoesOn(config, s, run + more[1..]) && (run + more[1..])[|run + more[1..]| - 1] == more[|more| - 1]
    decreases |more|
  {
    if |more| == 1 {
      assert run + more[1..] == run;
    } else {
      assert StepAt(config, more, 0, false);
      OneMore(config, s, run, more[1]);
      var rest := more[1..];
      forall i | 0 <= i < |rest| - 1 ensures StepAt(config, rest, i, false) {
        assert StepAt(config, more, i + 1, false);
      }
      Joined(config, s, run + [more[1]], rest);
      assert run + [more[1]] + rest[1..] == run + more[1..];
    }
  }

  /** Where worker `w` is after handling the event at hand. */
  function Handled(s: System, w: nat, db: Db, ok: bool): System
    requires w < |s.workers| && s.workers[w].Dispatching? && s.workers[w].done < |s.workers[w].batch|
  {
    var Dispatching(batch, done) := s.workers[w];
    if ok then To(s, w, Dispatching(batch, done + 1)).(db := db, delivered := s.delivered + {batch[done].eventId})
    else To(s, w, Resting).(db := db)
  }

  /** Delivering an event: recording it in the inbox, processing it, publishing it and, after an exception of the
      processing, taking it out again. */
  lemma DeliverIsSteps(config: Config, s: System, w: nat, ids: nat -> Ids, weather: Weather) returns (run: seq<System>)
    requires w < |s.workers| && s.workers[w].Dispatching? && s.workers[w].done < |s.workers[w].batch|
    requires var event := s.workers[w].batch[s.workers[w].done];
             Generates(config, s.db.(inbox := s.db.inbox + {event.eventId}), event, ids, weather)
    ensures var (after, outcome) := Deliver(config, s.db, s.workers[w].batch[s.workers[w].done], ids, weather);
            GoesOn(config, s, run) && run[|run| - 1] == Handled(s, w, after, outcome.Ok?)
  {
    var Dispatching(batch, done) := s.workers[w];
    var event := batch[done];
    if event.kind != EpisodeRecorded || event.eventId in s.db.inbox {
      var s1 := Handled(s, w, s.db, !weather.Undelivered?);
      assert InboxStep(s, s1, w);
      OneMore(config, s, [s], s1);
      run := [s] + [s1];
    } else {
      run := ProcessIsSteps(config, s, w, ids, weather, batch, done);
    }
  }

  lemma ProcessIsSteps(config: Config, s: System, w: nat, ids: nat -> Ids, weather: Weather, batch: seq<Envelope>, done: nat)
    returns (run: seq<System>)
    requires w < |s.workers| && s.workers[w] == Dispatching(batch, done) && done < |batch|
    requires batch[done].kind == EpisodeRecorded && batch[done].eventId !in s.db.inbox
    requires Generates(config, s.db.(inbox := s.db.inbox + {batch[done].eventId}), batch[done], ids, weather)
    ensures var (after, outcome) := Deliver(config, s.db, batch[done], ids, weather);
            GoesOn(config, s, run) && run[|run| - 1] == Handled(s, w, after, outcome.Ok?)
  {
    var event := batch[done];
    var s1 := To(s, w, Recorded(batch, done)).(db := s.db.(inbox := s.db.inbox + {event.eventId}));
    assert InboxStep(s, s1, w);
    OneMore(config, s, [s], s1);
    var (db, raised) := Processing(config, s1.db, event, ids, weather);
    if raised.Some? {
      run := RaisedIsSteps(config, s, [s] + [s1], s1, w, ids, weather, batch, done);
    } else {
      run := SucceededIsStep(config, s, [s] + [s1], s1, w, ids, weather, batch, done);
    }
    assert run[|run| - 1].workers == s.workers[w := run[|run| - 1].workers[w]];
  }

  lemma RaisedIsSteps(config: Config, s: System, before: seq<System>, s1: System, w: nat, ids: nat -> Ids, weather: Weather,
                      batch: seq<Envelope>, done: nat)
    returns (run: seq<System>)
    requires GoesOn(config, s, before) && before[|before| - 1] == s1
    requires w < |s1.workers| && s1.workers[w] == Recorded(batch, done) && done < |batch|
    requires Generates(config, s1.db, batch[done], ids, weather) && Processing(config, s1.db, batch[done], ids, weather).1.Some?
    ensures GoesOn(config, s, run)
    ensures var db := Processing(config, s1.db, batch[done], ids, weather).0;
            run[|run| - 1] == To(s1, w, Resting).(db := db.(inbox := db.inbox - {batch[done].eventId}))
  {
    var db := Processing(config, s1.db, batch[done], ids, weather).0;
    var s2 := To(s1, w, Undoing(batch, done)).(db := db);
    var s3 := To(s2, w, Resting).(db := db.(inbox := db.inbox - {batch[done].eventId}));
    assert ProcessStep(config, s1, s2, w, ids, weather);
    OneMore(config, s, before, s2);
    assert UndoStep(s2, s3, w);
    OneMore(config, s, before + [s2], s3);
    run := before + [s2] + [s3];
    assert s3.workers == s1.workers[w := Resting];
  }

  lemma SucceededIsStep(config: Config, s: System, before: seq<System>, s1: System, w: nat, ids: nat -> Ids, weather: Weather,
                        batch: seq<Envelope>, done: nat)
    returns (run: seq<System>)
    requires GoesOn(config, s, before) && before[|before| - 1] == s1
    requires w < |s1.workers| && s1.workers[w] == Recorded(batch, done) && done < |batch|
    requires Generates(config, s1.db, batch[done], ids, weather) && Processing(config, s1.db, batch[done], ids, weather).1.None?
    ensures GoesOn(config, s, run)
    ensures var db := Processing(config, s1.db, batch[done], ids, weather).0;
            run[|run| - 1] == if weather.Undelivered? then To(s1, w, Resting).(db := db)
                              else To(s1, w, Dispatching(batch, done + 1)).(db := db, delivered := s1.delivered + {batch[done].eventId})
  {
    var db := Processing(config, s1.db, batch[done], ids, weather).0;
    var s2 := if weather.Undelivered? then To(s1, w, Resting).(db := db)
              else To(s1, w, Dispatching(batch, done + 1)).(db := db, delivered := s1.delivered + {batch[done].eventId});
    assert ProcessStep(config, s1, s2, w, ids, weather);
    OneMore(config, s, before, s2);
    run := before + [s2];
  }

  /** Delivering a batch from event number `i` on ends after its last event, or at rest after an exception. */
  lemma {:induction false} DispatchIsSteps(
    config: Config, s: System, w: nat, batch: seq<Envelope>, ids: (nat, nat) -> Ids, weather: nat -> Weather, i: nat)
    returns (run: seq<System>)
    requires w < |s.workers| && i <= |batch| && s.workers[w] == Dispatching(batch, i)
    requires OutboxRelay.SuppliedAlong(config, s.db, batch, ids, weather, i)
    ensures var (after, raised) := OutboxRelay.DispatchFrom(config, s.db, batch, ids, weather, i);
            && GoesOn(config, s, run) && run[|run| - 1].db == after
            && run[|run| - 1].workers == s.workers[w := if raised.None? then Dispatching(batch, |batch|) else Resting]
    decreases |batch| - i
  {
    if i == |batch| {
      run := [s];
    } else {
      var supply := (k: nat) => ids(i, k);
      var handled := DeliverIsSteps(config, s, w, supply, weather(i));
      var (after, outcome) := Deliver(config, s.db, batch[i], supply, weather(i));
      run := handled;
      if outcome.Ok? {
        var next := Handled(s, w, after, true);
        var more := DispatchIsSteps(config, next, w, batch, ids, weather, i + 1);
        Joined(config, s, handled, more);
        run := handled + more[1..];
      }
    }
  }

  lemma BatchIsUnpublished(db: Db, limit: nat)
    requires Sound(db)
    ensures Unpublished(db, OutboxRelay.Fetched(db, limit))
  {
    OutboxRelay.FetchesOldest(db, limit);
  }

  lemma MarkIsStep(config: Config, s: System, run: seq<System>, w: nat) returns (marked: seq<System>)
    requires GoesOn(config, s, run)
    requires var end := run[|run| - 1];
             w < |end.workers| && end.workers[w].Dispatching? && end.workers[w].done == |end.workers[w].batch|
    ensures GoesOn(config, s, marked)
    ensures var end := run[|run| - 1];
            marked[|marked| - 1] == To(end, w, Resting).(db := end.db.(published := end.db.published + IdsOf(end.workers[w].batch)))
  {
    var end := run[|run| - 1];
    var last := To(end, w, Resting).(db := end.db.(published := end.db.published + IdsOf(end.workers[w].batch)));
    assert MarkStep(end, last, w);
    OneMore(config, s, run, last);
    marked := run + [last];
  }

  /** A relay round is a run of one resting worker's steps: poll, deliver and, unless an exception ended the round,
      mark. */
  lemma RoundIsSteps(config: Config, s: System, w: nat, limit: nat, ids: (nat, nat) -> Ids, weather: nat -> Weather)
    returns (run: seq<System>)
    requires Sound(s.db) && w < |s.workers| && s.workers[w] == Resting
    requires OutboxRelay.SuppliedAlong(config, s.db, OutboxRelay.Fetched(s.db, limit), ids, weather, 0)
    ensures GoesOn(config, s, run) && run[|run| - 1].workers == s.workers
    ensures run[|run| - 1].db == OutboxRelay.Round(config, s.db, limit, ids, weather).0
  {
    var batch := OutboxRelay.Fetched(s.db, limit);
    if batch == [] {
      run := [s];
    } else {
      var s1 := To(s, w, Dispatching(batch, 0));
      var fetched := FetchIsStep(config, s, s1, w, limit, batch);
      var more := DispatchIsSteps(config, s1, w, batch, ids, weather, 0);
      Joined(config, s, fetched, more);
      run := fetched + more[1..];
      assert run[|run| - 1] == more[|more| - 1];
      run := RoundEnds(config, s, run, w, limit, batch, ids, weather);
    }
  }

  lemma RoundEnds(config: Config, s: System, run: seq<System>, w: nat, limit: nat, batch: seq<Envelope>,
                  ids: (nat, nat) -> Ids, weather: nat -> Weather)
    returns (whole: seq<System>)
    requires GoesOn(config, s, run) && w < |s.workers| && s.workers[w] == Resting
    requires batch == OutboxRelay.Fetched(s.db, limit) != []
    requires var (after, raised) := OutboxRelay.DispatchFrom(config, s.db, batch, ids, weather, 0);
             && run[|run| - 1].db == after
             && run[|run| - 1].workers == s.workers[w := if raised.None? then Dispatching(batch, |batch|) else Resting]
    ensures GoesOn(config, s, whole) && whole[|whole| - 1].workers == s.workers
    ensures whole[|whole| - 1].db == OutboxRelay.Round(config, s.db, limit, ids, weather).0
  {
    var (after, raised) := OutboxRelay.DispatchFrom(config, s.db, batch, ids, weather, 0);
    OutboxRelay.RoundShape(config, s.db, limit, ids, weather, batch, after, raised);
    whole := Ended(config, s, run, w, batch, after, raised);
  }

  lemma Ended(config: Config, s: System, run: seq<System>, w: nat, batch: seq<Envelope>, after: Db, raised: Option<Fault>)
    returns (whole: seq<System>)
    requires GoesOn(config, s, run) && w < |s.workers| && s.workers[w] == Resting
    requires run[|run| - 1].db == after
    requires run[|run| - 1].workers == s.workers[w := if raised.None? then Dispatching(batch, |batch|) else Resting]
    ensures GoesOn(config, s, whole) && whole[|whole| - 1].workers == s.workers
    ensures whole[|whole| - 1].db == if raised.None? then after.(published := after.published + IdsOf(batch)) else after
  {
    if raised.None? {
      whole := MarkIsStep(config, s, run, w);
    } else {
      whole := run;
    }
    assert whole[|whole| - 1].workers == s.workers;
  }

  lemma FetchIsStep(config: Config, s: System, s1: System, w: nat, limit: nat, batch: seq<Envelope>) returns (run: seq<System>)
    requires Sound(s.db) && w < |s.workers| && s.workers[w] == Resting
    requires batch == OutboxRelay.Fetched(s.db, limit) && s1 == To(s, w, Dispatching(batch, 0))
    ensures GoesOn(config, s, run) && run[|run| - 1] == s1
  {
    BatchIsUnpublished(s.db, limit);
    assert FetchStep(s, s1, w, batch);
    OneMore(config, s, [s], s1);
    run := [s] + [s1];
  }
}
