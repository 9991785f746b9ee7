/** The PostgreSQL runtime database: loading tables into a state, writing the difference of two
    states back, and retrying when a rival's insert wins the race for a start key. */
module RuntimeDatabase {
  import opened Kernel
  import opened Text
  import opened RuntimeModel
  import opened SnapshotCodec
  import opened Orchestrator
  import opened RowDiff

  /** A start binding row; its fingerprint column reads back unchanged (`SnapshotCodec.FingerprintRoundTrip`). */
  datatype Binding = Binding(execution: Uuid, fingerprint: Component)

  type Bindings = map<StartKey, Binding>
  type SnapshotRows = map<Address<Uuid>, Snapshot>

  datatype Tables = Tables(bindings: Bindings, snapshots: SnapshotRows, outbox: seq<Event>)

  /** What reading a stored snapshot gives back (`SnapshotCodec.SnapshotRoundTrip`). */
  function Stored(s: Snapshot): Snapshot {
    s.(suspension := None, failure := None)
  }

  lemma StoredIsReadBack(s: Snapshot)
    requires ValidSnapshot(s)
    ensures SnapshotFromJson(SnapshotToJson(s)) == Some(Stored(s))
  {
    SnapshotRoundTrip(s);
  }

  // ----- Rows that represent a state ------------------------------------------------------

  predicate Covers(st: State) {
    forall k :: k in st.index ==> st.index[k] in st.fingerprints
  }

  /** Fingerprints belong to exactly the bound executions. */
  predicate WellFormed(st: State) {
    Covers(st) && forall e :: e in st.fingerprints ==> exists k :: k in st.index && st.index[k] == e
  }

  function BindingsOf(st: State): Bindings
    requires Covers(st)
  {
    map k | k in st.index :: Binding(st.index[k], st.fingerprints[st.index[k]])
  }

  function OwnedOf(st: State): (m: map<Uuid, Owned<Snapshot>>)
    ensures m.Keys == st.snapshots.Keys
  {
    map e | e in st.snapshots :: Owned(st.snapshots[e].scope.tenant, st.snapshots[e])
  }

  ghost function RowsOf(st: State): SnapshotRows {
    Rows(OwnedOf(st), OwnedOf(st).Keys)
  }

  // ----- Loading ------------------------------------------------------------------------

  ghost predicate LoadedBindings(bindings: Bindings, index: map<StartKey, Uuid>, fingerprints: map<Uuid, Component>) {
    && index.Keys == bindings.Keys
    && (forall k :: k in index ==> index[k] == bindings[k].execution && index[k] in fingerprints)
    && (forall e :: e in fingerprints ==>
          exists k :: k in bindings && bindings[k] == Binding(e, fingerprints[e]))
  }

  ghost predicate LoadedSnapshots(rows: SnapshotRows, snapshots: map<Uuid, Snapshot>) {
    && (forall a :: a in rows ==> a.key in snapshots)
    && (forall e :: e in snapshots ==> exists a :: a in rows && a.key == e && Stored(rows[a]) == snapshots[e])
  }

  lemma LoadInvertsBindings(st: State, index: map<StartKey, Uuid>, fingerprints: map<Uuid, Component>)
    requires WellFormed(st) && LoadedBindings(BindingsOf(st), index, fingerprints)
    ensures index == st.index && fingerprints == st.fingerprints
  {
    assert index == st.index;
    assert fingerprints.Keys == st.fingerprints.Keys;
  }

  ghost predicate Transient(s: Snapshot) {
    s.suspension.Some? || s.failure.Some?
  }

  lemma LoadInvertsSnapshots(st: State, snapshots: map<Uuid, Snapshot>)
    requires LoadedSnapshots(RowsOf(st), snapshots)
    ensures snapshots.Keys == st.snapshots.Keys && forall e :: e in snapshots ==> snapshots[e] == Stored(st.snapshots[e])
  {
    forall e | e in st.snapshots ensures e in snapshots {
      assert AddressOf(OwnedOf(st), e) in RowsOf(st);
    }
  }

  // ----- Writing a difference and loading it back -------------------------------------------

  ghost predicate SameTenants(before: State, after: State) {
    forall e :: e in before.snapshots && e in after.snapshots ==>
      before.snapshots[e].scope.tenant == after.snapshots[e].scope.tenant
  }

  /** With no other writer, what is loaded after a write is the state that was written exactly when no
      execution moved to another tenant and no snapshot carries a suspension or a failure. */
  lemma WriteThenLoad(before: State, after: State, loaded: State)
    requires WellFormed(before) && WellFormed(after)
    requires LoadedBindings(Diff(BindingsOf(before), BindingsOf(before), BindingsOf(after)), loaded.index, loaded.fingerprints)
    requires LoadedSnapshots(DiffOwned(RowsOf(before), OwnedOf(before), OwnedOf(after)), loaded.snapshots)
    ensures loaded == after <==>
            SameTenants(before, after) && forall e :: e in after.snapshots ==> !Transient(after.snapshots[e])
  {
    DiffCorrect(BindingsOf(before), BindingsOf(after));
    LoadInvertsBindings(after, loaded.index, loaded.fingerprints);
    DiffOwnedCorrect(OwnedOf(before), OwnedOf(after));
    if SameTenants(before, after) {
      KeptTenantLoads(before, after, loaded.snapshots);
    } else {
      var e :| e in before.snapshots && e in after.snapshots
               && before.snapshots[e].scope.tenant != after.snapshots[e].scope.tenant;
      MovedTenantIsStale(before, after, loaded.snapshots, e);
    }
  }

  lemma KeptTenantLoads(before: State, after: State, snapshots: map<Uuid, Snapshot>)
    requires SameTenants(before, after)
    requires LoadedSnapshots(DiffOwned(RowsOf(before), OwnedOf(before), OwnedOf(after)), snapshots)
    ensures snapshots == after.snapshots <==> forall e :: e in after.snapshots ==> !Transient(after.snapshots[e])
  {
    DiffOwnedCorrect(OwnedOf(before), OwnedOf(after));
    assert SameOwners(OwnedOf(before), OwnedOf(after));
    LoadInvertsSnapshots(after, snapshots);
    StoredDropsTransients(after.snapshots, snapshots);
  }

  lemma StoredDropsTransients(m: map<Uuid, Snapshot>, stored: map<Uuid, Snapshot>)
    requires stored.Keys == m.Keys && forall e :: e in stored ==> stored[e] == Stored(m[e])
    ensures stored == m <==> forall e :: e in m ==> !Transient(m[e])
  {
    if stored == m {
      forall e | e in m ensures !Transient(m[e]) {
        assert stored[e] == m[e];
      }
    } else {
      var e :| e in m && stored[e] != m[e];
    }
  }

  /** The UPDATE looked under the new tenant, so the old row is still there and is what gets loaded. */
  lemma MovedTenantIsStale(before: State, after: State, snapshots: map<Uuid, Snapshot>, e: Uuid)
    requires LoadedSnapshots(DiffOwned(RowsOf(before), OwnedOf(before), OwnedOf(after)), snapshots)
    requires e in before.snapshots && e in after.snapshots
    requires before.snapshots[e].scope.tenant != after.snapshots[e].scope.tenant
    ensures snapshots != after.snapshots
  {
    var b, a := OwnedOf(before), OwnedOf(after);
    var rows := DiffOwned(RowsOf(before), b, a);
    assert AddressOf(b, e) in rows;
    forall r | r in rows && r.key == e ensures rows[r] == before.snapshots[e] {
      assert r !in Rows(a, Added(b, a)) && r !in Rows(a, ChangedOwned(RowsOf(before), b, a));
    }
    assert snapshots[e].scope == before.snapshots[e].scope;
  }

  const SOME_SNAPSHOT := Snapshot(1, Scope(1, 1, None, None), 1, Pending, None, map[], None, None, None,
                                  DateTime(2024, 1, 1, 0, 0, 0, 0, 0))

  /** One execution, moved from tenant 1 to tenant 2: what is loaded afterwards is the row of tenant 1. */
  lemma MovedExecutionIsStale()
    ensures var moved := SOME_SNAPSHOT.(scope := SOME_SNAPSHOT.scope.(tenant := 2));
            var before, after := State(map[1 := SOME_SNAPSHOT], map[], map[]), State(map[1 := moved], map[], map[]);
            && WellFormed(before) && WellFormed(after)
            && LoadedSnapshots(DiffOwned(RowsOf(before), OwnedOf(before), OwnedOf(after)), before.snapshots)
            && before.snapshots != after.snapshots
  {
    var moved := SOME_SNAPSHOT.(scope := SOME_SNAPSHOT.scope.(tenant := 2));
    var before, after := State(map[1 := SOME_SNAPSHOT], map[], map[]), State(map[1 := moved], map[], map[]);
    assert SOME_SNAPSHOT.scope.tenant != moved.scope.tenant && before.snapshots[1] != after.snapshots[1];
    var b, a := OwnedOf(before), OwnedOf(after);
    assert b == map[1 := Owned(1, SOME_SNAPSHOT)] && a == map[1 := Owned(2, moved)];
    OnlyRow(b, 1);
    assert b.Keys == {1};
    assert RowsOf(before) == map[Address(1, 1) := SOME_SNAPSHOT];
    assert Dropped(b, a) == {} == Added(b, a) && ChangedOwned(RowsOf(before), b, a) == {};
    NoRows(b);
    NoRows(a);
    assert DiffOwned(RowsOf(before), b, a) == RowsOf(before);
    assert Address(1, 1) in RowsOf(before) && Stored(SOME_SNAPSHOT) == SOME_SNAPSHOT;
  }

  // ----- Starting an execution against rivals -------------------------------------------------

  const MAX_WRITE_RETRIES: nat := 5

  /** Nothing stored mentions the execution: what a freshly generated id satisfies. */
  ghost predicate Unused(t: Tables, id: Uuid) {
    && (forall k :: k in t.bindings ==> t.bindings[k].execution != id)
    && (forall a :: a in t.snapshots ==> a.key != id)
  }

  /** The rows and the event a new execution adds. */
  function Started(t: Tables, spec: Spec, now: DateTime, eventId: nat): Tables {
    var s := InitialSnapshot(spec, now);
    Tables(t.bindings[KeyOf(spec) := Binding(spec.id, Fingerprint(spec))],
           t.snapshots[Address(spec.scope.tenant, spec.id) := s],
           t.outbox + [StatusChanged(eventId, None, s)])
  }

  /** Rivals' commits, by point in time: they never unbind the key and never use the fresh id. */
  ghost predicate FairRivals(rival: (nat, Tables) -> Tables, key: StartKey, id: Uuid) {
    && (forall n: nat, t: Tables :: key in t.bindings ==> key in rival(n, t).bindings)
    && (forall n: nat, t: Tables :: Unused(t, id) ==> Unused(rival(n, t), id))
  }

  /** What the first `n` rival commits alone make of the tables. */
  function Alone(rival: (nat, Tables) -> Tables, t: Tables, n: nat): Tables {
    if n == 0 then t else rival(n - 1, Alone(rival, t, n - 1))
  }

  ghost predicate IsStart(callback: State -> Step, spec: Spec, now: DateTime, eventId: nat) {
    forall st :: callback(st) == StartStep(spec, now, eventId, st)
  }

  ghost predicate KeepsCover(callback: State -> Step) {
    forall st :: Covers(st) && callback(st).Commit? ==> Covers(callback(st).after)
  }

  /** What one write attempt does to the tables, given what it loaded. */
  ghost predicate Writes(t: Tables, before: State, after: State, events: seq<Event>, result: Persistence, t': Tables)
    requires Covers(before) && Covers(after)
  {
    var b, a := BindingsOf(before), BindingsOf(after);
    match result
    case Raced => MeetsRow(t.bindings, b, a) && RaceOutcome(t.bindings, b, a, t'.bindings)
                  && t'.snapshots == t.snapshots && t'.outbox == t.outbox
    case Refused => !MeetsRow(t.bindings, b, a) && OwnedMeetsRow(t.snapshots, OwnedOf(before), OwnedOf(after)) && t' == t
    case Persisted => !MeetsRow(t.bindings, b, a) && !OwnedMeetsRow(t.snapshots, OwnedOf(before), OwnedOf(after))
                      && t' == Tables(Diff(t.bindings, b, a), DiffOwned(t.snapshots, OwnedOf(before), OwnedOf(after)),
                                      t.outbox + events)
  }

  datatype Persistence = Persisted | Raced | Refused

  /** A replay writes nothing. */
  lemma NothingToWrite(t: Tables, st: State, result: Persistence, t': Tables)
    requires Covers(st) && Writes(t, st, st, [], result, t')
    ensures result == Persisted && t' == t
  {
    NoDiff(t.bindings, BindingsOf(st));
    NoDiffOwned(t.snapshots, OwnedOf(st));
  }

  /** A new start's write depends on the loaded state only through the absence of its key, even when
      rivals committed between the loads: it adds its rows, or loses the race and changes nothing. */
  lemma StartWrites(t: Tables, before: State, spec: Spec, now: DateTime, eventId: nat, result: Persistence, t': Tables)
    requires Covers(before) && KeyOf(spec) !in before.index && Unused(t, spec.id)
    requires (forall k :: k in before.index ==> before.index[k] != spec.id) && spec.id !in before.snapshots
    requires var step := StartStep(spec, now, eventId, before);
             Covers(step.after) && Writes(t, before, step.after, step.events, result, t')
    ensures KeyOf(spec) in t.bindings ==> result == Raced && t' == t
    ensures KeyOf(spec) !in t.bindings ==> result == Persisted && t' == Started(t, spec, now, eventId)
  {
    var after := StartStep(spec, now, eventId, before).after;
    var binding, s := Binding(spec.id, Fingerprint(spec)), InitialSnapshot(spec, now);
    StartBindings(before, after, KeyOf(spec), binding);
    StartOwned(before, after, s);
    AddOne(t.bindings, BindingsOf(before), KeyOf(spec), binding);
    AddOneOwned(t.snapshots, OwnedOf(before), s.id, Owned(s.scope.tenant, s));
  }

  lemma StartBindings(before: State, after: State, key: StartKey, binding: Binding)
    requires Covers(before) && Covers(after) && forall k :: k in before.index ==> before.index[k] != binding.execution
    requires after.index == before.index[key := binding.execution]
    requires after.fingerprints == before.fingerprints[binding.execution := binding.fingerprint]
    ensures BindingsOf(after) == BindingsOf(before)[key := binding]
  {
  }

  lemma StartOwned(before: State, after: State, s: Snapshot)
    requires after.snapshots == before.snapshots[s.id := s]
    ensures OwnedOf(after) == OwnedOf(before)[s.id := Owned(s.scope.tenant, s)]
  {
    var m := OwnedOf(before)[s.id := Owned(s.scope.tenant, s)];
    assert OwnedOf(after).Keys == m.Keys;
    forall e | e in m ensures OwnedOf(after)[e] == m[e] {
    }
  }

  /** One more binding row read: its fingerprint replaces any earlier one of the same execution. */
  lemma RowLoaded(done: Bindings, index: map<StartKey, Uuid>, fingerprints: map<Uuid, Component>, k: StartKey, row: Binding)
    requires LoadedBindings(done, index, fingerprints) && k !in done
    ensures LoadedBindings(done[k := row], index[k := row.execution], fingerprints[row.execution := row.fingerprint])
  {
    var done', fingerprints' := done[k := row], fingerprints[row.execution := row.fingerprint];
    forall e | e in fingerprints' ensures exists j :: j in done' && done'[j] == Binding(e, fingerprints'[e]) {
      if e == row.execution {
        assert done'[k] == row;
      } else {
        var j :| j in done && done[j] == Binding(e, fingerprints[e]);
        assert done'[j] == done[j];
      }
    }
  }

  lemma SnapshotLoaded(done: SnapshotRows, loaded: map<Uuid, Snapshot>, a: Address<Uuid>, row: Snapshot)
    requires LoadedSnapshots(done, loaded) && a !in done
    ensures LoadedSnapshots(done[a := row], loaded[a.key := Stored(row)])
  {
    var done', loaded' := done[a := row], loaded[a.key := Stored(row)];
    forall e | e in loaded' ensures exists b :: b in done' && b.key == e && Stored(done'[b]) == loaded'[e] {
      if e == a.key {
        assert done'[a] == row;
      } else {
        var b :| b in done && b.key == e && Stored(done[b]) == loaded[e];
        assert done'[b] == done[b];
      }
    }
  }

  class Database {
    var bindings: Bindings
    var snapshots: SnapshotRows
    var outbox: seq<Event>

    constructor ()
      ensures Contents() == Tables(map[], map[], [])
    {
      bindings, snapshots, outbox := map[], map[], [];
    }

    function Contents(): Tables
      reads this
    {
      Tables(bindings, snapshots, outbox)
    }

    method LoadBindings() returns (index: map<StartKey, Uuid>, fingerprints: map<Uuid, Component>)
      ensures LoadedBindings(bindings, index, fingerprints)
    {
      index, fingerprints := map[], map[];
      var rows := bindings.Keys;
      ghost var done: Bindings := map[];
      while rows != {}
        invariant rows <= bindings.Keys && done == bindings - rows
        invariant LoadedBindings(done, index, fingerprints)
        decreases rows
      {
        var k :| k in rows;
        RowLoaded(done, index, fingerprints, k, bindings[k]);
        done := done[k := bindings[k]];
        rows := rows - {k};
        index := index[k := bindings[k].execution];
        fingerprints := fingerprints[bindings[k].execution := bindings[k].fingerprint];
      }
      assert done == bindings;
    }

    method LoadSnapshots() returns (loaded: map<Uuid, Snapshot>)
      ensures LoadedSnapshots(snapshots, loaded)
    {
      loaded := map[];
      var rows := snapshots.Keys;
      ghost var done: SnapshotRows := map[];
      while rows != {}
        invariant rows <= snapshots.Keys && done == snapshots - rows
        invariant LoadedSnapshots(done, loaded)
        decreases rows
      {
        var a :| a in rows;
        SnapshotLoaded(done, loaded, a, snapshots[a]);
        done := done[a := snapshots[a]];
        rows := rows - {a};
        loaded := loaded[a.key := Stored(snapshots[a])];
      }
      assert done == snapshots;
    }

    method PersistIdempotency(b: Bindings, a: Bindings) returns (raced: bool)
      modifies this`bindings
      ensures raced <==> MeetsRow(old(bindings), b, a)
      ensures raced ==> RaceOutcome(old(bindings), b, a, bindings)
      ensures !raced ==> bindings == Diff(old(bindings), b, a)
    {
      ghost var t := bindings;
      bindings := DeleteRows(bindings, b, a);
      raced, bindings := InsertRows(t, bindings, b, a);
      if !raced {
        bindings := UpdateRows(t, bindings, b, a);
      }
    }

    method PersistSnapshots(b: map<Uuid, Owned<Snapshot>>, a: map<Uuid, Owned<Snapshot>>) returns (refused: bool)
      modifies this`snapshots
      ensures refused <==> OwnedMeetsRow(old(snapshots), b, a)
      ensures !refused ==> snapshots == DiffOwned(old(snapshots), b, a)
    {
      ghost var t := snapshots;
      snapshots := DeleteOwned(snapshots, b, a);
      refused, snapshots := InsertOwned(snapshots, b, a);
      if !refused {
        snapshots := UpdateOwned(t, snapshots, b, a);
      }
    }

    /** Writes the difference of two states and the buffered events. A lost race leaves what was done so
        far to be committed; a unique violation rolls everything back. */
    method PersistState(before: State, after: State, events: seq<Event>) returns (result: Persistence)
      requires Covers(before) && Covers(after)
      modifies this
      ensures Writes(old(Contents()), before, after, events, result, Contents())
    {
      var savedBindings, savedSnapshots := bindings, snapshots;
      var raced := PersistIdempotency(BindingsOf(before), BindingsOf(after));
      if raced {
        return Raced;
      }
      var refused := PersistSnapshots(OwnedOf(before), OwnedOf(after));
      if refused {
        bindings, snapshots := savedBindings, savedSnapshots;
        return Refused;
      }
      PersistOutbox(events);
      result := Persisted;
    }

    method PersistOutbox(events: seq<Event>)
      modifies this`outbox
      ensures outbox == old(outbox) + events
    {
      Prefixes(events, 0);
      for i := 0 to |events|
        invariant outbox == old(outbox) + events[..i]
      {
        Prefixes(events, i);
        outbox := outbox + [events[i]];
      }
    }

    method Interfere(rival: (nat, Tables) -> Tables, n: nat)
      modifies this
      ensures Contents() == rival(n, old(Contents()))
    {
      var t := rival(n, Contents());
      bindings, snapshots, outbox := t.bindings, t.snapshots, t.outbox;
    }

    /** One attempt: load, run the callback, write its result back. `rival` is what other processes commit
        before the load, between the two loads, and before the write. */
    method Attempt(callback: State -> Step, rival: (nat, Tables) -> Tables, n: nat,
                   ghost spec: Spec, ghost now: DateTime, ghost eventId: nat) returns (r: AttemptResult)
      requires KeepsCover(callback)
      modifies this
      ensures IsStart(callback, spec, now, eventId) && Unused(old(Contents()), spec.id)
              && FairRivals(rival, KeyOf(spec), spec.id) ==>
                AttemptSettled(old(Contents()), Around(rival, n, old(Contents())), spec, now, eventId, r, Contents())
      ensures r == Done(Err(RetryLimit)) ==> exists before :: callback(before) == Raise(RetryLimit)
    {
      ghost var t0 := Contents();
      Interfere(rival, n);
      ghost var t1 := Contents();
      var index, fingerprints := LoadBindings();
      Interfere(rival, n + 1);
      ghost var t2 := Contents();
      var loaded := LoadSnapshots();
      Interfere(rival, n + 2);
      ghost var t3 := Contents();
      var before := State(loaded, index, fingerprints);
      var step := callback(before);
      if step.Raise? {
        return Done(Err(step.error));
      }
      var result := PersistState(before, step.after, step.events);
      if IsStart(callback, spec, now, eventId) && Unused(t0, spec.id) && FairRivals(rival, KeyOf(spec), spec.id) {
        AttemptOfStart(t1, t2, t3, before, spec, now, eventId, result, Contents());
      }
      r := if result == Refused then Done(Err(UniqueViolation)) else if result == Persisted then Done(Ok(())) else Again;
    }

    /** Attempts the write until it does not lose a race, at most five times; the retry limit is
        reported after the fifth lost race only, unless the callback itself raises it.

        For a start with a fresh id against fair rivals: two attempts are enough, an attempt that loses
        changes nothing, and in the end the tables are what the rivals alone made of them plus, when the
        key was still free, exactly this start's rows and event. */
    method Write(callback: State -> Step, rival: (nat, Tables) -> Tables,
                 ghost spec: Spec, ghost now: DateTime, ghost eventId: nat)
      returns (outcome: Result<(), RuntimeError>, attempts: nat)
      requires KeepsCover(callback)
      modifies this
      ensures attempts <= 5
      ensures outcome == Err(RetryLimit) ==> attempts == 5 || exists before :: callback(before) == Raise(RetryLimit)
      ensures IsStart(callback, spec, now, eventId) && Unused(old(Contents()), spec.id)
              && FairRivals(rival, KeyOf(spec), spec.id) ==>
                StartSettled(rival, old(Contents()), spec, now, eventId, outcome, attempts, Contents())
    {
      attempts := 0;
      ghost var t0 := Contents();
      ghost var fair := IsStart(callback, spec, now, eventId) && Unused(t0, spec.id) && FairRivals(rival, KeyOf(spec), spec.id);
      while attempts < MAX_WRITE_RETRIES
        invariant attempts <= MAX_WRITE_RETRIES
        invariant fair ==> attempts <= 1 && Contents() == Alone(rival, t0, 3 * attempts) && Unused(Contents(), spec.id)
        invariant fair && attempts > 0 ==> KeyOf(spec) in Contents().bindings
      {
        AloneThree(rival, t0, 3 * attempts);
        var r := Attempt(callback, rival, 3 * attempts, spec, now, eventId);
        attempts := attempts + 1;
        if r.Done? {
          return r.outcome, attempts;
        }
      }
      outcome := Err(RetryLimit);
    }
  }

  datatype AttemptResult = Again | Done(outcome: Result<(), RuntimeError>)

  /** The three rival commits around one attempt. */
  function Around(rival: (nat, Tables) -> Tables, n: nat, t: Tables): Tables {
    rival(n + 2, rival(n + 1, rival(n, t)))
  }

  lemma AloneThree(rival: (nat, Tables) -> Tables, t: Tables, n: nat)
    ensures Alone(rival, t, n + 3) == Around(rival, n, Alone(rival, t, n))
  {
    assert Alone(rival, t, n + 1) == rival(n, Alone(rival, t, n));
    assert Alone(rival, t, n + 2) == rival(n + 1, Alone(rival, t, n + 1));
  }

  /** How one attempt of a start ends, `env` being the tables it writes to. */
  ghost predicate AttemptSettled(t0: Tables, env: Tables, spec: Spec, now: DateTime, eventId: nat, r: AttemptResult, t: Tables) {
    && Unused(env, spec.id)
    && (KeyOf(spec) in t0.bindings ==> r.Done?)
    && (r.Again? ==> KeyOf(spec) in env.bindings)
    && (r.Done? ==> r.outcome == Ok(()) || r.outcome == Err(IdempotencyConflict))
    && (KeyOf(spec) in env.bindings ==> t == env)
    && (KeyOf(spec) !in env.bindings ==> r == Done(Ok(())) && t == Started(env, spec, now, eventId))
  }

  /** How a start call ends. */
  ghost predicate StartSettled(rival: (nat, Tables) -> Tables, t0: Tables, spec: Spec, now: DateTime, eventId: nat,
                               outcome: Result<(), RuntimeError>, attempts: nat, t: Tables) {
    var env := Alone(rival, t0, 3 * attempts);
    && 1 <= attempts <= 2
    && (outcome == Ok(()) || outcome == Err(IdempotencyConflict))
    && (KeyOf(spec) in env.bindings ==> t == env)
    && (KeyOf(spec) !in env.bindings ==> outcome == Ok(()) && t == Started(env, spec, now, eventId))
  }

  /** One attempt of a start: the bindings were loaded at t1, the snapshots at t2, the write met t3. */
  lemma AttemptOfStart(t1: Tables, t2: Tables, t3: Tables, before: State, spec: Spec, now: DateTime, eventId: nat,
                       result: Persistence, t': Tables)
    requires LoadedBindings(t1.bindings, before.index, before.fingerprints) && LoadedSnapshots(t2.snapshots, before.snapshots)
    requires Unused(t1, spec.id) && Unused(t2, spec.id) && Unused(t3, spec.id)
    requires KeyOf(spec) in t1.bindings ==> KeyOf(spec) in t3.bindings
    requires var step := StartStep(spec, now, eventId, before);
             step.Commit? && Covers(before) && Covers(step.after) && Writes(t3, before, step.after, step.events, result, t')
    ensures KeyOf(spec) in t1.bindings ==> result == Persisted && t' == t3
    ensures KeyOf(spec) !in t1.bindings && KeyOf(spec) in t3.bindings ==> result == Raced && t' == t3
    ensures KeyOf(spec) !in t3.bindings ==> result == Persisted && t' == Started(t3, spec, now, eventId)
  {
    if KeyOf(spec) in t1.bindings {
      NothingToWrite(t3, before, result, t');
    } else {
      StartWrites(t3, before, spec, now, eventId, result, t');
    }
  }
}
