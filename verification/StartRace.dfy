/** Any number of processes racing `start` over shared tables, one committed statement group at a time,
    with cancellations by anybody in between and crashes at any point. */
module StartRace {
  import opened Kernel
  import opened Text
  import opened RuntimeModel
  import opened SnapshotCodec
  import opened Orchestrator
  import opened RowDiff
  import opened RuntimeDatabase

  /** One call of `start`: its spec carries a freshly generated id, `fingerprint` is the one it computes. */
  datatype Call = Call(spec: Spec, fingerprint: Component, now: DateTime, eventId: nat)

  datatype Phase =
    | Ready(tries: nat)                         // about to load
    | Loaded(tries: nat, seen: Option<Binding>) // loaded, about to write
    | Written                                   // the write block committed, about to read back
    | Conflict                                  // ended: another request holds the key
    | Exhausted                                 // ended: retry limit
    | NotFound                                  // ended: nothing to read back
    | Answered(snapshot: Snapshot)              // ended with a snapshot
    | Crashed

  /** `winners` records which call inserted the row of a key; no step looks at it. */
  datatype System = System(tables: Tables, phases: seq<Phase>, winners: map<StartKey, nat>)

  predicate FreshCalls(calls: seq<Call>) {
    forall p, q :: 0 <= p < q < |calls| ==>
      calls[p].spec.id != calls[q].spec.id && calls[p].eventId != calls[q].eventId
  }

  predicate Genuine(call: Call) {
    call.fingerprint == Fingerprint(call.spec)
  }

  predicate GenuineCalls(calls: seq<Call>) {
    forall p :: 0 <= p < |calls| ==> Genuine(calls[p])
  }

  predicate Init(calls: seq<Call>, s: System) {
    && s.tables == Tables(map[], map[], []) && s.winners == map[]
    && |s.phases| == |calls| && forall p :: 0 <= p < |calls| ==> s.phases[p] == Ready(0)
  }

  function CreatedBy(call: Call): Binding {
    Binding(call.spec.id, call.fingerprint)
  }

  function RowAddress(call: Call): Address<Uuid> {
    Address(call.spec.scope.tenant, call.spec.id)
  }

  function InitialEvent(call: Call): Event {
    StatusChanged(call.eventId, None, InitialSnapshot(call.spec, call.now))
  }

  /** The rows and the event a winning call adds. */
  function Insert(t: Tables, call: Call): Tables {
    Tables(t.bindings[KeyOf(call.spec) := CreatedBy(call)],
           t.snapshots[RowAddress(call) := InitialSnapshot(call.spec, call.now)],
           t.outbox + [InitialEvent(call)])
  }

  predicate Load(calls: seq<Call>, s: System, s': System, p: nat) {
    && p < |calls| == |s.phases| && s.phases[p].Ready?
    && s' == s.(phases := s.phases[p := Loaded(s.phases[p].tries, Lookup(s.tables.bindings, KeyOf(calls[p].spec)))])
  }

  /** The write block, by what the callback saw and what the insert meets; `AttemptIsWrite` shows that a
      loaded, diffed and persisted attempt does exactly this. */
  function AfterWrite(t: Tables, call: Call, tries: nat, seen: Option<Binding>): (Tables, Phase) {
    match seen
    case Some(b) => (t, if Alike(b.fingerprint, call.fingerprint) then Written else Conflict)
    case None =>
      if KeyOf(call.spec) !in t.bindings then (Insert(t, call), Written)
      else (t, if tries + 1 < MAX_WRITE_RETRIES then Ready(tries + 1) else Exhausted)
  }

  predicate Inserts(s: System, call: Call, p: nat)
    requires p < |s.phases| && s.phases[p].Loaded?
  {
    s.phases[p].seen.None? && KeyOf(call.spec) !in s.tables.bindings
  }

  predicate Write(calls: seq<Call>, s: System, s': System, p: nat) {
    && p < |calls| == |s.phases| && s.phases[p].Loaded?
    && var (t, phase) := AfterWrite(s.tables, calls[p], s.phases[p].tries, s.phases[p].seen);
       s' == System(t, s.phases[p := phase],
                    if Inserts(s, calls[p], p) then s.winners[KeyOf(calls[p].spec) := p] else s.winners)
  }

  /** A snapshot the read-back may find: loading keeps one row per execution id. */
  ghost predicate ReadsSnapshot(rows: SnapshotRows, id: Uuid, scope: Scope, found: Option<Snapshot>) {
    match found
    case Some(snap) => exists a :: a in rows && a.key == id && Stored(rows[a]) == snap && snap.scope == scope
    case None => forall a :: a in rows && a.key == id ==> rows[a].scope != scope
  }

  ghost predicate ReadBack(calls: seq<Call>, s: System, s': System, p: nat, found: Option<Snapshot>) {
    && p < |calls| == |s.phases| && s.phases[p] == Written
    && var key := KeyOf(calls[p].spec);
       if key !in s.tables.bindings then s' == s.(phases := s.phases[p := NotFound])
       else
         && ReadsSnapshot(s.tables.snapshots, s.tables.bindings[key].execution, calls[p].spec.scope, found)
         && s' == s.(phases := s.phases[p := if found.Some? then Answered(found.value) else NotFound])
  }

  /** Any cancellation, stale or not: it rewrites at most one row within its scope and publishes follow-up
      events (`CancelIsStep`). */
  predicate Cancel(s: System, s': System, a: Address<Uuid>, snap: Snapshot, events: seq<Event>) {
    && a in s.tables.snapshots && snap.id == s.tables.snapshots[a].id && snap.scope == s.tables.snapshots[a].scope
    && (forall e :: e in events ==> e.previous.Some?)
    && s' == s.(tables := s.tables.(snapshots := s.tables.snapshots[a := snap], outbox := s.tables.outbox + events))
  }

  predicate Crash(calls: seq<Call>, s: System, s': System, p: nat) {
    p < |calls| == |s.phases| && s' == s.(phases := s.phases[p := Crashed])
  }

  ghost predicate Next(calls: seq<Call>, s: System, s': System) {
    || (exists p: nat :: Load(calls, s, s', p))
    || (exists p: nat :: Write(calls, s, s', p))
    || (exists p: nat, found :: ReadBack(calls, s, s', p, found))
    || (exists a, snap, events :: Cancel(s, s', a, snap, events))
    || (exists p: nat :: Crash(calls, s, s', p))
  }

  /** A run from empty tables, as long as one likes. */
  ghost predicate IsRun(calls: seq<Call>, run: seq<System>) {
    |run| > 0 && Init(calls, run[0]) && forall i :: 0 <= i < |run| - 1 ==> Next(calls, run[i], run[i + 1])
  }

  // ----- The invariant ----------------------------------------------------------------------

  /** Bindings are exactly what their winners inserted. */
  ghost predicate BindingsWon(calls: seq<Call>, s: System) {
    && s.winners.Keys == s.tables.bindings.Keys
    && forall k :: k in s.winners ==>
         s.winners[k] < |calls| && KeyOf(calls[s.winners[k]].spec) == k
         && s.tables.bindings[k] == CreatedBy(calls[s.winners[k]])
  }

  ghost predicate Won(calls: seq<Call>, winners: map<StartKey, nat>, p: nat) {
    p < |calls| && KeyOf(calls[p].spec) in winners && winners[KeyOf(calls[p].spec)] == p
  }

  /** The row of an execution that `call` created: its status may have moved on, its id and scope have not. */
  predicate RowOf(call: Call, a: Address<Uuid>, row: Snapshot) {
    RowAddress(call) == a && row.id == call.spec.id && row.scope == call.spec.scope
  }

  /** Snapshot rows are exactly the winners' executions, in their scope. */
  ghost predicate SnapshotsWon(calls: seq<Call>, winners: map<StartKey, nat>, rows: SnapshotRows) {
    && (forall p: nat :: Won(calls, winners, p) ==> RowAddress(calls[p]) in rows)
    && forall a :: RowWon(calls, winners, rows, a)
  }

  ghost predicate RowWon(calls: seq<Call>, winners: map<StartKey, nat>, rows: SnapshotRows, a: Address<Uuid>) {
    a in rows ==> exists p: nat :: Won(calls, winners, p) && RowOf(calls[p], a, rows[a])
  }

  /** Initial events are exactly one per winner. */
  ghost predicate EventsWon(calls: seq<Call>, winners: map<StartKey, nat>, outbox: seq<Event>) {
    && (forall p: nat :: Won(calls, winners, p) ==> multiset(outbox)[InitialEvent(calls[p])] == 1)
    && forall e :: EventWon(calls, winners, outbox, e)
  }

  ghost predicate EventWon(calls: seq<Call>, winners: map<StartKey, nat>, outbox: seq<Event>, e: Event) {
    e in outbox && e.previous.None? ==> exists p: nat :: Won(calls, winners, p) && e == InitialEvent(calls[p])
  }

  ghost predicate PhaseHolds(call: Call, bindings: Bindings, won: bool, phase: Phase) {
    var key := KeyOf(call.spec);
    match phase
    case Ready(tries) => tries <= 1 && (tries == 1 ==> key in bindings) && !won
    case Loaded(tries, seen) => tries <= 1 && (tries == 1 ==> seen.Some?) && !won
                                && (seen.Some? ==> key in bindings && seen.value == bindings[key])
    case Written => key in bindings && Alike(bindings[key].fingerprint, call.fingerprint)
    case Conflict => key in bindings && !Alike(bindings[key].fingerprint, call.fingerprint)
    case Answered(snap) => key in bindings && Alike(bindings[key].fingerprint, call.fingerprint)
                           && snap.id == bindings[key].execution && snap.scope == call.spec.scope
    case Crashed => true
    case Exhausted => false
    case NotFound => false
  }

  ghost predicate PhasesHold(calls: seq<Call>, s: System) {
    |s.phases| == |calls|
    && forall p :: 0 <= p < |calls| ==> PhaseHolds(calls[p], s.tables.bindings, Won(calls, s.winners, p), s.phases[p])
  }

  ghost predicate Inv(calls: seq<Call>, s: System) {
    && BindingsWon(calls, s) && SnapshotsWon(calls, s.winners, s.tables.snapshots)
    && EventsWon(calls, s.winners, s.tables.outbox) && PhasesHold(calls, s)
  }

  // ----- Every step keeps it ------------------------------------------------------------------

  /** No step rebinds or unbinds a key. */
  lemma BindingsOnlyGrow(calls: seq<Call>, s: System, s': System)
    requires Next(calls, s, s')
    ensures forall k :: k in s.tables.bindings ==> k in s'.tables.bindings && s'.tables.bindings[k] == s.tables.bindings[k]
  {
  }

  /** A step that changes only the phase of `p`, to one that holds. */
  lemma PhaseStepKeeps(calls: seq<Call>, s: System, s': System, p: nat, phase: Phase)
    requires Inv(calls, s) && p < |calls| && s' == s.(phases := s.phases[p := phase])
    requires PhaseHolds(calls[p], s.tables.bindings, Won(calls, s.winners, p), phase)
    ensures Inv(calls, s')
  {
  }

  lemma LoadKeeps(calls: seq<Call>, s: System, s': System, p: nat)
    requires Inv(calls, s) && Load(calls, s, s', p)
    ensures Inv(calls, s')
  {
    assert PhaseHolds(calls[p], s.tables.bindings, Won(calls, s.winners, p), s.phases[p]);
    PhaseStepKeeps(calls, s, s', p, Loaded(s.phases[p].tries, Lookup(s.tables.bindings, KeyOf(calls[p].spec))));
  }

  lemma WriteKeeps(calls: seq<Call>, s: System, s': System, p: nat)
    requires FreshCalls(calls) && Inv(calls, s) && Write(calls, s, s', p)
    ensures Inv(calls, s')
  {
    assert PhaseHolds(calls[p], s.tables.bindings, Won(calls, s.winners, p), s.phases[p]);
    if Inserts(s, calls[p], p) {
      InsertKeeps(calls, s, s', p);
    } else {
      PhaseStepKeeps(calls, s, s', p, s'.phases[p]);
    }
  }

  /** The winning write adds one binding, one snapshot and one initial event. */
  lemma InsertKeeps(calls: seq<Call>, s: System, s': System, p: nat)
    requires FreshCalls(calls) && Inv(calls, s) && p < |calls| && KeyOf(calls[p].spec) !in s.tables.bindings
    requires s' == System(Insert(s.tables, calls[p]), s.phases[p := Written], s.winners[KeyOf(calls[p].spec) := p])
    ensures Inv(calls, s')
  {
    forall q: nat ensures Won(calls, s'.winners, q) <==> Won(calls, s.winners, q) || q == p {
    }
    assert !Won(calls, s.winners, p);
    WinAddsSnapshot(calls, s.winners, s'.winners, s.tables.snapshots, p);
    WinAddsEvent(calls, s.winners, s'.winners, s.tables.outbox, p);
    WinAddsBinding(calls, s, s', p);
  }

  lemma WinAddsBinding(calls: seq<Call>, s: System, s': System, p: nat)
    requires BindingsWon(calls, s) && PhasesHold(calls, s) && p < |calls| && KeyOf(calls[p].spec) !in s.tables.bindings
    requires s'.tables.bindings == s.tables.bindings[KeyOf(calls[p].spec) := CreatedBy(calls[p])]
    requires s'.winners == s.winners[KeyOf(calls[p].spec) := p] && s'.phases == s.phases[p := Written]
    requires forall q: nat :: Won(calls, s'.winners, q) <==> Won(calls, s.winners, q) || q == p
    ensures BindingsWon(calls, s') && PhasesHold(calls, s')
  {
    AlikeReflexive(calls[p].fingerprint);
    forall q | 0 <= q < |calls|
      ensures PhaseHolds(calls[q], s'.tables.bindings, Won(calls, s'.winners, q), s'.phases[q])
    {
      assert PhaseHolds(calls[q], s.tables.bindings, Won(calls, s.winners, q), s.phases[q]);
    }
  }

  lemma WinAddsSnapshot(calls: seq<Call>, winners: map<StartKey, nat>, winners': map<StartKey, nat>, rows: SnapshotRows, p: nat)
    requires FreshCalls(calls) && SnapshotsWon(calls, winners, rows) && p < |calls|
    requires forall q: nat :: Won(calls, winners', q) <==> Won(calls, winners, q) || q == p
    ensures SnapshotsWon(calls, winners', rows[RowAddress(calls[p]) := InitialSnapshot(calls[p].spec, calls[p].now)])
  {
    var rows' := rows[RowAddress(calls[p]) := InitialSnapshot(calls[p].spec, calls[p].now)];
    forall a ensures RowWon(calls, winners', rows', a) {
      if a == RowAddress(calls[p]) {
        assert Won(calls, winners', p);
      } else if a in rows {
        assert RowWon(calls, winners, rows, a);
        var q: nat :| Won(calls, winners, q) && RowOf(calls[q], a, rows[a]);
        assert Won(calls, winners', q);
      }
    }
  }

  lemma WinAddsEvent(calls: seq<Call>, winners: map<StartKey, nat>, winners': map<StartKey, nat>, outbox: seq<Event>, p: nat)
    requires FreshCalls(calls) && EventsWon(calls, winners, outbox) && p < |calls| && !Won(calls, winners, p)
    requires forall q: nat :: Won(calls, winners', q) <==> Won(calls, winners, q) || q == p
    ensures EventsWon(calls, winners', outbox + [InitialEvent(calls[p])])
  {
    var e := InitialEvent(calls[p]);
    forall q: nat | Won(calls, winners, q) ensures InitialEvent(calls[q]) != e {
      assert InitialEvent(calls[q]).eventId != e.eventId;
    }
    assert EventWon(calls, winners, outbox, e);
    var outbox' := outbox + [e];
    forall q: nat | Won(calls, winners', q) ensures multiset(outbox')[InitialEvent(calls[q])] == 1 {
    }
    forall x ensures EventWon(calls, winners', outbox', x) {
      assert EventWon(calls, winners, outbox, x);
      if x == e {
        assert Won(calls, winners', p);
      } else if x in outbox && x.previous.None? {
        var q: nat :| Won(calls, winners, q) && x == InitialEvent(calls[q]);
        assert Won(calls, winners', q);
      }
    }
  }

  /** Every row stored under an execution id belongs to the call that generated the id. */
  lemma RowsOfBound(calls: seq<Call>, winners: map<StartKey, nat>, rows: SnapshotRows, w: nat, a: Address<Uuid>)
    requires FreshCalls(calls) && SnapshotsWon(calls, winners, rows) && w < |calls| && a in rows && a.key == calls[w].spec.id
    ensures RowOf(calls[w], a, rows[a])
  {
    assert RowWon(calls, winners, rows, a);
    var q: nat :| Won(calls, winners, q) && RowOf(calls[q], a, rows[a]);
    assert calls[q].spec.id == calls[w].spec.id;
  }

  lemma SameScope(a: Call, b: Call)
    requires Genuine(a) && Genuine(b) && Alike(a.fingerprint, b.fingerprint)
    ensures a.spec.scope == b.spec.scope
  {
    FingerprintDecides(a.spec, b.spec);
  }

  /** Fingerprints that compare equal have one scope, so a request that was not refused finds the bound snapshot. */
  lemma ReadBackFinds(calls: seq<Call>, s: System, p: nat, found: Option<Snapshot>)
    requires FreshCalls(calls) && GenuineCalls(calls) && Inv(calls, s) && p < |calls|
    requires KeyOf(calls[p].spec) in s.tables.bindings
    requires Alike(s.tables.bindings[KeyOf(calls[p].spec)].fingerprint, calls[p].fingerprint)
    requires ReadsSnapshot(s.tables.snapshots, s.tables.bindings[KeyOf(calls[p].spec)].execution, calls[p].spec.scope, found)
    ensures found.Some? && found.value.id == s.tables.bindings[KeyOf(calls[p].spec)].execution
            && found.value.scope == calls[p].spec.scope
  {
    var w := s.winners[KeyOf(calls[p].spec)];
    SameScope(calls[w], calls[p]);
    assert Won(calls, s.winners, w);
    var rows := s.tables.snapshots;
    if found.None? {
      RowsOfBound(calls, s.winners, rows, w, RowAddress(calls[w]));
    } else {
      var a :| a in rows && a.key == calls[w].spec.id && Stored(rows[a]) == found.value;
      RowsOfBound(calls, s.winners, rows, w, a);
    }
  }

  lemma ReadBackKeeps(calls: seq<Call>, s: System, s': System, p: nat, found: Option<Snapshot>)
    requires FreshCalls(calls) && GenuineCalls(calls) && Inv(calls, s) && ReadBack(calls, s, s', p, found)
    ensures Inv(calls, s')
  {
    assert PhaseHolds(calls[p], s.tables.bindings, Won(calls, s.winners, p), s.phases[p]);
    ReadBackFinds(calls, s, p, found);
    PhaseStepKeeps(calls, s, s', p, Answered(found.value));
  }

  lemma CancelKeeps(calls: seq<Call>, s: System, s': System, a: Address<Uuid>, snap: Snapshot, events: seq<Event>)
    requires Inv(calls, s) && Cancel(s, s', a, snap, events)
    ensures Inv(calls, s')
  {
    var rows, rows' := s.tables.snapshots, s'.tables.snapshots;
    forall b ensures RowWon(calls, s.winners, rows', b) {
      assert RowWon(calls, s.winners, rows, b);
      if b in rows {
        RowKeepsOwner(calls, s.winners, rows, rows', b);
      }
    }
    FollowUpsKeep(calls, s.winners, s.tables.outbox, events);
  }

  lemma RowKeepsOwner(calls: seq<Call>, winners: map<StartKey, nat>, rows: SnapshotRows, rows': SnapshotRows, b: Address<Uuid>)
    requires RowWon(calls, winners, rows, b) && b in rows && b in rows'
    requires rows'[b].id == rows[b].id && rows'[b].scope == rows[b].scope
    ensures RowWon(calls, winners, rows', b)
  {
    var q: nat :| Won(calls, winners, q) && RowOf(calls[q], b, rows[b]);
    assert RowOf(calls[q], b, rows'[b]);
  }

  lemma FollowUpsKeep(calls: seq<Call>, winners: map<StartKey, nat>, outbox: seq<Event>, events: seq<Event>)
    requires EventsWon(calls, winners, outbox) && forall e :: e in events ==> e.previous.Some?
    ensures EventsWon(calls, winners, outbox + events)
  {
    forall p: nat | Won(calls, winners, p) ensures multiset(outbox + events)[InitialEvent(calls[p])] == 1 {
      assert InitialEvent(calls[p]) !in events;
    }
    forall e ensures EventWon(calls, winners, outbox + events, e) {
      assert EventWon(calls, winners, outbox, e);
    }
  }

  lemma StepKeeps(calls: seq<Call>, s: System, s': System)
    requires FreshCalls(calls) && GenuineCalls(calls) && Inv(calls, s) && Next(calls, s, s')
    ensures Inv(calls, s')
  {
    if p: nat :| Load(calls, s, s', p) {
      LoadKeeps(calls, s, s', p);
    } else if p: nat :| Write(calls, s, s', p) {
      WriteKeeps(calls, s, s', p);
    } else if p: nat, found :| ReadBack(calls, s, s', p, found) {
      ReadBackKeeps(calls, s, s', p, found);
    } else if a, snap, events :| Cancel(s, s', a, snap, events) {
      CancelKeeps(calls, s, s', a, snap, events);
    } else {
      var p: nat :| Crash(calls, s, s', p);
      PhaseStepKeeps(calls, s, s', p, Crashed);
    }
  }

  lemma {:induction false} RunKeeps(calls: seq<Call>, run: seq<System>, i: nat)
    requires FreshCalls(calls) && GenuineCalls(calls) && IsRun(calls, run) && i < |run|
    ensures Inv(calls, run[i])
  {
    if i > 0 {
      RunKeeps(calls, run, i - 1);
      assert Next(calls, run[i - 1], run[i]);
      StepKeeps(calls, run[i - 1], run[i]);
    }
  }

  // ----- What every run guarantees --------------------------------------------------------------

  /** Once bound, a key stays bound to the same execution and fingerprint for the rest of the run. */
  lemma {:induction false} NeverRebound(calls: seq<Call>, run: seq<System>, i: nat, j: nat, key: StartKey)
    requires IsRun(calls, run) && i <= j < |run| && key in run[i].tables.bindings
    ensures key in run[j].tables.bindings && run[j].tables.bindings[key] == run[i].tables.bindings[key]
  {
    if i < j {
      NeverRebound(calls, run, i, j - 1, key);
      assert Next(calls, run[j - 1], run[j]);
      BindingsOnlyGrow(calls, run[j - 1], run[j]);
    }
  }

  ghost predicate BindingHasRows(t: Tables, k: StartKey) {
    k in t.bindings ==>
      && Address(k.tenant, t.bindings[k].execution) in t.snapshots
      && exists e :: e in t.outbox && e.previous.None? && e.tenant == k.tenant && e.execution == t.bindings[k].execution
  }

  ghost predicate Bound(t: Tables, tenant: nat, execution: Uuid) {
    exists k :: k in t.bindings && k.tenant == tenant && t.bindings[k].execution == execution
  }

  ghost predicate RowsAreBound(t: Tables) {
    && (forall a :: a in t.snapshots ==> Bound(t, a.owner, a.key))
    && (forall e :: e in t.outbox && e.previous.None? ==> multiset(t.outbox)[e] == 1 && Bound(t, e.tenant, e.execution))
  }

  /** No two bindings, and no two initial events, are about the same execution. */
  ghost predicate NoneTwice(t: Tables) {
    && OneKeyEach(t.bindings)
    && (forall e, f :: e in t.outbox && f in t.outbox && e.previous.None? && f.previous.None? && e.execution == f.execution ==>
          e == f)
  }

  /** Bindings, snapshot rows and initial events match one to one at every point of every run. */
  lemma OneToOne(calls: seq<Call>, run: seq<System>, i: nat)
    requires FreshCalls(calls) && GenuineCalls(calls) && IsRun(calls, run) && i < |run|
    ensures forall k :: BindingHasRows(run[i].tables, k)
    ensures RowsAreBound(run[i].tables) && NoneTwice(run[i].tables)
  {
    RunKeeps(calls, run, i);
    forall k ensures BindingHasRows(run[i].tables, k) {
      BoundHasRows(calls, run[i], k);
    }
    InvBindsRows(calls, run[i]);
    InvNoneTwice(calls, run[i]);
  }

  lemma BoundHasRows(calls: seq<Call>, s: System, k: StartKey)
    requires BindingsWon(calls, s) && SnapshotsWon(calls, s.winners, s.tables.snapshots)
    requires EventsWon(calls, s.winners, s.tables.outbox)
    ensures BindingHasRows(s.tables, k)
  {
    if k in s.tables.bindings {
      var w := s.winners[k];
      assert Won(calls, s.winners, w);
      assert RowAddress(calls[w]) in s.tables.snapshots;
      assert InitialEvent(calls[w]) in s.tables.outbox;
    }
  }

  lemma WinnerBinds(calls: seq<Call>, s: System, q: nat)
    requires BindingsWon(calls, s) && Won(calls, s.winners, q)
    ensures Bound(s.tables, calls[q].spec.scope.tenant, calls[q].spec.id)
  {
    assert KeyOf(calls[q].spec) in s.tables.bindings;
  }

  lemma InvBindsRows(calls: seq<Call>, s: System)
    requires BindingsWon(calls, s) && SnapshotsWon(calls, s.winners, s.tables.snapshots)
    requires EventsWon(calls, s.winners, s.tables.outbox)
    ensures RowsAreBound(s.tables)
  {
    var t := s.tables;
    forall a | a in t.snapshots ensures Bound(t, a.owner, a.key) {
      assert RowWon(calls, s.winners, t.snapshots, a);
      var q: nat :| Won(calls, s.winners, q) && RowOf(calls[q], a, t.snapshots[a]);
      WinnerBinds(calls, s, q);
    }
    forall e | e in t.outbox && e.previous.None? ensures multiset(t.outbox)[e] == 1 && Bound(t, e.tenant, e.execution) {
      assert EventWon(calls, s.winners, t.outbox, e);
      var q: nat :| Won(calls, s.winners, q) && e == InitialEvent(calls[q]);
      WinnerBinds(calls, s, q);
    }
  }

  lemma InvNoneTwice(calls: seq<Call>, s: System)
    requires FreshCalls(calls) && BindingsWon(calls, s) && EventsWon(calls, s.winners, s.tables.outbox)
    ensures NoneTwice(s.tables)
  {
    var t := s.tables;
    forall k, l | k in t.bindings && l in t.bindings && t.bindings[k].execution == t.bindings[l].execution ensures k == l {
      assert calls[s.winners[k]].spec.id == calls[s.winners[l]].spec.id;
    }
    forall e, f | e in t.outbox && f in t.outbox && e.previous.None? && f.previous.None? && e.execution == f.execution
      ensures e == f
    {
      assert EventWon(calls, s.winners, t.outbox, e) && EventWon(calls, s.winners, t.outbox, f);
      var p: nat :| Won(calls, s.winners, p) && e == InitialEvent(calls[p]);
      var q: nat :| Won(calls, s.winners, q) && f == InitialEvent(calls[q]);
      assert calls[p].spec.id == calls[q].spec.id;
    }
  }

  /** No call hits the retry limit or finds nothing to read back; an answer is the bound execution in the
      caller's scope; it carries the caller's own id (`created`) exactly when the call won its key. It is
      answered, rather than refused, exactly when it asks for what the call that won its key asked for. */
  lemma Answers(calls: seq<Call>, run: seq<System>, i: nat, p: nat)
    requires FreshCalls(calls) && GenuineCalls(calls) && IsRun(calls, run) && i < |run| && p < |calls| == |run[i].phases|
    ensures !run[i].phases[p].Exhausted? && !run[i].phases[p].NotFound?
    ensures run[i].phases[p].Answered? ==>
              var snap, key := run[i].phases[p].snapshot, KeyOf(calls[p].spec);
              && key in run[i].tables.bindings && snap.id == run[i].tables.bindings[key].execution
              && snap.scope == calls[p].spec.scope
              && (snap.id == calls[p].spec.id <==> key in run[i].winners && run[i].winners[key] == p)
    ensures run[i].phases[p].Answered? || run[i].phases[p].Conflict? ==>
              var key := KeyOf(calls[p].spec);
              && key in run[i].winners && run[i].winners[key] < |calls| && KeyOf(calls[run[i].winners[key]].spec) == key
              && (run[i].phases[p].Answered? <==> SameRequest(calls[run[i].winners[key]].spec, calls[p].spec))
  {
    var s := run[i];
    RunKeeps(calls, run, i);
    assert PhaseHolds(calls[p], s.tables.bindings, Won(calls, s.winners, p), s.phases[p]);
    if s.phases[p].Answered? || s.phases[p].Conflict? {
      var w := s.winners[KeyOf(calls[p].spec)];
      assert s.tables.bindings[KeyOf(calls[p].spec)] == CreatedBy(calls[w]);
      FingerprintDecides(calls[w].spec, calls[p].spec);
    }
  }

  // ----- The steps are what the database does -----------------------------------------------------

  ghost predicate OneKeyEach(bindings: Bindings) {
    forall k, l :: k in bindings && l in bindings && bindings[k].execution == bindings[l].execution ==> k == l
  }

  /** Loaded bindings whose executions are all different give back each row's fingerprint. */
  lemma LoadedFingerprint(bindings: Bindings, index: map<StartKey, Uuid>, fingerprints: map<Uuid, Component>, key: StartKey)
    requires LoadedBindings(bindings, index, fingerprints) && key in bindings
    requires OneKeyEach(bindings)
    ensures Lookup(fingerprints, index[key]) == Some(bindings[key].fingerprint)
  {
    var e := index[key];
    assert e in fingerprints;
    var k :| k in bindings && bindings[k] == Binding(e, fingerprints[e]);
  }

  lemma InsertIsStarted(t: Tables, call: Call)
    requires Genuine(call)
    ensures Started(t, call.spec, call.now, call.eventId) == Insert(t, call)
  {
  }

  /** The callback compares the fingerprint of the row it saw, and raises when they differ. */
  lemma CallbackVerdict(t1: Tables, before: State, call: Call)
    requires Genuine(call) && LoadedBindings(t1.bindings, before.index, before.fingerprints) && OneKeyEach(t1.bindings)
    ensures var step, seen := StartStep(call.spec, call.now, call.eventId, before), Lookup(t1.bindings, KeyOf(call.spec));
            step == Raise(IdempotencyConflict) <==> seen.Some? && !Alike(seen.value.fingerprint, call.fingerprint)
    ensures StartStep(call.spec, call.now, call.eventId, before).Raise? ==>
            StartStep(call.spec, call.now, call.eventId, before) == Raise(IdempotencyConflict)
  {
    if KeyOf(call.spec) in t1.bindings {
      LoadedFingerprint(t1.bindings, before.index, before.fingerprints, KeyOf(call.spec));
    }
  }

  /** What an attempt that loaded the bindings t1 and wrote to t3 makes of the tables. */
  ghost predicate Attempted(t1: Tables, t3: Tables, call: Call, result: Persistence, t': Tables) {
    var key := KeyOf(call.spec);
    && (key in t1.bindings ==> result == Persisted && t' == t3)
    && (key !in t1.bindings && key in t3.bindings ==> result == Raced && t' == t3)
    && (key !in t3.bindings ==> result == Persisted && t' == Insert(t3, call))
  }

  lemma AttemptInserts(t1: Tables, t2: Tables, t3: Tables, before: State, call: Call, step: Step, result: Persistence, t': Tables)
    requires Genuine(call) && LoadedBindings(t1.bindings, before.index, before.fingerprints)
    requires LoadedSnapshots(t2.snapshots, before.snapshots)
    requires Unused(t1, call.spec.id) && Unused(t2, call.spec.id) && Unused(t3, call.spec.id)
    requires KeyOf(call.spec) in t1.bindings ==> KeyOf(call.spec) in t3.bindings
    requires step == StartStep(call.spec, call.now, call.eventId, before) && step.Commit?
    requires Covers(before) && Covers(step.after) && Writes(t3, before, step.after, step.events, result, t')
    ensures Attempted(t1, t3, call, result, t')
  {
    AttemptOfStart(t1, t2, t3, before, call.spec, call.now, call.eventId, result, t');
    InsertIsStarted(t3, call);
  }

  lemma PhaseOfAttempt(t1: Tables, t3: Tables, call: Call, tries: nat, raised: bool, result: Persistence, t': Tables)
    requires KeyOf(call.spec) in t1.bindings ==> KeyOf(call.spec) in t3.bindings
    requires raised <==> KeyOf(call.spec) in t1.bindings && !Alike(t1.bindings[KeyOf(call.spec)].fingerprint, call.fingerprint)
    requires if raised then t' == t3 else Attempted(t1, t3, call, result, t')
    ensures var (t, phase) := AfterWrite(t3, call, tries, Lookup(t1.bindings, KeyOf(call.spec)));
            && t' == t && (raised <==> phase == Conflict)
            && (!raised ==> result != Refused && (phase == Written <==> result == Persisted))
  {
  }

  /** An attempt that loaded the bindings t1 and the snapshots t2 and wrote to t3 leaves the tables and the
      phase of `AfterWrite`: the callback raises exactly in the conflict case, and otherwise the attempt is
      persisted exactly when the phase becomes `Written`. */
  lemma AttemptIsWrite(t1: Tables, t2: Tables, t3: Tables, before: State, call: Call, tries: nat, step: Step,
                       result: Persistence, t': Tables)
    requires Genuine(call) && LoadedBindings(t1.bindings, before.index, before.fingerprints) && OneKeyEach(t1.bindings)
    requires LoadedSnapshots(t2.snapshots, before.snapshots)
    requires Unused(t1, call.spec.id) && Unused(t2, call.spec.id) && Unused(t3, call.spec.id)
    requires KeyOf(call.spec) in t1.bindings ==> KeyOf(call.spec) in t3.bindings
    requires step == StartStep(call.spec, call.now, call.eventId, before)
    requires if step.Raise? then t' == t3
             else Covers(before) && Covers(step.after) && Writes(t3, before, step.after, step.events, result, t')
    ensures var (t, phase) := AfterWrite(t3, call, tries, Lookup(t1.bindings, KeyOf(call.spec)));
            && t' == t && (step.Raise? <==> phase == Conflict)
            && (step.Commit? ==> result != Refused && (phase == Written <==> result == Persisted))
  {
    CallbackVerdict(t1, before, call);
    if step.Commit? {
      AttemptInserts(t1, t2, t3, before, call, step, result, t');
    }
    PhaseOfAttempt(t1, t3, call, tries, step.Raise?, result, t');
  }

  lemma SameIndexSameBindings(before: State, after: State)
    requires Covers(before) && after.index == before.index && after.fingerprints == before.fingerprints
    ensures Covers(after) && BindingsOf(after) == BindingsOf(before)
  {
  }

  /** A cancellation that loaded `before` from earlier rows and commits: nothing at all, or one row
      rewritten within its scope and follow-up events, as `Cancel` says. */
  lemma CancelIsStep(t: Tables, before: State, scope: Scope, id: Uuid, now: DateTime, eventIds: seq<nat>,
                     result: Persistence, t': Tables)
    requires |eventIds| >= 2 && Keyed(before) && Covers(before)
    requires var step := CancelStep(scope, id, now, eventIds, before);
             step.Commit? && Covers(step.after) && Writes(t, before, step.after, step.events, result, t')
    requires var a := Address(scope.tenant, id);
             a in t.snapshots && t.snapshots[a].id == id && t.snapshots[a].scope == scope
    ensures result == Persisted
    ensures t' == t || exists snap, events :: Cancel(System(t, [], map[]), System(t', [], map[]), Address(scope.tenant, id), snap, events)
  {
    var step := CancelStep(scope, id, now, eventIds, before);
    CancelCommits(scope, id, now, eventIds, before);
    var s := before.snapshots[id];
    var ts := CancelTransitions(s, now).value;
    CancelIsChain(s, now);
    LastKeepsId(s, ts);
    CancelWrites(t, before, s, Last(s, ts), step.after, step.events, result, t');
    if ts != [] {
      assert Cancel(System(t, [], map[]), System(t', [], map[]), Address(scope.tenant, id), Last(s, ts), step.events);
    }
  }

  lemma CancelWrites(t: Tables, before: State, s: Snapshot, last: Snapshot, after: State, events: seq<Event>, result: Persistence, t': Tables)
    requires Covers(before) && Covers(after) && s.id in before.snapshots && before.snapshots[s.id] == s
    requires last.id == s.id && last.scope == s.scope && (last == s ==> events == [])
    requires after == CommitSnapshot(before, last) && Writes(t, before, after, events, result, t')
    requires Address(s.scope.tenant, s.id) in t.snapshots
    ensures result == Persisted
    ensures last == s ==> t' == t
    ensures last != s ==> t' == t.(snapshots := t.snapshots[Address(s.scope.tenant, s.id) := last], outbox := t.outbox + events)
  {
    SameIndexSameBindings(before, after);
    NoDiff(t.bindings, BindingsOf(before));
    SnapshotsWritten(t, before, s, last, after);
    WritesAll(t, before, after, events, result, t');
  }

  lemma SnapshotsWritten(t: Tables, before: State, s: Snapshot, last: Snapshot, after: State)
    requires s.id in before.snapshots && before.snapshots[s.id] == s && last.id == s.id && last.scope == s.scope
    requires after == CommitSnapshot(before, last) && Address(s.scope.tenant, s.id) in t.snapshots
    ensures !OwnedMeetsRow(t.snapshots, OwnedOf(before), OwnedOf(after))
    ensures DiffOwned(t.snapshots, OwnedOf(before), OwnedOf(after)) ==
            if last == s then t.snapshots else t.snapshots[Address(s.scope.tenant, s.id) := last]
  {
    if last == s {
      SameSnapshots(before, s);
      NoDiffOwned(t.snapshots, OwnedOf(before));
    } else {
      OneRowRewritten(t, before, s, last, after);
    }
  }

  lemma SameSnapshots(before: State, s: Snapshot)
    requires s.id in before.snapshots && before.snapshots[s.id] == s
    ensures CommitSnapshot(before, s).snapshots == before.snapshots && OwnedOf(CommitSnapshot(before, s)) == OwnedOf(before)
  {
    assert before.snapshots[s.id := s] == before.snapshots;
  }

  lemma WritesAll(t: Tables, before: State, after: State, events: seq<Event>, result: Persistence, t': Tables)
    requires Covers(before) && Covers(after) && Writes(t, before, after, events, result, t')
    requires !MeetsRow(t.bindings, BindingsOf(before), BindingsOf(after))
    requires !OwnedMeetsRow(t.snapshots, OwnedOf(before), OwnedOf(after))
    ensures result == Persisted
    ensures t' == Tables(Diff(t.bindings, BindingsOf(before), BindingsOf(after)),
                         DiffOwned(t.snapshots, OwnedOf(before), OwnedOf(after)), t.outbox + events)
  {
  }

  lemma OneRowRewritten(t: Tables, before: State, s: Snapshot, last: Snapshot, after: State)
    requires s.id in before.snapshots && before.snapshots[s.id] == s && last.id == s.id && last.scope == s.scope && last != s
    requires after == CommitSnapshot(before, last) && Address(s.scope.tenant, s.id) in t.snapshots
    ensures !OwnedMeetsRow(t.snapshots, OwnedOf(before), OwnedOf(after))
    ensures DiffOwned(t.snapshots, OwnedOf(before), OwnedOf(after)) == t.snapshots[Address(s.scope.tenant, s.id) := last]
  {
    StartOwned(before, after, last);
    ChangeOneOwned(t.snapshots, OwnedOf(before), s.id, Owned(last.scope.tenant, last));
  }
}
