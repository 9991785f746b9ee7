/** The in-process orchestrator: starts and cancellations serialised by one lock, and the log of
    status-changed events they emit. */
module ExecutionLog {
  import opened Kernel
  import opened Text
  import opened RuntimeModel
  import opened SnapshotCodec
  import opened Orchestrator

  /** Committed state, every event emitted so far, and the outbox the committed state carries. */
  datatype Ledger = Ledger(state: State, emitted: seq<Event>, outbox: seq<Event>)

  function Empty(): Ledger {
    Ledger(State(map[], map[], map[]), [], [])
  }

  /** `start` rebuilds the state without its outbox unless it is a replay. */
  function AfterStart(l: Ledger, spec: Spec, now: DateTime, eventId: nat): Ledger {
    match StartStep(spec, now, eventId, l.state)
    case Raise(_) => l
    case Commit(after, events) =>
      Ledger(after, l.emitted + events, (if KeyOf(spec) in l.state.index then l.outbox else []) + events)
  }

  function AfterCancel(l: Ledger, scope: Scope, id: Uuid, now: DateTime, eventIds: seq<nat>): Ledger
    requires |eventIds| >= 2
  {
    match CancelStep(scope, id, now, eventIds, l.state)
    case Raise(_) => l
    case Commit(after, events) => Ledger(after, l.emitted + events, l.outbox + events)
  }

  // ----- The log of one execution -----------------------------------------------------------

  function LogOf(events: seq<Event>, id: Uuid): (log: seq<Event>)
    ensures forall e :: e in log ==> e.execution == id && e in events
  {
    if events == [] then []
    else
      var rest := LogOf(events[..|events| - 1], id);
      if events[|events| - 1].execution == id then rest + [events[|events| - 1]] else rest
  }

  datatype Position = Position(status: Status, revision: int, at: DateTime)

  function PositionOf(s: Snapshot): Position {
    Position(s.status, s.revision, s.updatedAt)
  }

  /** Replaying a log: the first event opens a pending execution at revision 1, every later one makes a
      legal move from the status reached so far and raises the revision by one. */
  function Replay(log: seq<Event>): (p: Option<Position>) {
    if log == [] then None
    else
      var e := log[|log| - 1];
      if |log| == 1 then
        if e.previous.None? && e.status == Pending && e.revision == 1 then Some(Position(Pending, 1, e.occurredAt)) else None
      else
        match Replay(log[..|log| - 1])
        case None => None
        case Some(p) =>
          if e.previous == Some(p.status) && CanTransition(p.status, e.status) && e.revision == p.revision + 1
          then Some(Position(e.status, e.revision, e.occurredAt)) else None
  }

  lemma ReplaySnoc(log: seq<Event>, e: Event)
    ensures Replay(log + [e]) ==
            if log == [] then
              if e.previous.None? && e.status == Pending && e.revision == 1 then Some(Position(Pending, 1, e.occurredAt)) else None
            else
              var p := Replay(log);
              if p.Some? && e.previous == Some(p.value.status) && CanTransition(p.value.status, e.status)
                 && e.revision == p.value.revision + 1
              then Some(Position(e.status, e.revision, e.occurredAt)) else None
  {
    var longer := log + [e];
    assert longer[..|longer| - 1] == log && longer[|longer| - 1] == e;
  }

  /** A log replays exactly when it opens pending at revision 1 and each event leaves the status of the
      event before it, legally, at the next revision. */
  lemma {:induction false} ReplayIsChain(log: seq<Event>)
    requires log != []
    ensures Replay(log).Some? <==>
              && log[0].previous == None && log[0].status == Pending
              && (forall i :: 0 <= i < |log| ==> log[i].revision == i + 1)
              && forall i :: 0 < i < |log| ==> log[i].previous == Some(log[i - 1].status) && CanTransition(log[i - 1].status, log[i].status)
    ensures Replay(log).Some? ==> Replay(log).value == Position(log[|log| - 1].status, |log|, log[|log| - 1].occurredAt)
  {
    if |log| > 1 {
      var before := log[..|log| - 1];
      ReplayIsChain(before);
      if Replay(log).Some? {
        forall i | 0 <= i < |log| ensures log[i].revision == i + 1 {
          assert i < |before| ==> before[i].revision == i + 1;
        }
        forall i | 0 < i < |log|
          ensures log[i].previous == Some(log[i - 1].status) && CanTransition(log[i - 1].status, log[i].status)
        {
          if i < |before| {
            assert before[i].previous == Some(before[i - 1].status);
          }
        }
      } else if Replay(before).Some? {
        assert log[|log| - 1 - 1] == before[|before| - 1];
      } else {
        assert before[0] == log[0];
      }
    }
  }

  lemma {:induction false} LogOfAppend(a: seq<Event>, b: seq<Event>, id: Uuid)
    ensures LogOf(a + b, id) == LogOf(a, id) + LogOf(b, id)
  {
    if b == [] {
      assert a + b == a;
    } else {
      LogOfAppend(a, b[..|b| - 1], id);
      assert (a + b)[..|a + b| - 1] == a + b[..|b| - 1];
    }
  }

  // ----- What every run keeps -----------------------------------------------------------------

  /** The events of an execution replay to exactly its stored status, revision and time. */
  ghost predicate LogMatches(l: Ledger, id: Uuid) {
    if id in l.state.snapshots then l.state.snapshots[id].id == id && Tells(LogOf(l.emitted, id), l.state.snapshots[id])
    else LogOf(l.emitted, id) == []
  }

  ghost predicate Tells(log: seq<Event>, s: Snapshot) {
    Replay(log) == Some(PositionOf(s)) && forall e :: e in log ==> e.tenant == s.scope.tenant
  }

  /** A bound key leads to a stored execution with the scope of the request whose fingerprint is kept. */
  ghost predicate BindingHolds(state: State, k: StartKey) {
    k in state.index ==>
      && state.index[k] in state.snapshots && state.index[k] in state.fingerprints
      && exists spec :: KeyOf(spec) == k && Remembers(state, spec, state.index[k])
  }

  ghost predicate Remembers(state: State, spec: Spec, id: Uuid) {
    && id in state.snapshots && id in state.fingerprints
    && state.fingerprints[id] == Fingerprint(spec) && state.snapshots[id].scope == spec.scope
  }

  ghost predicate Consistent(l: Ledger) {
    && (forall id :: LogMatches(l, id))
    && (forall k :: BindingHolds(l.state, k))
    && (exists older :: l.emitted == older + l.outbox)
  }

  ghost predicate FreshId(l: Ledger, id: Uuid) {
    id !in l.state.snapshots
  }

  lemma StartKeeps(l: Ledger, spec: Spec, now: DateTime, eventId: nat)
    requires Consistent(l) && FreshId(l, spec.id)
    ensures Consistent(AfterStart(l, spec, now, eventId))
  {
    if KeyOf(spec) !in l.state.index {
      var l' := AfterStart(l, spec, now, eventId);
      var s := InitialSnapshot(spec, now);
      var e := StatusChanged(eventId, None, s);
      forall id ensures LogMatches(l', id) {
        assert LogMatches(l, id);
        LogOfAppend(l.emitted, [e], id);
        OneEvent(e, s, id);
      }
      forall k ensures BindingHolds(l'.state, k) {
        assert BindingHolds(l.state, k);
        NewBinding(l.state, l'.state, spec, now, k);
      }
      assert l'.emitted == l.emitted + l'.outbox;
    } else {
      assert l.emitted + [] == l.emitted && l.outbox + [] == l.outbox;
    }
  }

  lemma OneEvent(e: Event, s: Snapshot, id: Uuid)
    requires e.execution == s.id
    ensures LogOf([e], id) == if s.id == id then [e] else []
    ensures (e.previous == None && e.status == s.status == Pending && e.revision == s.revision == 1
             && e.tenant == s.scope.tenant && e.occurredAt == s.updatedAt) ==> Tells([] + [e], s)
    ensures LogOf([], id) + [] == []
  {
    assert LogOf([], id) == [];
    assert [] + [e] == [e];
    ReplaySnoc([], e);
  }

  lemma NewBinding(state: State, state': State, spec: Spec, now: DateTime, k: StartKey)
    requires BindingHolds(state, k) && spec.id !in state.snapshots
    requires state' == State(state.snapshots[spec.id := InitialSnapshot(spec, now)], state.index[KeyOf(spec) := spec.id],
                             state.fingerprints[spec.id := Fingerprint(spec)])
    ensures BindingHolds(state', k)
  {
    if k == KeyOf(spec) {
      assert Remembers(state', spec, spec.id);
    } else if k in state.index {
      var other :| KeyOf(other) == k && Remembers(state, other, state.index[k]);
      assert Remembers(state', other, state'.index[k]);
    }
  }

  lemma KeysAreIds(l: Ledger)
    requires Consistent(l)
    ensures Keyed(l.state)
  {
    forall e | e in l.state.snapshots ensures l.state.snapshots[e].id == e {
      assert LogMatches(l, e);
    }
  }

  lemma CancelKeeps(l: Ledger, scope: Scope, id: Uuid, now: DateTime, eventIds: seq<nat>)
    requires Consistent(l) && |eventIds| >= 2
    ensures Consistent(AfterCancel(l, scope, id, now, eventIds))
  {
    var step := CancelStep(scope, id, now, eventIds, l.state);
    if step.Commit? {
      KeysAreIds(l);
      CancelCommits(scope, id, now, eventIds, l.state);
      var s := l.state.snapshots[id];
      var ts := CancelTransitions(s, now).value;
      CancelIsChain(s, now);
      LastKeepsId(s, ts);
      var l' := AfterCancel(l, scope, id, now, eventIds);
      forall other ensures LogMatches(l', other) {
        assert LogMatches(l, other);
        MovesMatch(l, l', s, ts, eventIds, step.events, other);
      }
      forall k ensures BindingHolds(l'.state, k) {
        assert BindingHolds(l.state, k);
        CommitKeepsBinding(l.state, s, Last(s, ts), k);
      }
      var older :| l.emitted == older + l.outbox;
      assert l'.emitted == older + l'.outbox;
    }
  }

  lemma MovesMatch(l: Ledger, l': Ledger, s: Snapshot, ts: seq<Transition>, eventIds: seq<nat>, events: seq<Event>, other: Uuid)
    requires LogMatches(l, other) && s.id in l.state.snapshots && l.state.snapshots[s.id] == s
    requires Chained(s, ts) && |events| == |ts| <= |eventIds|
    requires forall i :: 0 <= i < |events| ==> events[i] == StatusChanged(eventIds[i], Some(ts[i].previous), ts[i].next)
    requires l'.state == CommitSnapshot(l.state, Last(s, ts)) && l'.emitted == l.emitted + events
    ensures LogMatches(l', other)
  {
    LogOfAppend(l.emitted, events, other);
    MovesAreOf(s, ts, eventIds, events);
    LastKeepsId(s, ts);
    if other == s.id {
      AllOf(events, s.id);
      MovesReplay(LogOf(l.emitted, s.id), s, ts, eventIds, events);
      assert Tells(LogOf(l'.emitted, s.id), Last(s, ts));
    } else {
      NoneOf(events, other);
      assert LogOf(l'.emitted, other) == LogOf(l.emitted, other);
    }
  }

  lemma CommitKeepsBinding(state: State, s: Snapshot, last: Snapshot, k: StartKey)
    requires BindingHolds(state, k) && s.id in state.snapshots && state.snapshots[s.id] == s
    requires last.id == s.id && last.scope == s.scope
    ensures BindingHolds(CommitSnapshot(state, last), k)
  {
    if k in state.index {
      var spec :| KeyOf(spec) == k && Remembers(state, spec, state.index[k]);
      assert Remembers(CommitSnapshot(state, last), spec, state.index[k]);
    }
  }

  lemma {:induction false} MovesAreOf(s: Snapshot, ts: seq<Transition>, eventIds: seq<nat>, events: seq<Event>)
    requires Chained(s, ts) && |events| == |ts| <= |eventIds|
    requires forall i :: 0 <= i < |events| ==> events[i] == StatusChanged(eventIds[i], Some(ts[i].previous), ts[i].next)
    ensures forall e :: e in events ==> e.execution == s.id && e.tenant == s.scope.tenant
    decreases |ts|
  {
    if ts != [] {
      MovesAreOf(ts[0].next, ts[1..], eventIds[1..], events[1..]);
      assert events == [events[0]] + events[1..];
    }
  }

  lemma {:induction false} AllOf(events: seq<Event>, id: Uuid)
    requires forall e :: e in events ==> e.execution == id
    ensures LogOf(events, id) == events
  {
    if events != [] {
      AllOf(events[..|events| - 1], id);
    }
  }

  lemma {:induction false} NoneOf(events: seq<Event>, id: Uuid)
    requires forall e :: e in events ==> e.execution != id
    ensures LogOf(events, id) == []
  {
    if events != [] {
      NoneOf(events[..|events| - 1], id);
    }
  }

  /** Appending the events of a chain of legal moves to a log that replays gives one that replays. */
  lemma {:induction false} MovesReplay(log: seq<Event>, s: Snapshot, ts: seq<Transition>, eventIds: seq<nat>, events: seq<Event>)
    requires Chained(s, ts) && |events| == |ts| <= |eventIds|
    requires forall i :: 0 <= i < |events| ==> events[i] == StatusChanged(eventIds[i], Some(ts[i].previous), ts[i].next)
    requires Replay(log) == Some(PositionOf(s))
    ensures Replay(log + events) == Some(PositionOf(Last(s, ts)))
    decreases |ts|
  {
    if ts == [] {
      assert log + events == log;
    } else {
      var next := ts[0].next;
      assert events[0] == StatusChanged(eventIds[0], Some(s.status), next);
      ReplaySnoc(log, events[0]);
      assert Replay(log + [events[0]]) == Some(PositionOf(next));
      MovesReplay(log + [events[0]], ts[0].next, ts[1..], eventIds[1..], events[1..]);
      assert log + [events[0]] + events[1..] == log + events;
    }
  }

  // ----- Every run ----------------------------------------------------------------------------

  datatype Command =
    | DoStart(spec: Spec, now: DateTime, eventId: nat)
    | DoCancel(scope: Scope, id: Uuid, now: DateTime, firstEvent: nat, secondEvent: nat)

  function After(l: Ledger, c: Command): Ledger {
    match c
    case DoStart(spec, now, eventId) => AfterStart(l, spec, now, eventId)
    case DoCancel(scope, id, now, e1, e2) => AfterCancel(l, scope, id, now, [e1, e2])
  }

  function AfterAll(commands: seq<Command>): Ledger {
    if commands == [] then Empty() else After(AfterAll(commands[..|commands| - 1]), commands[|commands| - 1])
  }

  /** Every start generates an id no stored execution has. */
  ghost predicate FreshStarts(commands: seq<Command>) {
    forall i :: 0 <= i < |commands| && commands[i].DoStart? ==> FreshId(AfterAll(commands[..i]), commands[i].spec.id)
  }

  /** After any sequence of starts and cancellations, conflicting, replayed and refused ones included,
      every execution's log replays to its stored status and revision. */
  lemma {:induction false} EveryRunIsConsistent(commands: seq<Command>)
    requires FreshStarts(commands)
    ensures Consistent(AfterAll(commands))
  {
    if commands == [] {
      assert Empty().emitted == [] + Empty().outbox;
    } else {
      var before, last := commands[..|commands| - 1], commands[|commands| - 1];
      assert forall i :: 0 <= i < |before| ==> before[..i] == commands[..i];
      EveryRunIsConsistent(before);
      match last
      case DoStart(spec, now, eventId) => StartKeeps(AfterAll(before), spec, now, eventId);
      case DoCancel(scope, id, now, e1, e2) => CancelKeeps(AfterAll(before), scope, id, now, [e1, e2]);
    }
  }

  /** The outbox committed by a start still begins with what it held before exactly when the start was
      refused, was a replay, or had nothing to lose. */
  lemma OutboxForgets(l: Ledger, spec: Spec, now: DateTime, eventId: nat)
    requires forall e :: e in l.outbox ==> e.eventId != eventId
    ensures l.outbox <= AfterStart(l, spec, now, eventId).outbox <==> KeyOf(spec) in l.state.index || l.outbox == []
  {
    if KeyOf(spec) !in l.state.index && l.outbox != [] {
      assert l.outbox[0] in l.outbox;
    }
  }

  /** Two starts in a row under different keys: both events were emitted, only the second is in the outbox. */
  lemma SecondStartForgets(first: Spec, second: Spec, now: DateTime, a: nat, b: nat)
    requires KeyOf(first) != KeyOf(second) && first.id != second.id
    ensures var commands := [DoStart(first, now, a), DoStart(second, now, b)];
            && FreshStarts(commands)
            && AfterAll(commands).emitted == [StatusChanged(a, None, InitialSnapshot(first, now)), StatusChanged(b, None, InitialSnapshot(second, now))]
            && AfterAll(commands).outbox == [StatusChanged(b, None, InitialSnapshot(second, now))]
  {
    var commands := [DoStart(first, now, a), DoStart(second, now, b)];
    assert commands[..0] == [] && commands[..1] == [commands[0]] && commands[..1][..0] == [];
    assert AfterAll(commands[..1]) == After(Empty(), commands[0]);
    assert AfterAll(commands) == After(AfterAll(commands[..1]), commands[1]);
  }

  const SOME_DAY := DateTime(2024, 1, 1, 0, 0, 0, 0, 0)
  const SOME_SPEC := Spec(1, Scope(1, 1, None, None), 1, 1, None, 1, 1, 1, SOME_DAY, "a")

  /** One such pair: the starts of keys `a` and `b`. */
  lemma TwoStartsForget()
    ensures var l := AfterAll([DoStart(SOME_SPEC, SOME_DAY, 1), DoStart(SOME_SPEC.(id := 2, key := "b"), SOME_DAY, 2)]);
            |l.emitted| == 2 && l.emitted[0].eventId == 1 && l.emitted[0] !in l.outbox
  {
    SecondStartForgets(SOME_SPEC, SOME_SPEC.(id := 2, key := "b"), SOME_DAY, 1, 2);
  }

  /** A start that is not refused finds its execution, in its own scope, when it reads it back. */
  lemma StartFinds(l: Ledger, spec: Spec, now: DateTime, eventId: nat)
    requires Consistent(l) && StartStep(spec, now, eventId, l.state).Commit?
    ensures var after := AfterStart(l, spec, now, eventId).state;
            && KeyOf(spec) in after.index && SnapshotForScope(after, spec.scope, after.index[KeyOf(spec)]).Ok?
  {
    var k := KeyOf(spec);
    if k in l.state.index {
      assert BindingHolds(l.state, k);
      var other :| KeyOf(other) == k && Remembers(l.state, other, l.state.index[k]);
      FingerprintDecides(other, spec);
    }
  }

  /** Publishing and committing the transitions of a cancellation, one by one. */
  method Emit(state: State, transitions: seq<Transition>, eventIds: seq<nat>) returns (committed: State, buffer: seq<Event>)
    requires |eventIds| >= |transitions|
    ensures ApplyTransitions(state, transitions, eventIds) == (committed, buffer)
  {
    committed, buffer := state, [];
    ghost var whole := ApplyTransitions(state, transitions, eventIds);
    for i := 0 to |transitions|
      invariant var rest := ApplyTransitions(committed, transitions[i..], eventIds[i..]);
                whole.0 == rest.0 && whole.1 == buffer + rest.1
    {
      Prefixes(transitions, i);
      Prefixes(eventIds, i);
      buffer := buffer + [StatusChanged(eventIds[i], Some(transitions[i].previous), transitions[i].next)];
      committed := CommitSnapshot(committed, transitions[i].next);
    }
    assert transitions[|transitions|..] == [];
    assert buffer + [] == buffer;
  }

  /** The orchestrator over its in-memory database. Each method body runs under the database lock. */
  class InMemoryOrchestrator {
    var state: State
    var outbox: seq<Event>
    ghost var emitted: seq<Event>

    constructor ()
      ensures Contents() == Empty()
    {
      state, outbox, emitted := State(map[], map[], map[]), [], [];
    }

    ghost function Contents(): Ledger
      reads this
    {
      Ledger(state, emitted, outbox)
    }

    method Start(spec: Spec, now: DateTime, eventId: nat) returns (r: Result<Snapshot, RuntimeError>)
      requires Consistent(Contents()) && FreshId(Contents(), spec.id)
      modifies this
      ensures Consistent(Contents()) && Contents() == AfterStart(old(Contents()), spec, now, eventId)
      ensures match StartStep(spec, now, eventId, old(state))
              case Raise(e) => r == Err(e)
              case Commit(_, _) => r.Ok? && r.value.scope == spec.scope && KeyOf(spec) in state.index
                                   && r.value.id == state.index[KeyOf(spec)] && Lookup(state.snapshots, r.value.id) == Some(r.value)
      ensures StartVerdict(old(state), spec, now, eventId, r.Err?, state, emitted[|old(emitted)|..])
      ensures emitted == old(emitted) + emitted[|old(emitted)|..] && (r.Err? ==> r.error == IdempotencyConflict)
    {
      ghost var before := Contents();
      StartKeeps(before, spec, now, eventId);
      StartDecides(spec, now, eventId, state);
      if KeyOf(spec) in state.index {
        var existing := state.index[KeyOf(spec)];
        if !Matches(Lookup(state.fingerprints, existing), Fingerprint(spec)) {
          return Err(IdempotencyConflict);
        }
      } else {
        var s := InitialSnapshot(spec, now);
        outbox := [StatusChanged(eventId, None, s)];
        state := State(state.snapshots[spec.id := s], state.index[KeyOf(spec) := spec.id],
                       state.fingerprints[spec.id := Fingerprint(spec)]);
        emitted := emitted + [StatusChanged(eventId, None, s)];
      }
      assert Contents() == AfterStart(before, spec, now, eventId);
      StartFinds(before, spec, now, eventId);
      r := SnapshotForScope(state, spec.scope, state.index[KeyOf(spec)]);
      assert LogMatches(Contents(), state.index[KeyOf(spec)]);
    }

    method Cancel(scope: Scope, id: Uuid, now: DateTime, eventIds: seq<nat>) returns (r: Result<Snapshot, RuntimeError>)
      requires Consistent(Contents()) && |eventIds| >= 2
      modifies this
      ensures Consistent(Contents()) && Contents() == AfterCancel(old(Contents()), scope, id, now, eventIds)
      ensures match CancelStep(scope, id, now, eventIds, old(state))
              case Raise(e) => r == Err(e)
              case Commit(_, _) => r.Ok? && id in state.snapshots && r.value == state.snapshots[id]
                                   && r.value.status in {Cancelled, Failed}
      ensures CancelVerdict(old(state), scope, id, now, eventIds, r, state, emitted[|old(emitted)|..])
      ensures emitted == old(emitted) + emitted[|old(emitted)|..] && outbox == old(outbox) + emitted[|old(emitted)|..]
    {
      ghost var before := Contents();
      CancelKeeps(before, scope, id, now, eventIds);
      KeysAreIds(before);
      CancelDecides(scope, id, now, eventIds, state);
      var found := SnapshotForScope(state, scope, id);
      if found.Err? {
        return Err(found.error);
      }
      var moves := CancelTransitions(found.value, now);
      if moves.Err? {
        return Err(moves.error);
      }
      var transitions := moves.value;
      CancelIsChain(found.value, now);
      var committed, buffer := Emit(state, transitions, eventIds);
      state, outbox := committed, outbox + buffer;
      emitted := emitted + buffer;
      CancelReads(before, scope, id, now, eventIds);
      r := SnapshotForScope(state, scope, id);
    }
  }

  lemma CancelReads(l: Ledger, scope: Scope, id: Uuid, now: DateTime, eventIds: seq<nat>)
    requires Consistent(l) && |eventIds| >= 2 && CancelStep(scope, id, now, eventIds, l.state).Commit?
    ensures var after := CancelStep(scope, id, now, eventIds, l.state).after;
            && id in after.snapshots && SnapshotForScope(after, scope, id) == Ok(after.snapshots[id])
            && after.snapshots[id].status in {Cancelled, Failed}
  {
    KeysAreIds(l);
    CancelCommits(scope, id, now, eventIds, l.state);
    var s := l.state.snapshots[id];
    CancelIsChain(s, now);
    LastKeepsId(s, CancelTransitions(s, now).value);
  }
}
