/** The state the runtime commits and what starting and cancelling an execution do to it. */
module Orchestrator {
  import opened Kernel
  import opened Text
  import opened RuntimeModel
  import opened SnapshotCodec

  datatype StartKey = StartKey(tenant: Uuid, key: string)

  /** Committed executions, start bindings, and the fingerprint of each bound execution's request. */
  datatype State = State(snapshots: map<Uuid, Snapshot>, index: map<StartKey, Uuid>, fingerprints: map<Uuid, Component>)

  datatype RuntimeError = IdempotencyConflict | ExecutionNotFound | InvalidTransition | UniqueViolation | RetryLimit

  /** What a write callback does: a new state and the events to publish with it, or an exception. */
  datatype Step = Commit(after: State, events: seq<Event>) | Raise(error: RuntimeError)

  function KeyOf(spec: Spec): StartKey {
    StartKey(spec.scope.tenant, spec.key)
  }

  function InitialSnapshot(spec: Spec, now: DateTime): Snapshot {
    Snapshot(spec.id, spec.scope, 1, Pending, None, map[], None, None, None, now)
  }

  function Lookup<K, V>(m: map<K, V>, k: K): Option<V> {
    if k in m then Some(m[k]) else None
  }

  /** A stored fingerprint is there and compares equal. */
  predicate Matches(stored: Option<Component>, requested: Component) {
    stored.Some? && Alike(stored.value, requested)
  }

  /** The callback `start` hands to the database. */
  function StartStep(spec: Spec, now: DateTime, eventId: nat, state: State): Step {
    if KeyOf(spec) in state.index then
      if !Matches(Lookup(state.fingerprints, state.index[KeyOf(spec)]), Fingerprint(spec)) then Raise(IdempotencyConflict)
      else Commit(state, [])
    else
      var s := InitialSnapshot(spec, now);
      Commit(State(state.snapshots[spec.id := s], state.index[KeyOf(spec) := spec.id],
                   state.fingerprints[spec.id := Fingerprint(spec)]),
             [StatusChanged(eventId, None, s)])
  }

  function SnapshotForScope(state: State, scope: Scope, id: Uuid): (r: Result<Snapshot, RuntimeError>) {
    if id in state.snapshots && state.snapshots[id].scope == scope then Ok(state.snapshots[id])
    else Err(ExecutionNotFound)
  }

  /** A transition to publish: the status it leaves and the snapshot it reaches. */
  datatype Transition = Transition(previous: Status, next: Snapshot)

  function Moved(s: Snapshot, status: Status, now: DateTime): Snapshot {
    s.(status := status, revision := s.revision + 1, updatedAt := now)
  }

  /** The transitions that cancel `s`, or why it cannot be cancelled. */
  function CancelTransitions(s: Snapshot, now: DateTime): (r: Result<seq<Transition>, RuntimeError>)
    ensures r.Ok? <==> s.status in {Failed, Cancelled, Cancelling} || CanTransition(s.status, Cancelling)
  {
    if s.status == Cancelled || s.status == Failed then Ok([])
    else if s.status == Succeeded then Err(InvalidTransition)
    else if s.status == Cancelling then
      if !CanTransition(Cancelling, Cancelled) then Err(InvalidTransition)
      else Ok([Transition(Cancelling, Moved(s, Cancelled, now))])
    else if !CanTransition(s.status, Cancelling) then Err(InvalidTransition)
    else
      var cancelling := Moved(s, Cancelling, now);
      if !CanTransition(Cancelling, Cancelled) then Err(InvalidTransition)
      else Ok([Transition(s.status, cancelling), Transition(Cancelling, Moved(cancelling, Cancelled, now))])
  }

  function CommitSnapshot(state: State, s: Snapshot): State {
    state.(snapshots := state.snapshots[s.id := s])
  }

  /** Publishing and committing transitions one after another; the event ids come from `eventIds`. */
  function ApplyTransitions(state: State, transitions: seq<Transition>, eventIds: seq<nat>): (r: (State, seq<Event>))
    requires |eventIds| >= |transitions|
    decreases |transitions|
  {
    if transitions == [] then (state, [])
    else
      var t := transitions[0];
      var (rest, events) := ApplyTransitions(CommitSnapshot(state, t.next), transitions[1..], eventIds[1..]);
      (rest, [StatusChanged(eventIds[0], Some(t.previous), t.next)] + events)
  }

  /** The callback `cancel` hands to the database. */
  function CancelStep(scope: Scope, id: Uuid, now: DateTime, eventIds: seq<nat>, state: State): Step
    requires |eventIds| >= 2
  {
    match SnapshotForScope(state, scope, id)
    case Err(e) => Raise(e)
    case Ok(s) =>
      match CancelTransitions(s, now)
      case Err(e) => Raise(e)
      case Ok(transitions) =>
        var (after, events) := ApplyTransitions(state, transitions, eventIds);
        Commit(after, events)
  }

  ghost predicate Keyed(state: State) {
    forall e :: e in state.snapshots ==> state.snapshots[e].id == e
  }

  /** The log of moving from one snapshot to another through `transitions`. */
  predicate Chained(s: Snapshot, transitions: seq<Transition>)
    decreases |transitions|
  {
    transitions == [] ||
    (var t := transitions[0];
     && t.previous == s.status && CanTransition(s.status, t.next.status) && t.next == Moved(s, t.next.status, t.next.updatedAt)
     && Chained(t.next, transitions[1..]))
  }

  function Last(s: Snapshot, transitions: seq<Transition>): Snapshot {
    if transitions == [] then s else transitions[|transitions| - 1].next
  }

  /** Cancelling is a chain of legal moves of the execution it names that ends cancelled, or changes
      nothing because the execution already ended cancelled or failed. */
  lemma CancelIsChain(s: Snapshot, now: DateTime)
    requires CancelTransitions(s, now).Ok?
    ensures var ts := CancelTransitions(s, now).value;
            && Chained(s, ts) && |ts| <= 2
            && (ts == [] <==> s.status in {Cancelled, Failed})
            && (ts != [] ==> Last(s, ts) == s.(status := Cancelled, revision := s.revision + |ts|, updatedAt := now))
  {
    var ts := CancelTransitions(s, now).value;
    if |ts| == 2 {
      assert Chained(ts[0].next, ts[1..]) by {
        assert Chained(ts[1].next, ts[1..][1..]);
      }
    } else if |ts| == 1 {
      assert Chained(ts[0].next, ts[1..]);
    }
  }

  /** Applying a chain commits its last snapshot and publishes one event per move, each saying which
      status it leaves. */
  lemma {:induction false} ApplyChain(state: State, s: Snapshot, transitions: seq<Transition>, eventIds: seq<nat>)
    requires |eventIds| >= |transitions| && Chained(s, transitions) && s.id in state.snapshots && state.snapshots[s.id] == s
    ensures var (after, events) := ApplyTransitions(state, transitions, eventIds);
            && after == CommitSnapshot(state, Last(s, transitions))
            && |events| == |transitions|
            && forall i :: 0 <= i < |events| ==>
                 events[i] == StatusChanged(eventIds[i], Some(transitions[i].previous), transitions[i].next)
    decreases |transitions|
  {
    if transitions == [] {
      assert state.snapshots == state.snapshots[s.id := s];
    } else {
      var next := transitions[0].next;
      ApplyChain(CommitSnapshot(state, next), next, transitions[1..], eventIds[1..]);
      assert state.snapshots[next.id := next][Last(s, transitions).id := Last(s, transitions)]
             == state.snapshots[Last(s, transitions).id := Last(s, transitions)] by {
        LastKeepsId(s, transitions);
      }
    }
  }

  lemma {:induction false} LastKeepsId(s: Snapshot, transitions: seq<Transition>)
    requires Chained(s, transitions)
    ensures Last(s, transitions).id == s.id && Last(s, transitions).scope == s.scope
    ensures Last(s, transitions).revision == s.revision + |transitions|
    decreases |transitions|
  {
    if transitions != [] {
      LastKeepsId(transitions[0].next, transitions[1..]);
    }
  }

  /** The whole effect of a cancellation that commits. */
  lemma CancelCommits(scope: Scope, id: Uuid, now: DateTime, eventIds: seq<nat>, state: State)
    requires |eventIds| >= 2 && Keyed(state) && CancelStep(scope, id, now, eventIds, state).Commit?
    ensures id in state.snapshots && state.snapshots[id].scope == scope && CancelTransitions(state.snapshots[id], now).Ok?
    ensures var s := state.snapshots[id];
            var ts := CancelTransitions(s, now).value;
            var Commit(after, events) := CancelStep(scope, id, now, eventIds, state);
            && after == CommitSnapshot(state, Last(s, ts)) && |events| == |ts|
            && forall i :: 0 <= i < |events| ==> events[i] == StatusChanged(eventIds[i], Some(ts[i].previous), ts[i].next)
  {
    var s := state.snapshots[id];
    CancelIsChain(s, now);
    ApplyChain(state, s, CancelTransitions(s, now).value, eventIds);
  }

  // ----- What callers observe -------------------------------------------------------------------

  /** What a call to cancel answers, leaves and publishes, by what it finds stored. */
  ghost predicate CancelVerdict(before: State, scope: Scope, id: Uuid, now: DateTime, eventIds: seq<nat>,
                                answer: Result<Snapshot, RuntimeError>, after: State, events: seq<Event>)
    requires |eventIds| >= 2
  {
    if id !in before.snapshots || before.snapshots[id].scope != scope then
      answer == Err(ExecutionNotFound) && after == before && events == []
    else
      var s := before.snapshots[id];
      match s.status
      case Succeeded | Compensating => answer == Err(InvalidTransition) && after == before && events == []
      case Failed | Cancelled => answer == Ok(s) && after == before && events == []
      case Cancelling =>
        var end := s.(status := Cancelled, revision := s.revision + 1, updatedAt := now);
        && answer == Ok(end) && after == before.(snapshots := before.snapshots[id := end])
        && events == [Event(eventIds[0], scope.tenant, id, s.revision + 1, Some(Cancelling), Cancelled, now)]
      case Pending | Planning | Running | Waiting | Retrying =>
        var end := s.(status := Cancelled, revision := s.revision + 2, updatedAt := now);
        && answer == Ok(end) && after == before.(snapshots := before.snapshots[id := end])
        && events == [Event(eventIds[0], scope.tenant, id, s.revision + 1, Some(s.status), Cancelling, now),
                      Event(eventIds[1], scope.tenant, id, s.revision + 2, Some(Cancelling), Cancelled, now)]
  }

  /** The callback of a cancellation does exactly that, whatever is stored. */
  lemma CancelDecides(scope: Scope, id: Uuid, now: DateTime, eventIds: seq<nat>, state: State)
    requires |eventIds| >= 2 && Keyed(state)
    ensures match CancelStep(scope, id, now, eventIds, state)
            case Raise(error) => CancelVerdict(state, scope, id, now, eventIds, Err(error), state, [])
            case Commit(after, events) =>
              CancelVerdict(state, scope, id, now, eventIds, SnapshotForScope(after, scope, id), after, events)
  {
    if CancelStep(scope, id, now, eventIds, state).Commit? {
      var s := state.snapshots[id];
      var ts := CancelTransitions(s, now).value;
      CancelCommits(scope, id, now, eventIds, state);
      CancelIsChain(s, now);
      LastKeepsId(s, ts);
      var events := CancelStep(scope, id, now, eventIds, state).events;
      if ts == [] {
        assert state.snapshots[id := s] == state.snapshots;
      } else if |ts| == 1 {
        assert events == [events[0]];
      } else {
        assert events == [events[0], events[1]];
      }
    }
  }

  /** What a start leaves and publishes when its key is free, and when it is bound: nothing new then, and
      a conflict unless the fingerprint kept for the bound execution compares equal. */
  ghost predicate StartVerdict(before: State, spec: Spec, now: DateTime, eventId: nat, refused: bool,
                               after: State, events: seq<Event>)
  {
    var key := StartKey(spec.scope.tenant, spec.key);
    if key in before.index then
      var bound := before.index[key];
      && (refused <==> !(bound in before.fingerprints && Alike(before.fingerprints[bound], Fingerprint(spec))))
      && after == before && events == []
    else
      var s := Snapshot(id := spec.id, scope := spec.scope, revision := 1, status := Pending, planRevision := None,
                        nodes := map[], suspension := None, result := None, failure := None, updatedAt := now);
      && !refused
      && after == State(before.snapshots[spec.id := s], before.index[key := spec.id],
                        before.fingerprints[spec.id := Fingerprint(spec)])
      && events == [Event(eventId, spec.scope.tenant, spec.id, 1, None, Pending, now)]
  }

  /** The callback of a start does exactly that. */
  lemma StartDecides(spec: Spec, now: DateTime, eventId: nat, state: State)
    ensures match StartStep(spec, now, eventId, state)
            case Raise(error) => error == IdempotencyConflict && StartVerdict(state, spec, now, eventId, true, state, [])
            case Commit(after, events) => StartVerdict(state, spec, now, eventId, false, after, events)
  {
    if KeyOf(spec) !in state.index {
      var s := InitialSnapshot(spec, now);
      assert StatusChanged(eventId, None, s) == Event(eventId, spec.scope.tenant, spec.id, 1, None, Pending, now);
    }
  }
}
