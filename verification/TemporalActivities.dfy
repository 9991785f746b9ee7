/** The activities of the execution lifecycle workflow: each attempt publishes and upserts, move by move,
    and may stop after any of those effects. */
module TemporalActivities {
  import opened Kernel
  import opened Text
  import opened RuntimeModel
  import opened Orchestrator
  import opened Projection

  datatype Activity = Advance(target: Status) | ApplyCancel

  /** The moves an attempt makes from `s`, or None when it raises. */
  function Plan(activity: Activity, s: Snapshot, at: DateTime): (moves: Option<seq<Transition>>) {
    match activity
    case Advance(target) =>
      if !CanTransition(s.status, target) then None
      else Some([Transition(s.status, Moved(s, target, at))])
    case ApplyCancel =>
      if s.status in {Succeeded, Failed, Cancelled} then Some([])
      else if s.status != Cancelling && !CanTransition(s.status, Cancelling) then Some([])
      else
        var before := if s.status == Cancelling then [] else [Transition(s.status, Moved(s, Cancelling, at))];
        var cancelling := Last(s, before);
        if !CanTransition(cancelling.status, Cancelled) then Some(before)
        else Some(before + [Transition(cancelling.status, Moved(cancelling, Cancelled, at))])
  }

  /** Attempts only ever make legal moves, one revision at a time; cancelling an execution the workflow
      has not finished ends cancelled. */
  lemma PlanIsChained(activity: Activity, s: Snapshot, at: DateTime)
    requires Plan(activity, s, at).Some?
    ensures var moves := Plan(activity, s, at).value;
            && Chained(s, moves) && |moves| <= 2
            && (activity.Advance? ==> Last(s, moves).status == activity.target)
            && (activity.ApplyCancel? && s.status in {Pending, Planning, Running} ==> Last(s, moves).status == Cancelled)
  {
    var moves := Plan(activity, s, at).value;
    if |moves| == 2 {
      assert moves[1..][1..] == [];
      assert Chained(moves[1].next, moves[1..][1..]);
      assert Chained(moves[0].next, moves[1..]);
    } else if |moves| == 1 {
      assert Chained(moves[0].next, moves[1..]);
    }
  }

  /** The snapshots an attempt moves through, by the activity and the status it finds: every field but
      status, revision and time stays. An execution that is compensating is left as it is. */
  lemma PlanDecides(activity: Activity, s: Snapshot, at: DateTime)
    ensures var moves := Plan(activity, s, at);
            var cancelled := s.(status := Cancelled, revision := s.revision + 1, updatedAt := at);
            match activity
            case Advance(target) =>
              moves == if target in Targets(s.status) then
                         Some([Transition(s.status, s.(status := target, revision := s.revision + 1, updatedAt := at))])
                       else None
            case ApplyCancel =>
              match s.status
              case Succeeded | Failed | Cancelled | Compensating => moves == Some([])
              case Cancelling => moves == Some([Transition(Cancelling, cancelled)])
              case Pending | Planning | Running | Waiting | Retrying =>
                moves == Some([Transition(s.status, cancelled.(status := Cancelling)),
                               Transition(Cancelling, cancelled.(revision := s.revision + 2))])
  {
    if activity.ApplyCancel? && CanTransition(s.status, Cancelling) {
      var cancelling := Moved(s, Cancelling, at);
      var first, second := Transition(s.status, cancelling), Transition(Cancelling, Moved(cancelling, Cancelled, at));
      assert [first] + [second] == [first, second] && Last(s, [first]) == cancelling;
    } else if activity.ApplyCancel? && s.status == Cancelling {
      var only := Transition(Cancelling, Moved(s, Cancelled, at));
      assert [] + [only] == [only];
    }
  }

  /** What activities act on: the outbox they publish to and the projection they upsert into. */
  datatype World = World(published: seq<Event>, projection: map<Uuid, Snapshot>)

  /** Effect number `k` of an attempt: each move is first published, then upserted. */
  function Effect(w: World, moves: seq<Transition>, k: nat, eventId: nat): World
    requires k < 2 * |moves|
  {
    var move := moves[k / 2];
    if k % 2 == 0 then w.(published := w.published + [StatusChanged(eventId, Some(move.previous), move.next)])
    else w.(projection := Upserted(w.projection, move.next.id, move.next))
  }

  /** The first `done` effects of an attempt. */
  function Effects(w: World, moves: seq<Transition>, done: nat, eventIds: seq<nat>): World
    requires done <= 2 * |moves| && |moves| <= |eventIds|
  {
    if done == 0 then w
    else Effect(Effects(w, moves, done - 1, eventIds), moves, done - 1, eventIds[(done - 1) / 2])
  }

  datatype Attempted = Returned(snapshot: Snapshot) | Raised | Stopped

  /** What an attempt that is stopped after `budget` effects does. */
  ghost predicate Attempts(w: World, activity: Activity, s: Snapshot, at: DateTime, eventIds: seq<nat>, budget: nat,
                           r: Attempted, w': World)
    requires |eventIds| >= 2
  {
    match Plan(activity, s, at)
    case None => r == Raised && w' == w
    case Some(moves) =>
      |moves| <= 2 &&
      if budget < 2 * |moves| then r == Stopped && w' == Effects(w, moves, budget, eventIds)
      else r == Returned(Last(s, moves)) && w' == Effects(w, moves, 2 * |moves|, eventIds)
  }

  class Worker {
    var published: seq<Event>
    var projection: map<Uuid, Snapshot>

    constructor (w: World)
      ensures Contents() == w
    {
      published, projection := w.published, w.projection;
    }

    function Contents(): World
      reads this
    {
      World(published, projection)
    }

    method PublishStatusChanged(eventId: nat, previous: Status, s: Snapshot)
      modifies this`published
      ensures published == old(published) + [StatusChanged(eventId, Some(previous), s)]
    {
      published := published + [StatusChanged(eventId, Some(previous), s)];
    }

    method UpsertSnapshot(s: Snapshot)
      modifies this`projection
      ensures projection == Upserted(old(projection), s.id, s)
    {
      if s.id in projection && projection[s.id].revision >= s.revision {
        return;
      }
      projection := projection[s.id := s];
    }

    method AdvanceStatus(s: Snapshot, target: Status, at: DateTime, eventIds: seq<nat>, budget: nat) returns (r: Attempted)
      requires |eventIds| >= 2
      modifies this
      ensures Attempts(old(Contents()), Advance(target), s, at, eventIds, budget, r, Contents())
    {
      if !CanTransition(s.status, target) {
        return Raised;
      }
      var previous := s.status;
      var advanced := Moved(s, target, at);
      ghost var w, moves := Contents(), [Transition(previous, advanced)];
      if budget == 0 {
        return Stopped;
      }
      PublishStatusChanged(eventIds[0], previous, advanced);
      assert Contents() == Effects(w, moves, 1, eventIds);
      if budget == 1 {
        return Stopped;
      }
      UpsertSnapshot(advanced);
      assert Contents() == Effects(w, moves, 2, eventIds);
      r := Returned(advanced);
    }

    method CancelExecution(input: Snapshot, at: DateTime, eventIds: seq<nat>, budget: nat) returns (r: Attempted)
      requires |eventIds| >= 2
      modifies this
      ensures Attempts(old(Contents()), ApplyCancel, input, at, eventIds, budget, r, Contents())
    {
      var s := input;
      if s.status in {Succeeded, Failed, Cancelled} {
        return Returned(s);
      }
      ghost var w, moves := Contents(), Plan(ApplyCancel, input, at).value;
      var effects := 0;
      if s.status != Cancelling {
        if !CanTransition(s.status, Cancelling) {
          return Returned(s);
        }
        var previous := s.status;
        s := Moved(s, Cancelling, at);
        if budget == 0 {
          return Stopped;
        }
        PublishStatusChanged(eventIds[0], previous, s);
        assert Contents() == Effects(w, moves, 1, eventIds);
        if budget == 1 {
          return Stopped;
        }
        UpsertSnapshot(s);
        assert Contents() == Effects(w, moves, 2, eventIds);
        effects := 2;
      }
      if !CanTransition(s.status, Cancelled) {
        return Returned(s);
      }
      var cancelled := Moved(s, Cancelled, at);
      if budget == effects {
        return Stopped;
      }
      PublishStatusChanged(eventIds[effects / 2], s.status, cancelled);
      assert Contents() == Effects(w, moves, effects + 1, eventIds);
      if budget == effects + 1 {
        return Stopped;
      }
      UpsertSnapshot(cancelled);
      assert Contents() == Effects(w, moves, effects + 2, eventIds);
      r := Returned(cancelled);
    }
  }
}
