/** The workflow's own code: one activity after another, each retried a bounded number of times. */
module LifecycleRun {
  import opened Kernel
  import opened Text
  import opened RuntimeModel
  import opened Orchestrator
  import opened Projection
  import opened TemporalActivities
  import opened TemporalWorkflow

  /** What the surroundings decide: whether a cancel signal has come before a decision, the workflow clock,
      how many effects each attempt completes, and the event ids it generates. */
  datatype Environment = Environment(
    cancelled: nat -> bool, clock: nat -> DateTime, budget: (nat, nat) -> nat, eventId: (nat, nat, nat) -> nat)

  /** Any number of effects of one attempt keeps the world on the path. */
  lemma {:induction false} EffectsOn(start: map<Uuid, Snapshot>, path: seq<Snapshot>, w: World, m: nat, u: nat, base: nat,
                                     moves: seq<Transition>, done: nat, eventIds: seq<nat>) returns (m': nat, u': nat)
    requires Reached(start, path, w, m, u) && Along(path, base, moves) && base <= m && base <= u
    requires done <= 2 * |moves| && |moves| <= |eventIds|
    ensures Reached(start, path, Effects(w, moves, done, eventIds), m', u')
    ensures m <= m' <= Max(m, base + |moves|) && u <= u' <= Max(u, base + |moves|)
    ensures base + (done + 1) / 2 <= m' && base + done / 2 <= u'
  {
    m', u' := m, u;
    if done > 0 {
      m', u' := EffectsOn(start, path, w, m, u, base, moves, done - 1, eventIds);
      m', u' := EffectOn(start, path, Effects(w, moves, done - 1, eventIds), m', u', base, moves, done - 1, eventIds[(done - 1) / 2]);
    }
  }

  /** The world has everything up to the end of the path, or something on the way there. */
  ghost predicate Settled(start: map<Uuid, Snapshot>, path: seq<Snapshot>, w: World) {
    path != [] && Reached(start, path, w, |path| - 1, |path| - 1)
  }

  ghost predicate Underway(start: map<Uuid, Snapshot>, path: seq<Snapshot>, w: World, base: nat) {
    exists m: nat, u: nat :: base <= m && base <= u && Reached(start, path, w, m, u)
  }

  lemma AttemptOn(start: map<Uuid, Snapshot>, path: seq<Snapshot>, base: nat, activity: Activity, s: Snapshot, at: DateTime,
                  w: World, eventIds: seq<nat>, budget: nat, r: Attempted, w': World)
    requires Underway(start, path, w, base) && |eventIds| >= 2 && Attempts(w, activity, s, at, eventIds, budget, r, w')
    requires Plan(activity, s, at).Some? && Along(path, base, Plan(activity, s, at).value)
    requires base + |Plan(activity, s, at).value| == |path| - 1 && base < |path|
    requires Last(s, Plan(activity, s, at).value) == path[|path| - 1]
    ensures !r.Raised? && Underway(start, path, w', base)
    ensures r.Returned? ==> r.snapshot == path[|path| - 1] && Settled(start, path, w')
  {
    var moves := Plan(activity, s, at).value;
    var m: nat, u: nat :| base <= m && base <= u && Reached(start, path, w, m, u);
    var done := if budget < 2 * |moves| then budget else 2 * |moves|;
    var m', u' := EffectsOn(start, path, w, m, u, base, moves, done, eventIds);
  }

  /** One of an activity's three attempts is not stopped before its last effect. */
  ghost predicate Succeeds(env: Environment, n: nat, effects: nat) {
    exists attempt :: 0 <= attempt < 3 && env.budget(n, attempt) >= effects
  }

  function Stepped(s: Snapshot, status: Status, at: DateTime): Snapshot {
    s.(status := status, revision := s.revision + 1, updatedAt := at)
  }

  function CancelPair(s: Snapshot, at: DateTime): seq<Snapshot> {
    [Stepped(s, Cancelling, at), Stepped(Stepped(s, Cancelling, at), Cancelled, at)]
  }

  /** The snapshots of an execution whose workflow completes: planning, running and succeeded at the times of
      its three activities, or cancelling and cancelled at the time of the first that sees a signal. */
  function Itinerary(initial: Snapshot, env: Environment): seq<Snapshot> {
    var planning := Stepped(initial, Planning, env.clock(0));
    var running := Stepped(planning, Running, env.clock(1));
    if env.cancelled(0) then [initial] + CancelPair(initial, env.clock(0))
    else if env.cancelled(1) then [initial, planning] + CancelPair(planning, env.clock(1))
    else if env.cancelled(2) then [initial, planning, running] + CancelPair(running, env.clock(2))
    else [initial, planning, running, Stepped(running, Succeeded, env.clock(2))]
  }

  lemma StagePlan(n: nat, cancelling: bool, s: Snapshot, at: DateTime)
    requires n <= 2 && s.status == StatusAt(n)
    ensures var plan := Plan(if cancelling then ApplyCancel else Advance(TargetAt(n)), s, at);
            && plan.Some? && |plan.value| == (if cancelling then 2 else 1)
            && Nexts(plan.value) == (if cancelling then CancelPair(s, at) else [Stepped(s, TargetAt(n), at)])
            && Last(s, plan.value).status == (if cancelling then Cancelled else TargetAt(n))
  {
    PlanDecides(if cancelling then ApplyCancel else Advance(TargetAt(n)), s, at);
  }

  lemma Joined<T>(a: T, b: T, c: T, d: T)
    ensures [a] + [b] == [a, b] && [a, b] + [c] == [a, b, c] && [a, b, c] + [d] == [a, b, c, d]
  {
  }

  class ExecutionLifecycleWorkflow {
    var snapshot: Snapshot
    var cancelRequested: bool

    constructor (initial: Snapshot)
      ensures snapshot == initial && !cancelRequested
    {
      snapshot, cancelRequested := initial, false;
    }

    method RequestCancel()
      modifies this`cancelRequested
      ensures cancelRequested
    {
      cancelRequested := true;
    }

    /** One attempt of one activity. */
    method Attempt(worker: Worker, activity: Activity, n: nat, attempt: nat, env: Environment) returns (r: Attempted)
      modifies worker
      ensures Attempts(old(worker.Contents()), activity, snapshot, env.clock(n),
                       [env.eventId(n, attempt, 0), env.eventId(n, attempt, 1)], env.budget(n, attempt), r, worker.Contents())
      ensures var plan := Plan(activity, snapshot, env.clock(n));
              r.Returned? <==> plan.Some? && env.budget(n, attempt) >= 2 * |plan.value|
    {
      var eventIds := [env.eventId(n, attempt, 0), env.eventId(n, attempt, 1)];
      match activity
      case Advance(target) => r := worker.AdvanceStatus(snapshot, target, env.clock(n), eventIds, env.budget(n, attempt));
      case ApplyCancel => r := worker.CancelExecution(snapshot, env.clock(n), eventIds, env.budget(n, attempt));
    }

    /** The same, for an activity whose moves end the path. */
    method AttemptAlong(worker: Worker, activity: Activity, n: nat, attempt: nat, env: Environment,
                        ghost start: map<Uuid, Snapshot>, ghost path: seq<Snapshot>, ghost base: nat) returns (r: Attempted)
      requires Underway(start, path, worker.Contents(), base) && base < |path|
      requires var plan := Plan(activity, snapshot, env.clock(n));
               && plan.Some? && Along(path, base, plan.value) && base + |plan.value| == |path| - 1
               && Last(snapshot, plan.value) == path[|path| - 1]
      modifies worker
      ensures Underway(start, path, worker.Contents(), base)
      ensures r.Returned? ==> r.snapshot == path[|path| - 1] && Settled(start, path, worker.Contents())
      ensures r.Returned? <==> env.budget(n, attempt) >= 2 * (|path| - 1 - base)
    {
      ghost var w := worker.Contents();
      r := Attempt(worker, activity, n, attempt, env);
      AttemptOn(start, path, base, activity, snapshot, env.clock(n), w, [env.eventId(n, attempt, 0), env.eventId(n, attempt, 1)],
                env.budget(n, attempt), r, worker.Contents());
    }

    /** Executes one activity. It completes with the end of the longer path as the new snapshot, or gives up
        after MAX_ATTEMPTS attempts with the world somewhere along that path. */
    method Execute(worker: Worker, activity: Activity, n: nat, env: Environment, ghost start: map<Uuid, Snapshot>,
                   ghost path: seq<Snapshot>) returns (completed: bool, ghost longer: seq<Snapshot>)
      requires Settled(start, path, worker.Contents()) && snapshot == path[|path| - 1]
      requires Plan(activity, snapshot, env.clock(n)).Some?
      modifies this`snapshot, worker
      ensures longer == path + Nexts(Plan(activity, old(snapshot), env.clock(n)).value) && IsPath(longer)
      ensures Underway(start, longer, worker.Contents(), |path| - 1)
      ensures Last(old(snapshot), Plan(activity, old(snapshot), env.clock(n)).value) == longer[|longer| - 1]
      ensures completed ==> Settled(start, longer, worker.Contents()) && snapshot == longer[|longer| - 1]
      ensures completed <==> Succeeds(env, n, 2 * |Plan(activity, old(snapshot), env.clock(n)).value|)
    {
      var at := env.clock(n);
      ghost var moves := Plan(activity, snapshot, at).value;
      ghost var base := |path| - 1;
      PlanIsChained(activity, snapshot, at);
      ExtendPath(path, moves);
      longer := path + Nexts(moves);
      LongerPath(start, path, Nexts(moves), worker.Contents(), base, base);
      for attempt := 0 to MAX_ATTEMPTS
        invariant Underway(start, longer, worker.Contents(), base) && snapshot == old(snapshot)
        invariant forall tried :: 0 <= tried < attempt ==> env.budget(n, tried) < 2 * |moves|
      {
        var r := AttemptAlong(worker, activity, n, attempt, env, start, longer, base);
        if r.Returned? {
          snapshot := r.snapshot;
          return true, longer;
        }
      }
      completed := false;
    }

    /** One stage: cancels if a signal has come, advances otherwise. The workflow goes on to the next stage
        only when it advanced. */
    method Stage(worker: Worker, n: nat, env: Environment, ghost start: map<Uuid, Snapshot>, ghost path: seq<Snapshot>)
      returns (completed: bool, ghost longer: seq<Snapshot>)
      requires n <= 2 && Settled(start, path, worker.Contents()) && snapshot == path[|path| - 1]
      requires snapshot.status == StatusAt(n)
      modifies this, worker
      ensures longer != [] && longer[0] == path[0] && Underway(start, longer, worker.Contents(), 0)
      ensures completed ==> Settled(start, longer, worker.Contents()) && snapshot == longer[|longer| - 1]
                            && snapshot.status == if cancelRequested then Cancelled else TargetAt(n)
      ensures cancelRequested == (old(cancelRequested) || env.cancelled(n))
      ensures var s, at := old(snapshot), env.clock(n);
              && longer == path + (if cancelRequested then CancelPair(s, at) else [Stepped(s, TargetAt(n), at)])
              && (completed <==> Succeeds(env, n, if cancelRequested then 4 else 2))
    {
      if env.cancelled(n) {
        RequestCancel();
      }
      var activity := if cancelRequested then ApplyCancel else Advance(TargetAt(n));
      StagePlan(n, cancelRequested, snapshot, env.clock(n));
      completed, longer := Execute(worker, activity, n, env, start, path);
      UnderwayFrom(start, longer, worker.Contents(), |path| - 1);
    }

    /** pending, planning, running, succeeded, unless a cancel signal is seen before one of the activities. */
    method Run(worker: Worker, initial: Snapshot, env: Environment) returns (completed: bool, ghost path: seq<Snapshot>)
      requires initial.status == Pending && initial.revision == 1
      requires initial.id in worker.projection ==> worker.projection[initial.id].revision <= 1
      requires forall e :: e in worker.published ==> !IsMove(e, initial.id)
      modifies this, worker
      ensures path != [] && path[0] == initial && Underway(old(worker.projection), path, worker.Contents(), 0)
      ensures completed ==> Settled(old(worker.projection), path, worker.Contents()) && snapshot == path[|path| - 1]
                            && snapshot.status == if cancelRequested then Cancelled else Succeeded
      ensures !old(cancelRequested) ==>
                (completed <==> if env.cancelled(0) then Succeeds(env, 0, 4)
                                else Succeeds(env, 0, 2)
                                     && if env.cancelled(1) then Succeeds(env, 1, 4)
                                        else Succeeds(env, 1, 2) && Succeeds(env, 2, if env.cancelled(2) then 4 else 2))
      ensures !old(cancelRequested) && completed ==> path == Itinerary(initial, env)
    {
      ghost var planning := Stepped(initial, Planning, env.clock(0));
      ghost var running := Stepped(planning, Running, env.clock(1));
      Joined(initial, planning, running, Stepped(running, Succeeded, env.clock(2)));
      snapshot := initial;
      ghost var start := worker.projection;
      path := [initial];
      assert Settled(start, path, worker.Contents());
      completed, path := Stage(worker, 0, env, start, path);
      if !completed || cancelRequested {
        return completed, path;
      }
      completed, path := Stage(worker, 1, env, start, path);
      if !completed || cancelRequested {
        return completed, path;
      }
      completed, path := Stage(worker, 2, env, start, path);
    }
  }

  lemma UnderwayFrom(start: map<Uuid, Snapshot>, path: seq<Snapshot>, w: World, base: nat)
    requires Underway(start, path, w, base)
    ensures Underway(start, path, w, 0)
  {
  }

  /** What a settled path means to readers of the outbox and the projection. */
  lemma SettledRun(start: map<Uuid, Snapshot>, path: seq<Snapshot>, w: World, first: Event) returns (log: seq<Event>)
    requires Settled(start, path, w) && |path| > 1 && first == StatusChanged(first.eventId, None, path[0])
    ensures Deduplicates(log, w.published, path[0].id)
    ensures ExecutionLog.Replay([first] + log) == Some(ExecutionLog.PositionOf(path[|path| - 1]))
    ensures path[0].id in w.projection && w.projection[path[0].id] == path[|path| - 1]
  {
    log := PickLog(path, w.published, |path| - 1);
    LogReplays(path, first, log);
  }
}
