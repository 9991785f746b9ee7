/** Workflow runs with cancel signals at any time and activity attempts that may stop midway, be retried,
    and go on as zombies after a retry or a later activity has begun. Both writers are configured. */
module TemporalWorkflow {
  import opened Kernel
  import opened Text
  import opened RuntimeModel
  import opened Orchestrator
  import opened Projection
  import opened TemporalActivities
  import ExecutionLog

  const MAX_ATTEMPTS: nat := 3

  // ----- The path of one execution -------------------------------------------------------------

  /** The snapshots an execution goes through: pending at revision 1, then legal moves. */
  ghost predicate IsPath(path: seq<Snapshot>) {
    && path != [] && path[0].revision == 1 && path[0].status == Pending
    && forall i :: 0 <= i < |path| - 1 ==> Follows(path, i)
  }

  ghost predicate Follows(path: seq<Snapshot>, i: nat)
    requires i + 1 < |path|
  {
    path[i + 1] == Moved(path[i], path[i + 1].status, path[i + 1].updatedAt) && CanTransition(path[i].status, path[i + 1].status)
  }

  lemma {:induction false} OnPath(path: seq<Snapshot>, i: nat)
    requires IsPath(path) && i < |path|
    ensures path[i].id == path[0].id && path[i].scope == path[0].scope && path[i].revision == i + 1
  {
    if i > 0 {
      OnPath(path, i - 1);
      assert Follows(path, i - 1);
    }
  }

  function EventAt(path: seq<Snapshot>, i: nat, eventId: nat): Event
    requires 0 < i < |path|
  {
    StatusChanged(eventId, Some(path[i - 1].status), path[i])
  }

  /** A published event of the execution that is not the initial one. */
  predicate IsMove(e: Event, id: Uuid) {
    e.execution == id && e.previous.Some?
  }

  ghost predicate Published(published: seq<Event>, id: Uuid, revision: int) {
    exists e :: e in published && IsMove(e, id) && e.revision == revision
  }

  /** The moves published are moves along the path, and together reach its point `m` without a gap. */
  ghost predicate Told(path: seq<Snapshot>, published: seq<Event>, m: nat) {
    && m < |path|
    && (forall e :: e in published && IsMove(e, path[0].id) ==>
          2 <= e.revision <= m + 1 && e == EventAt(path, e.revision - 1, e.eventId))
    && (forall revision :: 2 <= revision <= m + 1 ==> Published(published, path[0].id, revision))
  }

  /** The projection shows the path's point `u`, or still what it held before the first move. */
  ghost predicate Shown(start: map<Uuid, Snapshot>, path: seq<Snapshot>, projection: map<Uuid, Snapshot>, u: nat) {
    && u < |path| && (path[0].id in start ==> start[path[0].id].revision <= 1)
    && projection == if u == 0 then start else start[path[0].id := path[u]]
  }

  /** The world after the execution's moves up to `m` were published and up to `u` were upserted. */
  ghost predicate Reached(start: map<Uuid, Snapshot>, path: seq<Snapshot>, w: World, m: nat, u: nat) {
    IsPath(path) && Told(path, w.published, m) && Shown(start, path, w.projection, u)
  }

  function Max(a: nat, b: nat): nat {
    if a < b then b else a
  }

  lemma PublishOn(path: seq<Snapshot>, published: seq<Event>, m: nat, k: nat, eventId: nat)
    requires IsPath(path) && Told(path, published, m) && 1 <= k <= m + 1 && k < |path|
    ensures Told(path, published + [EventAt(path, k, eventId)], Max(m, k))
  {
    OnPath(path, k);
    var e, longer := EventAt(path, k, eventId), published + [EventAt(path, k, eventId)];
    forall revision | 2 <= revision <= Max(m, k) + 1 ensures Published(longer, path[0].id, revision) {
      if revision <= m + 1 {
        assert Published(published, path[0].id, revision);
        var f :| f in published && IsMove(f, path[0].id) && f.revision == revision;
        assert f in longer;
      } else {
        assert e in longer && IsMove(e, path[0].id) && e.revision == revision;
      }
    }
  }

  lemma UpsertOn(start: map<Uuid, Snapshot>, path: seq<Snapshot>, projection: map<Uuid, Snapshot>, u: nat, k: nat)
    requires IsPath(path) && Shown(start, path, projection, u) && 1 <= k <= u + 1 && k < |path|
    ensures Shown(start, path, Upserted(projection, path[k].id, path[k]), Max(u, k))
  {
    OnPath(path, k);
    OnPath(path, u);
  }

  /** Making a path longer takes nothing back. */
  lemma LongerPath(start: map<Uuid, Snapshot>, path: seq<Snapshot>, more: seq<Snapshot>, w: World, m: nat, u: nat)
    requires Reached(start, path, w, m, u) && IsPath(path + more)
    ensures Reached(start, path + more, w, m, u)
  {
    var longer := path + more;
    forall e | e in w.published && IsMove(e, path[0].id)
      ensures 2 <= e.revision <= m + 1 && e == EventAt(longer, e.revision - 1, e.eventId)
    {
      assert longer[e.revision - 1] == path[e.revision - 1] && longer[e.revision - 2] == path[e.revision - 2];
    }
  }

  // ----- An issued activity lies on the path ------------------------------------------------------

  function Nexts(moves: seq<Transition>): (nexts: seq<Snapshot>)
    ensures |nexts| == |moves|
  {
    seq(|moves|, i requires 0 <= i < |moves| => moves[i].next)
  }

  /** The moves lead from the path's point `base` along the path. */
  ghost predicate Along(path: seq<Snapshot>, base: nat, moves: seq<Transition>) {
    base + |moves| < |path|
    && forall j :: 0 <= j < |moves| ==> MoveAt(path, base, moves, j)
  }

  ghost predicate MoveAt(path: seq<Snapshot>, base: nat, moves: seq<Transition>, j: nat)
    requires j < |moves| && base + |moves| < |path|
  {
    moves[j] == Transition(path[base + j].status, path[base + j + 1])
  }

  lemma LaterMove(path: seq<Snapshot>, base: nat, moves: seq<Transition>, j: nat)
    requires 0 < j < |moves| && Along(path, base + 1, moves[1..])
    ensures MoveAt(path, base, moves, j)
  {
    assert MoveAt(path, base + 1, moves[1..], j - 1);
  }

  /** A chain of moves from the path's last point makes a longer path. */
  lemma {:induction false} ExtendPath(path: seq<Snapshot>, moves: seq<Transition>)
    requires IsPath(path) && Chained(path[|path| - 1], moves)
    ensures IsPath(path + Nexts(moves)) && Along(path + Nexts(moves), |path| - 1, moves)
    ensures Last(path[|path| - 1], moves) == (path + Nexts(moves))[|path| + |moves| - 1]
    decreases |moves|
  {
    if moves == [] {
      assert path + Nexts(moves) == path;
    } else {
      var longer := path + [moves[0].next];
      forall i | 0 <= i < |longer| - 1 ensures Follows(longer, i) {
        assert i < |path| - 1 ==> Follows(path, i);
      }
      ExtendPath(longer, moves[1..]);
      assert longer + Nexts(moves[1..]) == path + Nexts(moves);
      var whole := path + Nexts(moves);
      var base := |path| - 1;
      forall j: nat | j < |moves| ensures MoveAt(whole, base, moves, j) {
        if j > 0 {
          LaterMove(whole, base, moves, j);
        }
      }
    }
  }

  /** One effect of an attempt that is no further than the world keeps the world on the path. */
  lemma EffectOn(start: map<Uuid, Snapshot>, path: seq<Snapshot>, w: World, m: nat, u: nat, base: nat,
                 moves: seq<Transition>, k: nat, eventId: nat) returns (m': nat, u': nat)
    requires Reached(start, path, w, m, u) && Along(path, base, moves) && k < 2 * |moves|
    requires base + (k + 1) / 2 <= m && base + k / 2 <= u
    ensures Reached(start, path, Effect(w, moves, k, eventId), m', u')
    ensures m <= m' && u <= u' && base + (k + 2) / 2 <= m' && base + (k + 1) / 2 <= u'
    ensures m' <= Max(m, base + |moves|) && u' <= Max(u, base + |moves|) && (u <= m ==> u' <= m')
  {
    assert MoveAt(path, base, moves, k / 2);
    var point := base + k / 2 + 1;
    OnPath(path, point);
    if k % 2 == 0 {
      PublishOn(path, w.published, m, point, eventId);
      m', u' := Max(m, point), u;
    } else {
      UpsertOn(start, path, w.projection, u, point);
      m', u' := m, Max(u, point);
    }
  }

  /** No effect takes the projection of any execution back. */
  lemma EffectNeverRegresses(w: World, moves: seq<Transition>, k: nat, eventId: nat, id: Uuid)
    requires k < 2 * |moves| && id in w.projection
    ensures var w' := Effect(w, moves, k, eventId);
            id in w'.projection && w.projection[id].revision <= w'.projection[id].revision
            && (w'.projection[id] != w.projection[id] ==> w.projection[id].revision < w'.projection[id].revision)
  {
  }

  // ----- Runs with retries and zombie attempts ----------------------------------------------------

  datatype Stage = Deciding(n: nat) | Awaiting(n: nat, cancelling: bool, tries: nat) | Completed | Failed

  /** An activity execution: its arguments are fixed when it is scheduled. `base` is recorded only. */
  datatype Issue = Issue(activity: Activity, input: Snapshot, at: DateTime, base: nat)

  datatype Attempt = Attempt(issue: nat, done: nat)

  /** `path` is recorded only. */
  datatype System = System(stage: Stage, cancelRequested: bool, current: Snapshot, issues: seq<Issue>,
                           attempts: seq<Attempt>, world: World, path: seq<Snapshot>)

  function StatusAt(n: nat): Status
    requires n <= 2
  {
    if n == 0 then Pending else if n == 1 then Planning else Running
  }

  function TargetAt(n: nat): Status
    requires n <= 2
  {
    if n == 0 then Planning else if n == 1 then Running else Succeeded
  }

  ghost predicate Init(start: map<Uuid, Snapshot>, initial: Snapshot, s: System) {
    && initial.revision == 1 && initial.status == Pending
    && s.stage == Deciding(0) && s.current == initial && s.issues == [] && s.attempts == [] && s.path == [initial]
    && s.world.projection == start && (initial.id in start ==> start[initial.id].revision <= 1)
    && (forall e :: e in s.world.published ==> !IsMove(e, initial.id))
  }

  predicate Signal(s: System, s': System) {
    s' == s.(cancelRequested := true)
  }

  function Choose(s: System): Activity
    requires s.stage.Deciding? && s.stage.n <= 2
  {
    if s.cancelRequested then ApplyCancel else Advance(TargetAt(s.stage.n))
  }

  function MovesOf(issue: Issue): seq<Transition> {
    var plan := Plan(issue.activity, issue.input, issue.at);
    if plan.Some? then plan.value else []
  }

  /** The workflow looks at the cancel flag and schedules the next activity with its current snapshot. */
  predicate Decide(s: System, s': System, at: DateTime) {
    && s.stage.Deciding? && s.stage.n <= 2 && |s.path| > 0
    && var issue := Issue(Choose(s), s.current, at, |s.path| - 1);
       s' == s.(stage := Awaiting(s.stage.n, s.cancelRequested, 0), issues := s.issues + [issue],
                   path := s.path + Nexts(MovesOf(issue)))
  }

  predicate Try(s: System, s': System) {
    && s.stage.Awaiting? && s.stage.tries < MAX_ATTEMPTS && |s.issues| > 0
    && s' == s.(stage := s.stage.(tries := s.stage.tries + 1), attempts := s.attempts + [Attempt(|s.issues| - 1, 0)])
  }

  /** Any attempt that was ever begun performs its next effect. */
  predicate Act(s: System, s': System, a: nat, eventId: nat) {
    && a < |s.attempts| && s.attempts[a].issue < |s.issues|
    && var moves := MovesOf(s.issues[s.attempts[a].issue]);
       s.attempts[a].done < 2 * |moves|
       && s' == s.(world := Effect(s.world, moves, s.attempts[a].done, eventId),
                   attempts := s.attempts[a := s.attempts[a].(done := s.attempts[a].done + 1)])
  }

  /** An attempt of the awaited activity that performed all its effects returns its snapshot. */
  predicate Return(s: System, s': System, a: nat) {
    && s.stage.Awaiting? && a < |s.attempts| && s.attempts[a].issue == |s.issues| - 1 && s.attempts[a].issue >= 0
    && var issue := s.issues[|s.issues| - 1];
       Plan(issue.activity, issue.input, issue.at).Some? && s.attempts[a].done == 2 * |MovesOf(issue)|
       && s' == s.(stage := if s.stage.cancelling || s.stage.n == 2 then Completed else Deciding(s.stage.n + 1),
                   current := Last(issue.input, MovesOf(issue)))
  }

  /** Every attempt failed or timed out. */
  predicate GiveUp(s: System, s': System) {
    s.stage.Awaiting? && s.stage.tries == MAX_ATTEMPTS && s' == s.(stage := Stage.Failed)
  }

  ghost predicate Next(s: System, s': System) {
    || Signal(s, s')
    || (exists at :: Decide(s, s', at))
    || Try(s, s')
    || (exists a: nat, eventId: nat :: Act(s, s', a, eventId))
    || (exists a: nat :: Return(s, s', a))
    || GiveUp(s, s')
  }

  ghost predicate IsRun(start: map<Uuid, Snapshot>, initial: Snapshot, run: seq<System>) {
    |run| > 0 && Init(start, initial, run[0]) && forall i :: 0 <= i < |run| - 1 ==> Next(run[i], run[i + 1])
  }

  ghost predicate IssueHolds(path: seq<Snapshot>, issue: Issue) {
    issue.base < |path| && issue.input == path[issue.base] && Plan(issue.activity, issue.input, issue.at).Some?
    && Along(path, issue.base, MovesOf(issue))
  }

  ghost predicate AttemptHolds(issues: seq<Issue>, attempt: Attempt, m: nat, u: nat) {
    && attempt.issue < |issues|
    && var issue := issues[attempt.issue];
       attempt.done <= 2 * |MovesOf(issue)|
       && issue.base + (attempt.done + 1) / 2 <= m && issue.base + attempt.done / 2 <= u
       && issue.base <= u
  }

  ghost predicate StageHolds(s: System, m: nat, u: nat)
    requires |s.path| > 0
  {
    var end := |s.path| - 1;
    match s.stage
    case Deciding(n) => n <= 2 && m == u == end && s.current == s.path[end] && s.current.status == StatusAt(n)
    case Awaiting(n, cancelling, tries) =>
      && n <= 2 && tries <= MAX_ATTEMPTS && |s.issues| > 0
      && var issue := s.issues[|s.issues| - 1];
         && issue.activity == (if cancelling then ApplyCancel else Advance(TargetAt(n))) && issue.input.status == StatusAt(n)
         && issue.base + |MovesOf(issue)| == end && issue.base <= m && issue.base <= u
    case Completed => m == u == end && s.current == s.path[end] && s.current.status in {Succeeded, Cancelled}
    case Failed => true
  }

  ghost predicate Inv(start: map<Uuid, Snapshot>, initial: Snapshot, s: System, m: nat, u: nat) {
    && Reached(start, s.path, s.world, m, u) && s.path[0] == initial && u <= m
    && (forall i :: 0 <= i < |s.issues| ==> IssueHolds(s.path, s.issues[i]))
    && (forall a :: 0 <= a < |s.attempts| ==> AttemptHolds(s.issues, s.attempts[a], m, u))
    && StageHolds(s, m, u)
  }

  lemma DecideKeeps(start: map<Uuid, Snapshot>, initial: Snapshot, s: System, s': System, at: DateTime, m: nat, u: nat)
    requires Inv(start, initial, s, m, u) && Decide(s, s', at)
    ensures Inv(start, initial, s', m, u)
  {
    var issue := Issue(Choose(s), s.current, at, |s.path| - 1);
    PlanIsChained(issue.activity, issue.input, at);
    ExtendPath(s.path, MovesOf(issue));
    LongerPath(start, s.path, Nexts(MovesOf(issue)), s.world, m, u);
    forall i | 0 <= i < |s'.issues| ensures IssueHolds(s'.path, s'.issues[i]) {
      if i < |s.issues| {
        IssueStillHolds(s.path, Nexts(MovesOf(issue)), s.issues[i]);
      }
    }
    forall a | 0 <= a < |s'.attempts| ensures AttemptHolds(s'.issues, s'.attempts[a], m, u) {
      assert AttemptHolds(s.issues, s.attempts[a], m, u);
    }
  }

  lemma IssueStillHolds(path: seq<Snapshot>, more: seq<Snapshot>, issue: Issue)
    requires IssueHolds(path, issue)
    ensures IssueHolds(path + more, issue)
  {
    var moves := MovesOf(issue);
    forall j | 0 <= j < |moves| ensures MoveAt(path + more, issue.base, moves, j) {
      assert MoveAt(path, issue.base, moves, j);
    }
  }

  lemma NewAttempt(s: System, m: nat, u: nat)
    requires |s.path| > 0 && StageHolds(s, m, u) && s.stage.Awaiting?
    ensures |s.issues| > 0 && AttemptHolds(s.issues, Attempt(|s.issues| - 1, 0), m, u)
  {
  }

  lemma AttemptsTried(issues: seq<Issue>, attempts: seq<Attempt>, attempt: Attempt, m: nat, u: nat)
    requires forall a :: 0 <= a < |attempts| ==> AttemptHolds(issues, attempts[a], m, u)
    requires AttemptHolds(issues, attempt, m, u)
    ensures forall a :: 0 <= a < |attempts + [attempt]| ==> AttemptHolds(issues, (attempts + [attempt])[a], m, u)
  {
  }

  lemma TriedStage(s: System, s': System, m: nat, u: nat)
    requires |s.path| > 0 && StageHolds(s, m, u) && Try(s, s')
    ensures StageHolds(s', m, u)
  {
  }

  lemma TryKeeps(start: map<Uuid, Snapshot>, initial: Snapshot, s: System, s': System, m: nat, u: nat)
    requires Inv(start, initial, s, m, u) && Try(s, s')
    ensures Inv(start, initial, s', m, u)
  {
    NewAttempt(s, m, u);
    AttemptsTried(s.issues, s.attempts, Attempt(|s.issues| - 1, 0), m, u);
    TriedStage(s, s', m, u);
  }

  lemma ActKeeps(start: map<Uuid, Snapshot>, initial: Snapshot, s: System, s': System, a: nat, eventId: nat, m: nat, u: nat)
    returns (m': nat, u': nat)
    requires Inv(start, initial, s, m, u) && Act(s, s', a, eventId)
    ensures Inv(start, initial, s', m', u') && m <= m' && u <= u'
  {
    var attempt := s.attempts[a];
    var issue := s.issues[attempt.issue];
    assert AttemptHolds(s.issues, attempt, m, u) && IssueHolds(s.path, issue);
    m', u' := EffectOn(start, s.path, s.world, m, u, issue.base, MovesOf(issue), attempt.done, eventId);
    AttemptsAdvance(s.issues, s.attempts, a, m, u, m', u');
    StageStillHolds(s, s', m, u, m', u');
  }

  lemma AttemptsAdvance(issues: seq<Issue>, attempts: seq<Attempt>, a: nat, m: nat, u: nat, m': nat, u': nat)
    requires forall b :: 0 <= b < |attempts| ==> AttemptHolds(issues, attempts[b], m, u)
    requires a < |attempts| && m <= m' && u <= u'
    requires AttemptHolds(issues, attempts[a].(done := attempts[a].done + 1), m', u')
    ensures var attempts' := attempts[a := attempts[a].(done := attempts[a].done + 1)];
            forall b :: 0 <= b < |attempts'| ==> AttemptHolds(issues, attempts'[b], m', u')
  {
    var attempts' := attempts[a := attempts[a].(done := attempts[a].done + 1)];
    forall b | 0 <= b < |attempts'| ensures AttemptHolds(issues, attempts'[b], m', u') {
      assert AttemptHolds(issues, attempts[b], m, u);
    }
  }

  lemma StageStillHolds(s: System, s': System, m: nat, u: nat, m': nat, u': nat)
    requires |s.path| > 0 && StageHolds(s, m, u) && m <= m' < |s.path| && u <= u' < |s.path|
    requires s'.stage == s.stage && s'.current == s.current && s'.issues == s.issues && s'.path == s.path
    ensures StageHolds(s', m', u')
  {
  }

  lemma ReturnKeeps(start: map<Uuid, Snapshot>, initial: Snapshot, s: System, s': System, a: nat, m: nat, u: nat)
    requires Inv(start, initial, s, m, u) && Return(s, s', a)
    ensures Inv(start, initial, s', m, u)
  {
    var issue := s.issues[|s.issues| - 1];
    assert AttemptHolds(s.issues, s.attempts[a], m, u) && IssueHolds(s.path, issue);
    PlanIsChained(issue.activity, issue.input, issue.at);
    var moves := MovesOf(issue);
    if moves != [] {
      assert MoveAt(s.path, issue.base, moves, |moves| - 1);
    }
    forall b | 0 <= b < |s'.attempts| ensures AttemptHolds(s'.issues, s'.attempts[b], m, u) {
      assert AttemptHolds(s.issues, s.attempts[b], m, u);
    }
  }

  lemma StepKeeps(start: map<Uuid, Snapshot>, initial: Snapshot, s: System, s': System, m: nat, u: nat)
    returns (m': nat, u': nat)
    requires Inv(start, initial, s, m, u) && Next(s, s')
    ensures Inv(start, initial, s', m', u') && m <= m' && u <= u'
  {
    m', u' := m, u;
    if at :| Decide(s, s', at) {
      DecideKeeps(start, initial, s, s', at, m, u);
    } else if Try(s, s') {
      TryKeeps(start, initial, s, s', m, u);
    } else if a: nat, eventId: nat :| Act(s, s', a, eventId) {
      m', u' := ActKeeps(start, initial, s, s', a, eventId, m, u);
    } else if a: nat :| Return(s, s', a) {
      ReturnKeeps(start, initial, s, s', a, m, u);
    }
  }

  lemma {:induction false} RunKeeps(start: map<Uuid, Snapshot>, initial: Snapshot, run: seq<System>, i: nat)
    returns (m: nat, u: nat)
    requires IsRun(start, initial, run) && i < |run|
    ensures Inv(start, initial, run[i], m, u)
  {
    if i == 0 {
      m, u := 0, 0;
    } else {
      m, u := RunKeeps(start, initial, run, i - 1);
      assert Next(run[i - 1], run[i]);
      m, u := StepKeeps(start, initial, run[i - 1], run[i], m, u);
    }
  }

  // ----- What every run guarantees ----------------------------------------------------------------

  /** Published moves with equal revisions agree except for their event ids. */
  lemma EqualRevisionsAgree(start: map<Uuid, Snapshot>, initial: Snapshot, run: seq<System>, i: nat, e: Event, f: Event)
    requires IsRun(start, initial, run) && i < |run|
    requires e in run[i].world.published && f in run[i].world.published && IsMove(e, initial.id) && IsMove(f, initial.id)
    requires e.revision == f.revision
    ensures e == f.(eventId := e.eventId)
  {
    var m, u := RunKeeps(start, initial, run, i);
  }

  /** One event per revision, in revision order, from revision 2. */
  ghost predicate Deduplicates(log: seq<Event>, published: seq<Event>, id: Uuid) {
    && (forall k :: 0 <= k < |log| ==> log[k] in published && IsMove(log[k], id) && log[k].revision == k + 2)
    && (forall e :: e in published && IsMove(e, id) ==>
          2 <= e.revision < |log| + 2 && log[e.revision - 2] == e.(eventId := log[e.revision - 2].eventId))
  }

  /** Deduplicated, the published moves continue the initial event to a log without gaps whose every step
      is legal; it replays to a point of the execution's path. */
  lemma PublishedIsLegalLog(start: map<Uuid, Snapshot>, initial: Snapshot, run: seq<System>, i: nat, first: Event)
    returns (log: seq<Event>)
    requires IsRun(start, initial, run) && i < |run| && first == StatusChanged(first.eventId, None, initial)
    ensures Deduplicates(log, run[i].world.published, initial.id)
    ensures |log| < |run[i].path| && ExecutionLog.Replay([first] + log) == Some(ExecutionLog.PositionOf(run[i].path[|log|]))
  {
    var m, u := RunKeeps(start, initial, run, i);
    log := PickLog(run[i].path, run[i].world.published, m);
    LogReplays(run[i].path, first, log);
  }

  lemma {:induction false} PickLog(path: seq<Snapshot>, published: seq<Event>, m: nat) returns (log: seq<Event>)
    requires Told(path, published, m)
    ensures |log| == m && Deduplicates(log, published, path[0].id)
    ensures forall k :: 0 <= k < m ==> log[k] == EventAt(path, k + 1, log[k].eventId)
  {
    log := [];
    var k := 0;
    while k < m
      invariant k <= m && |log| == k
      invariant forall j :: 0 <= j < k ==> log[j] in published && IsMove(log[j], path[0].id) && log[j].revision == j + 2
    {
      assert Published(published, path[0].id, k + 2);
      var e :| e in published && IsMove(e, path[0].id) && e.revision == k + 2;
      log := log + [e];
      k := k + 1;
    }
    PickedLog(path, published, m, log);
  }

  lemma PickedLog(path: seq<Snapshot>, published: seq<Event>, m: nat, log: seq<Event>)
    requires Told(path, published, m) && |log| == m
    requires forall k :: 0 <= k < m ==> log[k] in published && IsMove(log[k], path[0].id) && log[k].revision == k + 2
    ensures Deduplicates(log, published, path[0].id)
    ensures forall k :: 0 <= k < m ==> log[k] == EventAt(path, k + 1, log[k].eventId)
  {
    forall k | 0 <= k < m ensures log[k] == EventAt(path, k + 1, log[k].eventId) {
      ToldMove(path, published, m, log[k]);
    }
    forall e | e in published && IsMove(e, path[0].id)
      ensures 2 <= e.revision < m + 2 && log[e.revision - 2] == e.(eventId := log[e.revision - 2].eventId)
    {
      ToldMove(path, published, m, e);
      ToldMove(path, published, m, log[e.revision - 2]);
    }
  }

  lemma ToldMove(path: seq<Snapshot>, published: seq<Event>, m: nat, e: Event)
    requires Told(path, published, m) && e in published && IsMove(e, path[0].id)
    ensures 2 <= e.revision <= m + 1 && e == EventAt(path, e.revision - 1, e.eventId)
  {
  }

  lemma {:induction false} LogReplays(path: seq<Snapshot>, first: Event, log: seq<Event>)
    requires IsPath(path) && |log| < |path| && first == StatusChanged(first.eventId, None, path[0])
    requires forall k :: 0 <= k < |log| ==> log[k] == EventAt(path, k + 1, log[k].eventId)
    ensures ExecutionLog.Replay([first] + log) == Some(ExecutionLog.PositionOf(path[|log|]))
  {
    if log == [] {
      ExecutionLog.ReplaySnoc([], first);
      assert [first] + log == [] + [first];
    } else {
      var before, last := log[..|log| - 1], log[|log| - 1];
      LogReplays(path, first, before);
      ExecutionLog.ReplaySnoc([first] + before, last);
      assert [first] + log == [first] + before + [last];
      assert Follows(path, |before|);
      OnPath(path, |log|);
      OnPath(path, |before|);
    }
  }

  /** A completed run ended succeeded or cancelled, its last move was published, and the projection shows
      exactly its final snapshot. */
  lemma CompletedRun(start: map<Uuid, Snapshot>, initial: Snapshot, run: seq<System>, i: nat)
    requires IsRun(start, initial, run) && i < |run| && run[i].stage == Completed
    ensures var s := run[i];
            && s.current.status in {Succeeded, Cancelled} && s.current.id == initial.id && s.current.scope == initial.scope
            && initial.id in s.world.projection && s.world.projection[initial.id] == s.current
            && s.current.revision > 1 && Published(s.world.published, initial.id, s.current.revision)
            && forall e :: e in s.world.published && IsMove(e, initial.id) ==> e.revision <= s.current.revision
  {
    var m, u := RunKeeps(start, initial, run, i);
    OnPath(run[i].path, |run[i].path| - 1);
  }

  /** At every point of a run, once the projection of the execution has changed, an event that announces
      exactly what it shows, field by field, is already published. */
  lemma AnnouncedFirst(start: map<Uuid, Snapshot>, initial: Snapshot, run: seq<System>, i: nat) returns (e: Event)
    requires IsRun(start, initial, run) && i < |run|
    requires var projection := run[i].world.projection;
             initial.id in projection && !(initial.id in start && start[initial.id] == projection[initial.id])
    ensures var shown := run[i].world.projection[initial.id];
            && e in run[i].world.published && e.execution == shown.id == initial.id && e.tenant == shown.scope.tenant
            && e.revision == shown.revision && e.status == shown.status && e.occurredAt == shown.updatedAt
            && e.previous.Some? && shown.status in Targets(e.previous.value)
  {
    var m, u := RunKeeps(start, initial, run, i);
    var path := run[i].path;
    OnPath(path, u);
    assert Published(run[i].world.published, initial.id, u + 1);
    e :| e in run[i].world.published && IsMove(e, initial.id) && e.revision == u + 1;
    assert Follows(path, u - 1);
  }

  /** At no point of a run does a step take the projection of any execution back. */
  lemma {:induction false} NeverRegresses(start: map<Uuid, Snapshot>, initial: Snapshot, run: seq<System>, i: nat, j: nat, id: Uuid)
    requires IsRun(start, initial, run) && i <= j < |run| && id in run[i].world.projection
    ensures id in run[j].world.projection && run[i].world.projection[id].revision <= run[j].world.projection[id].revision
  {
    if i < j {
      NeverRegresses(start, initial, run, i, j - 1, id);
      assert Next(run[j - 1], run[j]);
      StepNeverRegresses(run[j - 1], run[j], id);
    }
  }

  lemma StepNeverRegresses(s: System, s': System, id: Uuid)
    requires Next(s, s') && id in s.world.projection
    ensures id in s'.world.projection && s.world.projection[id].revision <= s'.world.projection[id].revision
  {
    if a: nat, eventId: nat :| Act(s, s', a, eventId) {
      EffectNeverRegresses(s.world, MovesOf(s.issues[s.attempts[a].issue]), s.attempts[a].done, eventId, id);
    }
  }
}
