/** Durable execution contracts: scopes, lifecycle states, snapshots, specs and status events. */
module RuntimeModel {
  import opened Kernel
  import opened Text

  datatype Scope = Scope(tenant: Uuid, subject: Uuid, workspace: Option<string>, agent: Option<Uuid>)

  datatype Status =
    | Pending | Planning | Running | Waiting | Retrying | Cancelling | Compensating
    | Succeeded | Failed | Cancelled

  datatype NodeStatus =
    | NodePending | NodeReady | NodeRunning | NodeWaiting | NodeRetrying | NodeCancelling | NodeCompensating
    | NodeSucceeded | NodeFailed | NodeCancelled | NodeSkipped | NodeCompensated

  function Targets(current: Status): set<Status> {
    match current
    case Pending => {Planning, Cancelling}
    case Planning => {Running, Waiting, Cancelling, Failed}
    case Running => {Waiting, Retrying, Cancelling, Compensating, Succeeded, Failed}
    case Waiting => {Running, Cancelling, Failed}
    case Retrying => {Running, Cancelling, Failed}
    case Cancelling => {Compensating, Cancelled, Failed}
    case Compensating => {Cancelled, Failed}
    case _ => {}
  }

  predicate CanTransition(current: Status, target: Status) {
    target in Targets(current)
  }

  /** From which statuses each status is entered: nothing returns to pending, only a running execution
      retries, compensates on its own account or succeeds, and what has ended is left by no move. */
  lemma EnteredFrom(current: Status, target: Status)
    ensures CanTransition(current, target) <==>
            match target
            case Pending => false
            case Planning => current == Pending
            case Running => current in {Planning, Waiting, Retrying}
            case Waiting => current in {Planning, Running}
            case Retrying | Succeeded => current == Running
            case Cancelling => current in {Pending, Planning, Running, Waiting, Retrying}
            case Compensating => current in {Running, Cancelling}
            case Cancelled => current in {Cancelling, Compensating}
            case Failed => current !in {Pending, Succeeded, Failed, Cancelled}
  {
  }

  /** A pending request that pauses an execution, and a classified failure: only references to both matter here. */
  datatype Suspension = Suspension(requestId: string)
  datatype Failure = Failure(code: string)

  datatype Snapshot = Snapshot(
    id: Uuid, scope: Scope, revision: int, status: Status, planRevision: Option<int>,
    nodes: map<Uuid, NodeStatus>, suspension: Option<Suspension>, result: Option<Uuid>,
    failure: Option<Failure>, updatedAt: DateTime)

  /** What constructing a snapshot and its scope checks. */
  predicate ValidScope(scope: Scope) {
    scope.workspace.Some? ==> !Blank(scope.workspace.value)
  }

  predicate ValidSnapshot(s: Snapshot) {
    && ValidScope(s.scope) && s.revision >= 0
    && (s.planRevision.Some? ==> s.planRevision.value >= 0)
    && ValidDateTime(s.updatedAt)
  }

  datatype MemoryQuery = MemoryQuery(
    queryId: string, text: string, limit: int, scopeText: string,
    validAt: Option<DateTime>, recordedAt: Option<DateTime>)

  datatype Spec = Spec(
    id: Uuid, scope: Scope, objective: Uuid, rootAgent: Uuid, query: Option<MemoryQuery>,
    maxInputTokens: int, maxOutputTokens: int, maxCostMicros: int, deadline: DateTime, key: string)

  /** What constructing a spec checks about the values its fingerprint is made of. */
  predicate ValidSpec(spec: Spec) {
    && ValidScope(spec.scope) && ValidDateTime(spec.deadline)
    && (spec.query.Some? ==>
          && (spec.query.value.validAt.Some? ==> ValidDateTime(spec.query.value.validAt.value))
          && (spec.query.value.recordedAt.Some? ==> ValidDateTime(spec.query.value.recordedAt.value)))
  }

  /** A status-changed event: the parts of the envelope that vary. */
  datatype Event = Event(eventId: nat, tenant: Uuid, execution: Uuid, revision: int,
                         previous: Option<Status>, status: Status, occurredAt: DateTime)

  function StatusChanged(eventId: nat, previous: Option<Status>, s: Snapshot): Event {
    Event(eventId, s.scope.tenant, s.id, s.revision, previous, s.status, s.updatedAt)
  }
}
