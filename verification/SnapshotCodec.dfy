/** The JSON codec for spec fingerprints and execution snapshots stored in JSONB columns. */
module SnapshotCodec {
  import opened Kernel
  import opened Text
  import opened RuntimeModel
  import Calendar

  /** The member names the codec writes; any other name is `Other`. */
  datatype Field =
    | Tag | Payload
    | ExecutionId | ScopeField | Revision | StatusField | PlanRevision | NodeStatuses | SuspensionField
    | ResultRef | FailureField | UpdatedAt
    | TenantField | SubjectField | WorkspaceField | AgentField
    | Other(name: string)

  /** A stored JSON value. Objects are maps: JSONB keeps no member order. */
  datatype Jsonb =
    | JNull
    | JBool(flag: bool)
    | JInt(n: int)
    | JStr(s: string)
    | JList(items: seq<Jsonb>)
    | JObj(members: map<Field, Jsonb>)

  // ----- Fingerprints ------------------------------------------------------------------

  /** A fingerprint component. `Id` carries the name of its identifier class;
      `Raw` stands for an object without a tag, which decoding passes through. */
  datatype Component =
    | Id(typeName: string, id: Uuid)
    | Instant(at: DateTime)
    | NaiveInstant
    | Text(s: string)
    | Number(n: int)
    | Flag(flag: bool)
    | Nothing
    | Tuple(items: seq<Component>)
    | Raw(value: Jsonb)

  const DATETIME_TAG: string := "datetime"

  const ID_TYPES: set<string> := {"TenantId", "SubjectId", "AgentDefinitionId", "AgentInstanceId",
                                  "ExecutionId", "NodeId", "ArtifactId"}

  /** Identifier classes are not called like the timestamp tag, and timestamps are real ones. */
  ghost predicate IsComponent(c: Component) {
    match c
    case Id(typeName, _) => typeName != DATETIME_TAG
    case Instant(at) => ValidDateTime(at)
    case Tuple(items) => forall i :: 0 <= i < |items| ==> IsComponent(items[i])
    case _ => true
  }

  predicate Encodable(c: Component) {
    match c
    case NaiveInstant => false
    case Raw(_) => false
    case Tuple(items) => forall i :: 0 <= i < |items| ==> Encodable(items[i])
    case _ => true
  }

  predicate Registered(c: Component) {
    match c
    case Id(typeName, _) => typeName in ID_TYPES
    case Tuple(items) => forall i :: 0 <= i < |items| ==> Registered(items[i])
    case _ => true
  }

  function Tagged(tag: string, payload: string): Jsonb {
    JObj(map[Tag := JStr(tag), Payload := JStr(payload)])
  }

  function Encode(c: Component): (r: Option<Jsonb>)
    ensures r.Some? <==> Encodable(c)
    decreases c, 0
  {
    match c
    case Id(typeName, id) => Some(Tagged(typeName, UuidText(id)))
    case Instant(at) => Some(Tagged(DATETIME_TAG, IsoText(at)))
    case Text(s) => Some(JStr(s))
    case Number(n) => Some(JInt(n))
    case Flag(flag) => Some(JBool(flag))
    case Nothing => Some(JNull)
    case Tuple(items) =>
      (match EncodeAll(items)
       case Some(encoded) => Some(JList(encoded))
       case None => None)
    case NaiveInstant => None
    case Raw(_) => None
  }

  function EncodeAll(items: seq<Component>): (r: Option<seq<Jsonb>>)
    ensures r.Some? <==> forall i :: 0 <= i < |items| ==> Encodable(items[i])
    ensures r.Some? ==> |r.value| == |items| && forall i :: 0 <= i < |items| ==> Encode(items[i]) == Some(r.value[i])
    decreases items, 1
  {
    if items == [] then Some([]) else
      assert items == [items[0]] + items[1..];
      match (Encode(items[0]), EncodeAll(items[1..]))
      case (Some(first), Some(rest)) => Some([first] + rest)
      case _ => None
  }

  function DecodeTagged(tag: string, payload: Jsonb): (r: Option<Component>) {
    if !payload.JStr? then None
    else if tag == DATETIME_TAG then
      match ParseIso(payload.s)
      case Some(at) => Some(Instant(at))
      case None => None
    else if tag in ID_TYPES then
      match ParseUuid(payload.s)
      case Some(id) => Some(Id(tag, id))
      case None => None
    else None
  }

  /** Decoding; any exception the source raises is `None`. */
  function Decode(j: Jsonb): (r: Option<Component>)
    decreases j, 0
  {
    match j
    case JList(items) =>
      (match DecodeAll(items)
       case Some(decoded) => Some(Tuple(decoded))
       case None => None)
    case JObj(members) =>
      if Tag !in members then Some(Raw(j))
      else if !members[Tag].JStr? || Payload !in members then None
      else DecodeTagged(members[Tag].s, members[Payload])
    case JStr(s) => Some(Text(s))
    case JInt(n) => Some(Number(n))
    case JBool(flag) => Some(Flag(flag))
    case JNull => Some(Nothing)
  }

  function DecodeAll(items: seq<Jsonb>): (r: Option<seq<Component>>)
    ensures r.Some? ==> |r.value| == |items|
    decreases items, 1
  {
    if items == [] then Some([]) else
      match (Decode(items[0]), DecodeAll(items[1..]))
      case (Some(first), Some(rest)) => Some([first] + rest)
      case _ => None
  }

  lemma {:induction false} DecodeAllEach(items: seq<Jsonb>)
    ensures DecodeAll(items).Some? <==> forall i :: 0 <= i < |items| ==> Decode(items[i]).Some?
    ensures DecodeAll(items).Some? ==> forall i :: 0 <= i < |items| ==> Decode(items[i]) == Some(DecodeAll(items).value[i])
  {
    if items != [] {
      DecodeAllEach(items[1..]);
      assert items == [items[0]] + items[1..];
    }
  }

  lemma IdRoundTrip(typeName: string, id: Uuid)
    requires typeName != DATETIME_TAG
    ensures Decode(Encode(Id(typeName, id)).value) == if typeName in ID_TYPES then Some(Id(typeName, id)) else None
  {
    UuidRoundTrip(id);
  }

  lemma InstantRoundTrip(at: DateTime)
    requires ValidDateTime(at)
    ensures Decode(Encode(Instant(at)).value) == Some(Instant(at))
  {
    IsoRoundTrip(at);
    TaggedInstant(IsoText(at), at);
  }

  lemma TaggedInstant(text: string, at: DateTime)
    requires ParseIso(text) == Some(at)
    ensures Decode(Tagged(DATETIME_TAG, text)) == Some(Instant(at))
  {
    TaggedDecodes(DATETIME_TAG, text);
  }

  lemma TaggedDecodes(tag: string, payload: string)
    ensures Decode(Tagged(tag, payload)) == DecodeTagged(tag, JStr(payload))
  {
  }

  /** What reading a written component back gives. */
  ghost predicate ReadsBack(c: Component) {
    Encode(c).Some? && Decode(Encode(c).value) == if Registered(c) then Some(c) else None
  }

  /** What is written can be read back unchanged exactly when every identifier class is a registered
      one; otherwise reading fails. */
  lemma {:induction false} ComponentRoundTrip(c: Component)
    requires IsComponent(c) && Encodable(c)
    ensures Decode(Encode(c).value) == if Registered(c) then Some(c) else None
    decreases c
  {
    if c.Id? {
      IdRoundTrip(c.typeName, c.id);
    } else if c.Instant? {
      InstantRoundTrip(c.at);
    } else if c.Tuple? {
      forall i | 0 <= i < |c.items| ensures ReadsBack(c.items[i]) {
        ComponentRoundTrip(c.items[i]);
      }
      TupleRoundTrip(c.items);
    }
  }

  lemma TupleRoundTrip(items: seq<Component>)
    requires forall i :: 0 <= i < |items| ==> Encodable(items[i]) && ReadsBack(items[i])
    ensures DecodeAll(EncodeAll(items).value) ==
            if forall i :: 0 <= i < |items| ==> Registered(items[i]) then Some(items) else None
  {
    var encoded := EncodeAll(items).value;
    DecodeAllEach(encoded);
    forall i | 0 <= i < |items| ensures Decode(encoded[i]) == if Registered(items[i]) then Some(items[i]) else None {
      assert ReadsBack(items[i]) && Encode(items[i]) == Some(encoded[i]);
    }
    if DecodeAll(encoded).Some? {
      assert DecodeAll(encoded).value == items;
    }
  }

  // ----- Comparing fingerprints ---------------------------------------------------------

  /** Aware timestamps compare by the instant they denote, whatever their offsets. */
  predicate SameMoment(t: DateTime, u: DateTime) {
    t == u || (ValidDateTime(t) && ValidDateTime(u) && Calendar.Instant(t) == Calendar.Instant(u))
  }

  /** The comparison of fingerprints: item by item, timestamps by their instants. */
  predicate Alike(a: Component, b: Component) {
    match (a, b)
    case (Instant(t), Instant(u)) => SameMoment(t, u)
    case (Tuple(xs), Tuple(ys)) => |xs| == |ys| && forall i :: 0 <= i < |xs| ==> Alike(xs[i], ys[i])
    case _ => a == b
  }

  lemma {:induction false} AlikeReflexive(a: Component)
    ensures Alike(a, a)
  {
    if a.Tuple? {
      forall i | 0 <= i < |a.items| ensures Alike(a.items[i], a.items[i]) {
        AlikeReflexive(a.items[i]);
      }
    }
  }

  lemma {:induction false} AlikeTransitive(a: Component, b: Component, c: Component)
    requires Alike(a, b) && Alike(b, c)
    ensures Alike(a, c) && Alike(b, a)
  {
    if a.Tuple? {
      forall i | 0 <= i < |a.items| ensures Alike(a.items[i], c.items[i]) && Alike(b.items[i], a.items[i]) {
        AlikeTransitive(a.items[i], b.items[i], c.items[i]);
      }
    }
  }

  /** A stored fingerprint answers every comparison as the one kept in memory does. */
  lemma StoredVerdict(stored: Component, requested: Component)
    requires IsComponent(stored) && Encodable(stored) && Registered(stored)
    ensures Decode(Encode(stored).value).Some?
    ensures Alike(Decode(Encode(stored).value).value, requested) <==> Alike(stored, requested)
  {
    ComponentRoundTrip(stored);
  }

  // ----- The fingerprint of a spec ----------------------------------------------------------

  function OptionalId(typeName: string, id: Option<Uuid>): Component {
    if id.Some? then Id(typeName, id.value) else Nothing
  }

  function OptionalInstant(at: Option<DateTime>): Component {
    if at.Some? then Instant(at.value) else Nothing
  }

  function QueryPart(query: Option<MemoryQuery>): Component {
    match query
    case None => Tuple([Nothing])
    case Some(q) => Tuple([Text(q.queryId), Text(q.text), Number(q.limit), Text(q.scopeText),
                           OptionalInstant(q.validAt), OptionalInstant(q.recordedAt)])
  }

  function Fingerprint(spec: Spec): Component {
    Tuple([Id("TenantId", spec.scope.tenant), Id("SubjectId", spec.scope.subject),
           if spec.scope.workspace.Some? then Text(spec.scope.workspace.value) else Nothing,
           OptionalId("AgentInstanceId", spec.scope.agent),
           Id("ArtifactId", spec.objective), Id("AgentDefinitionId", spec.rootAgent),
           QueryPart(spec.query),
           Number(spec.maxInputTokens), Number(spec.maxOutputTokens), Number(spec.maxCostMicros),
           Instant(spec.deadline), Text(spec.key)])
  }

  ghost predicate Storable(c: Component) {
    IsComponent(c) && Encodable(c) && Registered(c)
  }

  lemma TupleStorable(items: seq<Component>)
    requires forall i :: 0 <= i < |items| ==> Storable(items[i])
    ensures Storable(Tuple(items))
  {
  }

  lemma TypeNames()
    ensures {"TenantId", "SubjectId", "AgentInstanceId", "ArtifactId", "AgentDefinitionId"} <= ID_TYPES
    ensures DATETIME_TAG !in ID_TYPES
  {
    assert DATETIME_TAG[0] == 'd';
  }

  lemma QueryPartStorable(query: Option<MemoryQuery>)
    requires query.Some? && query.value.validAt.Some? ==> ValidDateTime(query.value.validAt.value)
    requires query.Some? && query.value.recordedAt.Some? ==> ValidDateTime(query.value.recordedAt.value)
    ensures Storable(QueryPart(query))
  {
    TupleStorable(QueryPart(query).items);
  }

  lemma FingerprintStorable(spec: Spec)
    requires ValidSpec(spec)
    ensures Storable(Fingerprint(spec))
  {
    TypeNames();
    QueryPartStorable(spec.query);
    TupleStorable(Fingerprint(spec).items);
  }

  /** Every spec's fingerprint survives storage, so a replay is judged as it would be in memory. */
  lemma FingerprintRoundTrip(spec: Spec)
    requires ValidSpec(spec)
    ensures Encodable(Fingerprint(spec))
    ensures Decode(Encode(Fingerprint(spec)).value) == Some(Fingerprint(spec))
  {
    FingerprintStorable(spec);
    ComponentRoundTrip(Fingerprint(spec));
  }

  predicate SameOptionalMoment(t: Option<DateTime>, u: Option<DateTime>) {
    t == u || (t.Some? && u.Some? && SameMoment(t.value, u.value))
  }

  predicate SameQuery(a: Option<MemoryQuery>, b: Option<MemoryQuery>) {
    || (a.None? && b.None?)
    || (&& a.Some? && b.Some?
        && a.value == b.value.(validAt := a.value.validAt, recordedAt := a.value.recordedAt)
        && SameOptionalMoment(a.value.validAt, b.value.validAt) && SameOptionalMoment(a.value.recordedAt, b.value.recordedAt))
  }

  /** Specs that ask for the same execution: equal in everything but the execution id, times compared as instants. */
  predicate SameRequest(a: Spec, b: Spec) {
    && a == b.(id := a.id, query := a.query, deadline := a.deadline)
    && SameQuery(a.query, b.query) && SameMoment(a.deadline, b.deadline)
  }

  /** Fingerprints compare equal exactly when the specs ask for the same execution, in the same scope and under the
      same key; the offset a deadline is written with does not matter. */
  lemma FingerprintDecides(a: Spec, b: Spec)
    ensures Alike(Fingerprint(a), Fingerprint(b)) <==> SameRequest(a, b)
  {
    if Alike(Fingerprint(a), Fingerprint(b)) {
      AlikeMeansSame(a, b);
    }
    if SameRequest(a, b) {
      SameMeansAlike(a, b);
    }
  }

  lemma AlikeMeansSame(a: Spec, b: Spec)
    requires Alike(Fingerprint(a), Fingerprint(b))
    ensures SameRequest(a, b)
  {
    ScopePart(a, b);
    TargetPart(a, b);
    BudgetPart(a, b);
    QueryDecides(a.query, b.query);
  }

  lemma ItemsAlike(a: Spec, b: Spec, i: nat)
    requires Alike(Fingerprint(a), Fingerprint(b)) && i < 12
    ensures Alike(Fingerprint(a).items[i], Fingerprint(b).items[i])
  {
  }

  lemma ScopePart(a: Spec, b: Spec)
    requires Alike(Fingerprint(a), Fingerprint(b))
    ensures a.scope == b.scope
  {
    ItemsAlike(a, b, 0);
    ItemsAlike(a, b, 1);
    ItemsAlike(a, b, 2);
    ItemsAlike(a, b, 3);
  }

  lemma TargetPart(a: Spec, b: Spec)
    requires Alike(Fingerprint(a), Fingerprint(b))
    ensures a.objective == b.objective && a.rootAgent == b.rootAgent && Alike(QueryPart(a.query), QueryPart(b.query))
    ensures a.maxInputTokens == b.maxInputTokens
  {
    ItemsAlike(a, b, 4);
    ItemsAlike(a, b, 5);
    ItemsAlike(a, b, 6);
    ItemsAlike(a, b, 7);
  }

  lemma BudgetPart(a: Spec, b: Spec)
    requires Alike(Fingerprint(a), Fingerprint(b))
    ensures a.maxOutputTokens == b.maxOutputTokens && a.maxCostMicros == b.maxCostMicros
    ensures SameMoment(a.deadline, b.deadline) && a.key == b.key
  {
    ItemsAlike(a, b, 8);
    ItemsAlike(a, b, 9);
    ItemsAlike(a, b, 10);
    ItemsAlike(a, b, 11);
  }

  lemma SameMeansAlike(a: Spec, b: Spec)
    requires SameRequest(a, b)
    ensures Alike(Fingerprint(a), Fingerprint(b))
  {
    QueryDecides(a.query, b.query);
    var x, y := Fingerprint(a).items, Fingerprint(b).items;
    forall i | 0 <= i < 12 ensures Alike(x[i], y[i]) {
      if i != 6 && i != 10 {
        assert x[i] == y[i];
        AlikeReflexive(x[i]);
      }
    }
  }

  lemma QueryDecides(a: Option<MemoryQuery>, b: Option<MemoryQuery>)
    ensures Alike(QueryPart(a), QueryPart(b)) <==> SameQuery(a, b)
  {
    var x, y := QueryPart(a).items, QueryPart(b).items;
    if a.Some? && b.Some? && Alike(QueryPart(a), QueryPart(b)) {
      assert Alike(x[0], y[0]) && Alike(x[1], y[1]) && Alike(x[2], y[2]) && Alike(x[3], y[3]);
      assert Alike(x[4], y[4]) && Alike(x[5], y[5]);
    }
  }

  // ----- Snapshots --------------------------------------------------------------------------

  function StatusText(s: Status): string {
    match s
    case Pending => "pending" case Planning => "planning" case Running => "running" case Waiting => "waiting"
    case Retrying => "retrying" case Cancelling => "cancelling" case Compensating => "compensating"
    case Succeeded => "succeeded" case Failed => "failed" case Cancelled => "cancelled"
  }

  function ParseStatus(s: string): Option<Status> {
    if s == "pending" then Some(Pending) else if s == "planning" then Some(Planning)
    else if s == "running" then Some(Running) else if s == "waiting" then Some(Waiting)
    else if s == "retrying" then Some(Retrying) else if s == "cancelling" then Some(Cancelling)
    else if s == "compensating" then Some(Compensating) else if s == "succeeded" then Some(Succeeded)
    else if s == "failed" then Some(Failed) else if s == "cancelled" then Some(Cancelled) else None
  }

  function NodeStatusText(s: NodeStatus): string {
    match s
    case NodePending => "pending" case NodeReady => "ready" case NodeRunning => "running"
    case NodeWaiting => "waiting" case NodeRetrying => "retrying" case NodeCancelling => "cancelling"
    case NodeCompensating => "compensating" case NodeSucceeded => "succeeded" case NodeFailed => "failed"
    case NodeCancelled => "cancelled" case NodeSkipped => "skipped" case NodeCompensated => "compensated"
  }

  function ParseNodeStatus(s: string): Option<NodeStatus> {
    if s == "pending" then Some(NodePending) else if s == "ready" then Some(NodeReady)
    else if s == "running" then Some(NodeRunning) else if s == "waiting" then Some(NodeWaiting)
    else if s == "retrying" then Some(NodeRetrying) else if s == "cancelling" then Some(NodeCancelling)
    else if s == "compensating" then Some(NodeCompensating) else if s == "succeeded" then Some(NodeSucceeded)
    else if s == "failed" then Some(NodeFailed) else if s == "cancelled" then Some(NodeCancelled)
    else if s == "skipped" then Some(NodeSkipped) else if s == "compensated" then Some(NodeCompensated) else None
  }

  lemma StatusRoundTrip(s: Status)
    ensures ParseStatus(StatusText(s)) == Some(s)
  {
    assert "planning"[1] == 'l' && "cancelling"[6] == 'l' && "cancelled"[7] == 'e' && "compensating"[2] == 'm';
  }

  lemma NodeStatusRoundTrip(s: NodeStatus)
    ensures ParseNodeStatus(NodeStatusText(s)) == Some(s)
  {
    assert "pending"[0] == 'p' && "running"[0] == 'r' && "cancelled"[1] == 'a' && "compensated"[1] == 'o';
    assert "skipped"[0] == 's' && "succeeded"[1] == 'u' && "retrying"[1] == 'e' && "ready"[1] == 'e';
  }

  function OptionalText(id: Option<Uuid>): Jsonb {
    if id.Some? then JStr(UuidText(id.value)) else JNull
  }

  function ScopeToJson(scope: Scope): Jsonb {
    JObj(map[TenantField := JStr(UuidText(scope.tenant)), SubjectField := JStr(UuidText(scope.subject)),
             WorkspaceField := (if scope.workspace.Some? then JStr(scope.workspace.value) else JNull),
             AgentField := OptionalText(scope.agent)])
  }

  /** Node statuses keyed by the text of the node id. */
  ghost function NodesToJson(nodes: map<Uuid, NodeStatus>): (m: map<Field, Jsonb>)
    ensures forall id :: id in nodes ==>
              Other(UuidText(id)) in m && m[Other(UuidText(id))] == JStr(NodeStatusText(nodes[id]))
    ensures forall f :: f in m ==> exists id :: id in nodes && f == Other(UuidText(id))
  {
    forall a: Uuid, b: Uuid | UuidText(a) == UuidText(b) ensures a == b { UuidTextInjective(a, b); }
    map id | id in nodes :: Other(UuidText(id)) := JStr(NodeStatusText(nodes[id]))
  }

  /** The stored object, given the JSON of its compound members; suspension and failure are written as null. */
  function Written(s: Snapshot, id: Jsonb, scope: Jsonb, status: Jsonb, nodes: Jsonb, result: Jsonb, updatedAt: Jsonb): Jsonb {
    JObj(map[ExecutionId := id, ScopeField := scope, Revision := JInt(s.revision), StatusField := status,
             PlanRevision := (if s.planRevision.Some? then JInt(s.planRevision.value) else JNull),
             NodeStatuses := nodes, SuspensionField := JNull, ResultRef := result, FailureField := JNull,
             UpdatedAt := updatedAt])
  }

  ghost function SnapshotToJson(s: Snapshot): Jsonb {
    Written(s, JStr(UuidText(s.id)), ScopeToJson(s.scope), JStr(StatusText(s.status)),
            JObj(NodesToJson(s.nodes)), OptionalText(s.result), JStr(IsoText(s.updatedAt)))
  }

  function Member(m: map<Field, Jsonb>, f: Field): Jsonb {
    if f in m then m[f] else JNull
  }

  function RequiredUuid(j: Jsonb): (r: Option<Uuid>) {
    if j.JStr? then (match ParseUuid(j.s) case Some(id) => Some(id) case None => None) else None
  }

  /** Absent is `Some(None)`; unreadable is `None`. */
  function OptionalUuid(j: Jsonb): (r: Option<Option<Uuid>>) {
    if j.JNull? then Some(None) else match RequiredUuid(j) case Some(id) => Some(Some(id)) case None => None
  }

  function OptionalInt(j: Jsonb): (r: Option<Option<int>>) {
    if j.JNull? then Some(None) else if j.JInt? then Some(Some(j.n)) else None
  }

  function OptionalStr(j: Jsonb): (r: Option<Option<string>>) {
    if j.JNull? then Some(None) else if j.JStr? then Some(Some(j.s)) else None
  }

  function ScopeFromJson(j: Jsonb): (r: Option<Scope>) {
    if !j.JObj? then None else
      match (RequiredUuid(Member(j.members, TenantField)), RequiredUuid(Member(j.members, SubjectField)),
             OptionalStr(Member(j.members, WorkspaceField)), OptionalUuid(Member(j.members, AgentField)))
      case (Some(tenant), Some(subject), Some(workspace), Some(agent)) =>
        var scope := Scope(tenant, subject, workspace, agent);
        if ValidScope(scope) then Some(scope) else None
      case _ => None
  }

  function RequiredStatus(j: Jsonb): (r: Option<Status>) {
    if j.JStr? then ParseStatus(j.s) else None
  }

  function RequiredInstant(j: Jsonb): (r: Option<DateTime>)
    ensures r.Some? ==> ValidDateTime(r.value)
  {
    if j.JStr? then ParseIso(j.s) else None
  }

  ghost predicate ReadableNode(f: Field, j: Jsonb) {
    f.Other? && ParseUuid(f.name).Some? && j.JStr? && ParseNodeStatus(j.s).Some?
  }

  /** Node statuses read back; when two spellings name one node, the later one wins in the source and some one wins here. */
  ghost function NodesFromJson(j: Jsonb): (r: Option<map<Uuid, NodeStatus>>) {
    if j.JObj? && forall f :: f in j.members ==> ReadableNode(f, j.members[f]) then
      var ids := set f | f in j.members :: ParseUuid(f.name).value;
      Some(map id: Uuid | id in ids ::
             var f :| f in j.members && ParseUuid(f.name) == Some(id); ParseNodeStatus(j.members[f].s).value)
    else None
  }

  /** Building a snapshot from what the members denote; construction checks revision and scope. */
  function Assemble(id: Option<Uuid>, scope: Option<Scope>, revision: Jsonb, status: Option<Status>,
                    plan: Option<Option<int>>, nodes: Option<map<Uuid, NodeStatus>>, result: Option<Option<Uuid>>,
                    updatedAt: Option<DateTime>): (r: Option<Snapshot>)
    ensures r.Some? ==> ValidSnapshot(r.value) && r.value.suspension.None? && r.value.failure.None?
  {
    if !revision.JInt? then None else
      match (id, scope, status, plan, nodes, result, updatedAt)
      case (Some(i), Some(sc), Some(st), Some(p), Some(ns), Some(ref), Some(at)) =>
        var s := Snapshot(i, sc, revision.n, st, p, ns, None, ref, None, at);
        if ValidSnapshot(s) then Some(s) else None
      case _ => None
  }

  ghost function SnapshotFromJson(j: Jsonb): (r: Option<Snapshot>)
    ensures r.Some? ==> ValidSnapshot(r.value) && r.value.suspension.None? && r.value.failure.None?
  {
    if !j.JObj? then None else
      var m := j.members;
      Assemble(RequiredUuid(Member(m, ExecutionId)), ScopeFromJson(Member(m, ScopeField)), Member(m, Revision),
               RequiredStatus(Member(m, StatusField)), OptionalInt(Member(m, PlanRevision)),
               NodesFromJson(if NodeStatuses in m then m[NodeStatuses] else JObj(map[])),
               OptionalUuid(Member(m, ResultRef)), RequiredInstant(Member(m, UpdatedAt)))
  }

  lemma NodeEntryReads(id: Uuid, status: NodeStatus)
    ensures ReadableNode(Other(UuidText(id)), JStr(NodeStatusText(status)))
    ensures ParseUuid(UuidText(id)) == Some(id) && ParseNodeStatus(NodeStatusText(status)) == Some(status)
  {
    UuidRoundTrip(id);
    NodeStatusRoundTrip(status);
  }

  /** A member of the written object, seen from its reading. */
  lemma NodeMember(nodes: map<Uuid, NodeStatus>, f: Field)
    requires f in NodesToJson(nodes)
    ensures ReadableNode(f, NodesToJson(nodes)[f])
    ensures var id := ParseUuid(f.name).value;
            id in nodes && ParseNodeStatus(NodesToJson(nodes)[f].s) == Some(nodes[id])
  {
    var id :| id in nodes && f == Other(UuidText(id));
    NodeEntryReads(id, nodes[id]);
  }

  lemma NodesRoundTrip(nodes: map<Uuid, NodeStatus>)
    ensures NodesFromJson(JObj(NodesToJson(nodes))) == Some(nodes)
  {
    var m := NodesToJson(nodes);
    forall f | f in m
      ensures ReadableNode(f, m[f]) && ParseUuid(f.name).value in nodes
      ensures ParseNodeStatus(m[f].s) == Some(nodes[ParseUuid(f.name).value])
    {
      NodeMember(nodes, f);
    }
    forall id: Uuid | id in nodes ensures Other(UuidText(id)) in m && ParseUuid(UuidText(id)) == Some(id) {
      NodeEntryReads(id, nodes[id]);
    }
    ReadBackMap(nodes, m);
  }

  lemma ReadBackMap(nodes: map<Uuid, NodeStatus>, m: map<Field, Jsonb>)
    requires forall f :: f in m ==> ReadableNode(f, m[f]) && ParseUuid(f.name).value in nodes &&
                                    ParseNodeStatus(m[f].s) == Some(nodes[ParseUuid(f.name).value])
    requires forall id: Uuid :: id in nodes ==> exists f :: f in m && f.Other? && ParseUuid(f.name) == Some(id)
    ensures NodesFromJson(JObj(m)) == Some(nodes)
  {
    ReadKeys(nodes, m);
    ReadValues(nodes, m);
    SameMap(NodesFromJson(JObj(m)).value, nodes);
  }

  lemma SameMap(a: map<Uuid, NodeStatus>, b: map<Uuid, NodeStatus>)
    requires a.Keys == b.Keys && forall id :: id in a.Keys ==> a[id] == b[id]
    ensures a == b
  {
  }

  lemma ReadValues(nodes: map<Uuid, NodeStatus>, m: map<Field, Jsonb>)
    requires forall f :: f in m ==> ReadableNode(f, m[f]) && ParseUuid(f.name).value in nodes &&
                                    ParseNodeStatus(m[f].s) == Some(nodes[ParseUuid(f.name).value])
    requires NodesFromJson(JObj(m)).Some? && NodesFromJson(JObj(m)).value.Keys == nodes.Keys
    ensures forall id: Uuid :: id in NodesFromJson(JObj(m)).value.Keys ==> NodesFromJson(JObj(m)).value[id] == nodes[id]
  {
    forall id: Uuid | id in NodesFromJson(JObj(m)).value.Keys ensures NodesFromJson(JObj(m)).value[id] == nodes[id] {
      ReadValue(nodes, m, id);
    }
  }

  lemma ReadKeys(nodes: map<Uuid, NodeStatus>, m: map<Field, Jsonb>)
    requires forall f :: f in m ==> ReadableNode(f, m[f]) && ParseUuid(f.name).value in nodes
    requires forall id: Uuid :: id in nodes ==> exists f :: f in m && f.Other? && ParseUuid(f.name) == Some(id)
    ensures NodesFromJson(JObj(m)).Some? && NodesFromJson(JObj(m)).value.Keys == nodes.Keys
  {
  }

  lemma ReadValue(nodes: map<Uuid, NodeStatus>, m: map<Field, Jsonb>, id: Uuid)
    requires forall f :: f in m ==> ReadableNode(f, m[f]) && ParseUuid(f.name).value in nodes &&
                                    ParseNodeStatus(m[f].s) == Some(nodes[ParseUuid(f.name).value])
    requires NodesFromJson(JObj(m)).Some? && id in NodesFromJson(JObj(m)).value
    ensures id in nodes && NodesFromJson(JObj(m)).value[id] == nodes[id]
  {
    var f :| f in m && ParseUuid(f.name) == Some(id)
             && NodesFromJson(JObj(m)).value[id] == ParseNodeStatus(m[f].s).value;
  }

  lemma UuidField(u: Uuid)
    ensures RequiredUuid(JStr(UuidText(u))) == Some(u)
  {
    UuidRoundTrip(u);
  }

  lemma OptionalUuidField(u: Option<Uuid>)
    ensures OptionalUuid(OptionalText(u)) == Some(u)
  {
    if u.Some? {
      UuidRoundTrip(u.value);
    }
  }

  lemma InstantField(t: DateTime)
    requires ValidDateTime(t)
    ensures RequiredInstant(JStr(IsoText(t))) == Some(t)
  {
    IsoRoundTrip(t);
  }

  lemma ScopeRoundTrip(scope: Scope)
    requires ValidScope(scope)
    ensures ScopeFromJson(ScopeToJson(scope)) == Some(scope)
  {
    UuidField(scope.tenant);
    UuidField(scope.subject);
    OptionalUuidField(scope.agent);
  }

  /** Storing and loading a snapshot keeps everything but its suspension and failure, which are dropped;
      so a snapshot comes back unchanged exactly when it carries neither. */
  lemma SnapshotRoundTrip(s: Snapshot)
    requires ValidSnapshot(s)
    ensures SnapshotFromJson(SnapshotToJson(s)) == Some(s.(suspension := None, failure := None))
    ensures SnapshotFromJson(SnapshotToJson(s)) == Some(s) <==> s.suspension.None? && s.failure.None?
  {
    NodesRoundTrip(s.nodes);
    ScopeRoundTrip(s.scope);
    StatusRoundTrip(s.status);
    UuidField(s.id);
    InstantField(s.updatedAt);
    OptionalUuidField(s.result);
    WrittenReadsBack(s, JStr(UuidText(s.id)), ScopeToJson(s.scope), JStr(StatusText(s.status)),
                     JObj(NodesToJson(s.nodes)), OptionalText(s.result), JStr(IsoText(s.updatedAt)));
  }

  lemma WrittenReadsBack(s: Snapshot, id: Jsonb, scope: Jsonb, status: Jsonb, nodes: Jsonb, result: Jsonb, updatedAt: Jsonb)
    requires ValidSnapshot(s)
    requires RequiredUuid(id) == Some(s.id) && ScopeFromJson(scope) == Some(s.scope)
    requires RequiredStatus(status) == Some(s.status) && NodesFromJson(nodes) == Some(s.nodes)
    requires OptionalUuid(result) == Some(s.result) && RequiredInstant(updatedAt) == Some(s.updatedAt)
    ensures SnapshotFromJson(Written(s, id, scope, status, nodes, result, updatedAt))
         == Some(s.(suspension := None, failure := None))
  {
    var plan := if s.planRevision.Some? then JInt(s.planRevision.value) else JNull;
    WrittenMembers(s, id, scope, status, nodes, result, updatedAt);
    calc {
      SnapshotFromJson(Written(s, id, scope, status, nodes, result, updatedAt));
      Assemble(RequiredUuid(id), ScopeFromJson(scope), JInt(s.revision), RequiredStatus(status), OptionalInt(plan),
               NodesFromJson(nodes), OptionalUuid(result), RequiredInstant(updatedAt));
      Assemble(Some(s.id), Some(s.scope), JInt(s.revision), Some(s.status), Some(s.planRevision),
               Some(s.nodes), Some(s.result), Some(s.updatedAt));
    }
  }

  lemma WrittenMembers(s: Snapshot, id: Jsonb, scope: Jsonb, status: Jsonb, nodes: Jsonb, result: Jsonb, updatedAt: Jsonb)
    ensures var w := Written(s, id, scope, status, nodes, result, updatedAt);
            && w.JObj? && Member(w.members, ExecutionId) == id && Member(w.members, ScopeField) == scope
            && Member(w.members, Revision) == JInt(s.revision) && Member(w.members, StatusField) == status
            && Member(w.members, PlanRevision) == (if s.planRevision.Some? then JInt(s.planRevision.value) else JNull)
            && NodeStatuses in w.members && w.members[NodeStatuses] == nodes
            && Member(w.members, ResultRef) == result && Member(w.members, UpdatedAt) == updatedAt
  {
  }
}
