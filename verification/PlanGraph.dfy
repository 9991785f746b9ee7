/** The structural check every plan passes on construction: Kahn's algorithm over
    a successor table and an in-degree table, with a last-in first-out worklist. */
module PlanGraph {
  import opened Kernel

  datatype NodeId = NodeId(value: nat)

  datatype Edge = Edge(source: NodeId, target: NodeId)

  datatype PlanError = DuplicateNode | SelfEdge | DanglingEdge | Cycle

  // ----- Reference definitions: walks, cycles, topological orders ----------------------

  ghost predicate IsWalk(edges: seq<Edge>, p: seq<NodeId>) {
    && |p| > 0
    && forall i :: 0 <= i < |p| - 1 ==> Edge(p[i], p[i + 1]) in edges
  }

  ghost predicate IsClosedWalk(edges: seq<Edge>, p: seq<NodeId>) {
    |p| >= 2 && IsWalk(edges, p) && p[0] == p[|p| - 1]
  }

  ghost predicate Cyclic(edges: seq<Edge>) {
    exists p :: IsClosedWalk(edges, p)
  }

  ghost predicate Precedes(order: seq<NodeId>, a: NodeId, b: NodeId) {
    exists i, j :: 0 <= i < j < |order| && order[i] == a && order[j] == b
  }

  ghost predicate IsTopological(order: seq<NodeId>, edges: seq<Edge>) {
    && Distinct(order)
    && forall e :: e in edges ==> Precedes(order, e.source, e.target)
  }

  predicate EdgeOk(known: set<NodeId>, e: Edge) {
    e.source != e.target && e.source in known && e.target in known
  }

  /** What is wrong with the first offending edge, in edge order. */
  function FirstEdgeError(known: set<NodeId>, edges: seq<Edge>): (r: Option<PlanError>)
    ensures r.None? <==> forall e :: e in edges ==> EdgeOk(known, e)
  {
    if edges == [] then None
    else if edges[0].source == edges[0].target then
      assert edges[0] in edges;
      Some(SelfEdge)
    else if edges[0].source !in known || edges[0].target !in known then
      assert edges[0] in edges;
      Some(DanglingEdge)
    else
      var rest := FirstEdgeError(known, edges[1..]);
      assert forall e :: e in edges <==> e == edges[0] || e in edges[1..];
      rest
  }

  lemma {:induction false} FirstEdgeErrorSkips(known: set<NodeId>, edges: seq<Edge>, k: nat)
    requires k <= |edges|
    requires forall e :: e in edges[..k] ==> EdgeOk(known, e)
    ensures FirstEdgeError(known, edges) == FirstEdgeError(known, edges[k..])
  {
    if k > 0 {
      assert edges[0] in edges[..k];
      assert edges[1..][..k - 1] == edges[..k][1..];
      FirstEdgeErrorSkips(known, edges[1..], k - 1);
      assert edges[1..][k - 1..] == edges[k..];
    } else {
      assert edges[0..] == edges;
    }
  }

  /** The answer the check owes: the first failing condition, in the order the check makes them. */
  ghost function Verdict(nodes: seq<NodeId>, edges: seq<Edge>): Result<(), PlanError> {
    if !Distinct(nodes) then Err(DuplicateNode)
    else match FirstEdgeError(Elements(nodes), edges)
      case Some(e) => Err(e)
      case None => if Cyclic(edges) then Err(Cycle) else Ok(())
  }

  predicate Proper(nodes: seq<NodeId>, e: Edge) {
    e.source != e.target && e.source in nodes && e.target in nodes
  }

  /** Edge number `k` is the first that is not between two different nodes of the plan. */
  predicate FirstImproper(nodes: seq<NodeId>, edges: seq<Edge>, k: nat) {
    k < |edges| && !Proper(nodes, edges[k]) && forall i :: 0 <= i < k ==> Proper(nodes, edges[i])
  }

  lemma ImproperIs(nodes: seq<NodeId>, edges: seq<Edge>, k: nat)
    requires FirstImproper(nodes, edges, k)
    ensures FirstEdgeError(Elements(nodes), edges) == Some(if edges[k].source == edges[k].target then SelfEdge else DanglingEdge)
  {
    forall e | e in edges[..k] ensures EdgeOk(Elements(nodes), e) {
      var i :| 0 <= i < k && edges[..k][i] == e;
      assert Proper(nodes, edges[i]);
    }
    FirstEdgeErrorSkips(Elements(nodes), edges, k);
    assert edges[k..][0] == edges[k];
  }

  lemma {:induction false} ImproperFound(nodes: seq<NodeId>, edges: seq<Edge>, k: nat) returns (i: nat)
    requires k <= |edges| && forall j :: 0 <= j < k ==> Proper(nodes, edges[j])
    ensures FirstImproper(nodes, edges, i) || (i == |edges| && forall j :: 0 <= j < |edges| ==> Proper(nodes, edges[j]))
    decreases |edges| - k
  {
    if k < |edges| && Proper(nodes, edges[k]) {
      i := ImproperFound(nodes, edges, k + 1);
    } else {
      i := k;
    }
  }

  /** Why a plan is refused: a node id that occurs twice; else its first improper edge, a self edge or one that dangles;
      else a walk along its edges that comes back to its start; and it is accepted when there is none of these. */
  lemma RefusalIs(nodes: seq<NodeId>, edges: seq<Edge>)
    ensures var twice := exists i, j :: 0 <= i < j < |nodes| && nodes[i] == nodes[j];
            var r := Verdict(nodes, edges);
            && (r == Err(DuplicateNode) <==> twice)
            && (forall k: nat :: FirstImproper(nodes, edges, k) && !twice ==>
                  r == Err(if edges[k].source == edges[k].target then SelfEdge else DanglingEdge))
            && ((forall j :: 0 <= j < |edges| ==> Proper(nodes, edges[j])) && !twice ==>
                  r == if exists p :: ClosedAlong(edges, p) then Err(Cycle) else Ok(()))
    ensures (exists k: nat :: FirstImproper(nodes, edges, k)) || forall j :: 0 <= j < |edges| ==> Proper(nodes, edges[j])
  {
    var i := ImproperFound(nodes, edges, 0);
    forall k: nat | FirstImproper(nodes, edges, k)
      ensures FirstEdgeError(Elements(nodes), edges) == Some(if edges[k].source == edges[k].target then SelfEdge else DanglingEdge)
    {
      ImproperIs(nodes, edges, k);
    }
    if forall j :: 0 <= j < |edges| ==> Proper(nodes, edges[j]) {
      assert FirstEdgeError(Elements(nodes), edges) == None;
      forall p ensures ClosedAlong(edges, p) <==> IsClosedWalk(edges, p) {
        ClosedIs(edges, p);
      }
    }
  }

  /** A walk of at least one edge that ends where it began. */
  predicate ClosedAlong(edges: seq<Edge>, p: seq<NodeId>) {
    |p| > 1 && p[|p| - 1] == p[0] && forall i :: 0 < i < |p| ==> Edge(p[i - 1], p[i]) in edges
  }

  lemma ClosedIs(edges: seq<Edge>, p: seq<NodeId>)
    ensures ClosedAlong(edges, p) <==> IsClosedWalk(edges, p)
  {
    if ClosedAlong(edges, p) {
      forall i | 0 <= i < |p| - 1 ensures Edge(p[i], p[i + 1]) in edges {
        var j := i + 1;
        assert Edge(p[j - 1], p[j]) in edges;
      }
    }
    if IsClosedWalk(edges, p) {
      forall i | 0 < i < |p| ensures Edge(p[i - 1], p[i]) in edges {
        var j := i - 1;
        assert Edge(p[j], p[j + 1]) in edges;
      }
    }
  }

  /** The verdict looks at sets only: edge order, repeated edges and node order do not matter. */
  lemma AcceptanceIsOrderFree(nodes: seq<NodeId>, edges: seq<Edge>, nodes': seq<NodeId>, edges': seq<Edge>)
    requires Distinct(nodes) && Distinct(nodes') && Elements(nodes) == Elements(nodes')
    requires Elements(edges) == Elements(edges')
    ensures Verdict(nodes, edges).Ok? <==> Verdict(nodes', edges').Ok?
  {
    assert forall e :: e in edges <==> e in Elements(edges);
    assert forall e :: e in edges' <==> e in Elements(edges');
    forall p ensures IsClosedWalk(edges, p) <==> IsClosedWalk(edges', p) {
    }
  }

  // ----- Both directions of Kahn's argument -----------------------------------------

  /** A walk only climbs in a topological order, so it never returns to its start. */
  lemma {:induction false} WalkClimbs(order: seq<NodeId>, edges: seq<Edge>, p: seq<NodeId>)
    requires IsTopological(order, edges) && IsWalk(edges, p) && |p| >= 2
    ensures Precedes(order, p[0], p[|p| - 1])
    decreases |p|
  {
    assert Edge(p[0], p[1]) in edges;
    assert Precedes(order, Edge(p[0], p[1]).source, Edge(p[0], p[1]).target);
    if |p| > 2 {
      var q := p[1..];
      forall i | 0 <= i < |q| - 1 ensures Edge(q[i], q[i + 1]) in edges {
        assert Edge(p[i + 1], p[i + 2]) in edges;
      }
      WalkClimbs(order, edges, q);
    }
  }

  lemma TopologicalMeansAcyclic(order: seq<NodeId>, edges: seq<Edge>)
    requires IsTopological(order, edges)
    ensures !Cyclic(edges)
  {
    if p :| IsClosedWalk(edges, p) {
      WalkClimbs(order, edges, p);
    }
  }

  /** Walking backwards inside a finite set in which every node has a predecessor closes a cycle. */
  lemma {:induction false} BackwardWalkCloses(edges: seq<Edge>, stuck: set<NodeId>, p: seq<NodeId>)
    requires IsWalk(edges, p) && Distinct(p) && Elements(p) <= stuck
    requires forall v :: v in stuck ==> exists u :: u in stuck && Edge(u, v) in edges
    ensures Cyclic(edges)
    decreases stuck - Elements(p)
  {
    assert p[0] in Elements(p);
    var u :| u in stuck && Edge(u, p[0]) in edges;
    var q := [u] + p;
    assert IsWalk(edges, q);
    if u in p {
      var j :| 0 <= j < |p| && p[j] == u;
      var loop := q[..j + 2];
      assert forall i :: 0 <= i < |loop| - 1 ==> Edge(loop[i], loop[i + 1]) == Edge(q[i], q[i + 1]);
      assert loop[0] == u && loop[|loop| - 1] == q[j + 1] == u;
      assert IsClosedWalk(edges, loop);
    } else {
      assert Elements(q) == Elements(p) + {u};
      BackwardWalkCloses(edges, stuck, q);
    }
  }

  lemma StuckMeansCyclic(edges: seq<Edge>, stuck: set<NodeId>)
    requires stuck != {}
    requires forall v :: v in stuck ==> exists u :: u in stuck && Edge(u, v) in edges
    ensures Cyclic(edges)
  {
    var v :| v in stuck;
    BackwardWalkCloses(edges, stuck, [v]);
  }

  // ----- The tables the algorithm keeps, as functions of the edge list ---------------

  /** Targets of the edges leaving `u`, in edge order, repeats kept. */
  function Successors(edges: seq<Edge>, u: NodeId): (r: seq<NodeId>)
    ensures forall v :: v in r <==> Edge(u, v) in edges
  {
    if edges == [] then []
    else
      var last := edges[|edges| - 1];
      assert edges == edges[..|edges| - 1] + [last];
      var init := Successors(edges[..|edges| - 1], u);
      if last.source == u then init + [last.target] else init
  }

  /** Number of edges into `v` whose source is not yet in `done`. */
  function Waiting(edges: seq<Edge>, v: NodeId, done: set<NodeId>): (r: nat)
    ensures r == 0 <==> forall e :: e in edges && e.target == v ==> e.source in done
  {
    if edges == [] then 0
    else
      var last := edges[|edges| - 1];
      assert edges == edges[..|edges| - 1] + [last];
      Waiting(edges[..|edges| - 1], v, done) + (if last.target == v && last.source !in done then 1 else 0)
  }

  lemma {:induction false} PoppingReleasesSuccessors(edges: seq<Edge>, v: NodeId, done: set<NodeId>, u: NodeId)
    requires u !in done
    ensures Waiting(edges, v, done) == Waiting(edges, v, done + {u}) + multiset(Successors(edges, u))[v]
  {
    if edges != [] {
      PoppingReleasesSuccessors(edges[..|edges| - 1], v, done, u);
    }
  }

  // ----- The algorithm ----------------------------------------------------------

  ghost predicate TablesBuilt(nodes: seq<NodeId>, edges: seq<Edge>,
                              successors: map<NodeId, seq<NodeId>>, indegree: map<NodeId, int>) {
    && successors.Keys == indegree.Keys == Elements(nodes)
    && (forall v :: v in successors ==> successors[v] == Successors(edges, v))
    && (forall v :: v in indegree ==> indegree[v] == Waiting(edges, v, {}))
  }

  lemma TablesGrow(nodes: seq<NodeId>, edges: seq<Edge>, e: Edge,
                   successors: map<NodeId, seq<NodeId>>, indegree: map<NodeId, int>)
    requires TablesBuilt(nodes, edges, successors, indegree)
    requires EdgeOk(Elements(nodes), e)
    ensures TablesBuilt(nodes, edges + [e], successors[e.source := successors[e.source] + [e.target]],
                        indegree[e.target := indegree[e.target] + 1])
  {
    assert (edges + [e])[..|edges|] == edges;
  }

  method BuildTables(nodes: seq<NodeId>, edges: seq<Edge>)
    returns (error: Option<PlanError>, successors: map<NodeId, seq<NodeId>>, indegree: map<NodeId, int>)
    ensures error == FirstEdgeError(Elements(nodes), edges)
    ensures error.None? ==> TablesBuilt(nodes, edges, successors, indegree)
  {
    ghost var known := Elements(nodes);
    error := None;
    successors := map v | v in nodes :: [];
    indegree := map v | v in nodes :: 0;
    Prefixes(edges, 0);
    for k := 0 to |edges|
      invariant FirstEdgeError(known, edges) == FirstEdgeError(known, edges[k..])
      invariant TablesBuilt(nodes, edges[..k], successors, indegree)
    {
      var edge := edges[k];
      Prefixes(edges, k);
      if edge.source == edge.target {
        return Some(SelfEdge), successors, indegree;
      }
      if edge.source !in nodes || edge.target !in nodes {
        return Some(DanglingEdge), successors, indegree;
      }
      TablesGrow(nodes, edges[..k], edge, successors, indegree);
      successors := successors[edge.source := successors[edge.source] + [edge.target]];
      indegree := indegree[edge.target := indegree[edge.target] + 1];
    }
  }

  ghost predicate Ordered(edges: seq<Edge>, popped: seq<NodeId>) {
    forall e :: e in edges && e.target in popped ==> Precedes(popped, e.source, e.target)
  }

  /** The in-degree table and worklist while the successors in `released` have been released
      for the node just popped, `done` being the nodes popped before it. */
  ghost predicate Counts(known: set<NodeId>, edges: seq<Edge>, done: set<NodeId>, released: seq<NodeId>,
                         indegree: map<NodeId, int>) {
    && indegree.Keys == known
    && forall v :: v in known ==> indegree[v] + multiset(released)[v] == Waiting(edges, v, done)
  }

  ghost predicate Worklist(known: set<NodeId>, excluded: set<NodeId>, indegree: map<NodeId, int>, ready: seq<NodeId>) {
    && indegree.Keys == known
    && Distinct(ready)
    && forall v :: v in ready <==> v in known && v !in excluded && indegree[v] == 0
  }

  /** Everything the main loop keeps true between two pops. */
  ghost predicate LoopState(known: set<NodeId>, edges: seq<Edge>, indegree: map<NodeId, int>,
                            ready: seq<NodeId>, popped: seq<NodeId>) {
    && Distinct(popped) && Elements(popped) <= known
    && Counts(known, edges, Elements(popped), [], indegree)
    && Worklist(known, Elements(popped), indegree, ready)
    && Ordered(edges, popped)
  }

  /** Appending a node all of whose predecessors were popped keeps the popped nodes ordered. */
  lemma PopKeepsOrder(edges: seq<Edge>, popped: seq<NodeId>, u: NodeId)
    requires u !in popped && Ordered(edges, popped)
    requires forall e :: e in edges && e.target == u ==> e.source in popped
    ensures Ordered(edges, popped + [u])
  {
    var popped' := popped + [u];
    forall e | e in edges && e.target in popped' ensures Precedes(popped', e.source, e.target) {
      if e.target == u {
        var i :| 0 <= i < |popped| && popped[i] == e.source;
        assert popped'[i] == e.source && popped'[|popped|] == u;
      } else {
        var i, j :| 0 <= i < j < |popped| && popped[i] == e.source && popped[j] == e.target;
        assert popped'[i] == e.source && popped'[j] == e.target;
      }
    }
  }

  lemma SuccessorIsPending(known: set<NodeId>, edges: seq<Edge>, popped: seq<NodeId>, u: NodeId, v: NodeId)
    requires forall e :: e in edges ==> EdgeOk(known, e)
    requires Ordered(edges, popped) && u !in popped && Edge(u, v) in edges
    ensures v in known && v !in Elements(popped) + {u}
  {
    assert EdgeOk(known, Edge(u, v));
    assert v in popped ==> Precedes(popped, Edge(u, v).source, Edge(u, v).target);
  }

  lemma CountsRelease(known: set<NodeId>, edges: seq<Edge>, done: set<NodeId>, u: NodeId, released: seq<NodeId>,
                      indegree: map<NodeId, int>, v: NodeId)
    requires Counts(known, edges, done, released, indegree)
    requires v in known && u !in done && released + [v] <= Successors(edges, u)
    ensures indegree[v] > 0 && Counts(known, edges, done, released + [v], indegree[v := indegree[v] - 1])
  {
    PoppingReleasesSuccessors(edges, v, done, u);
    var succ, n := Successors(edges, u), |released| + 1;
    assert succ == succ[..n] + succ[n..] && succ[..n] == released + [v];
    assert multiset(succ)[v] >= multiset(released)[v] + 1;
  }

  lemma CountsPopped(known: set<NodeId>, edges: seq<Edge>, done: set<NodeId>, u: NodeId, indegree: map<NodeId, int>)
    requires u !in done && Counts(known, edges, done, Successors(edges, u), indegree)
    ensures Counts(known, edges, done + {u}, [], indegree)
  {
    forall v | v in known ensures indegree[v] == Waiting(edges, v, done + {u}) {
      PoppingReleasesSuccessors(edges, v, done, u);
    }
  }

  lemma WorklistRelease(known: set<NodeId>, excluded: set<NodeId>, indegree: map<NodeId, int>, ready: seq<NodeId>, v: NodeId)
    requires Worklist(known, excluded, indegree, ready)
    requires v in known && v !in excluded && indegree[v] > 0
    ensures Worklist(known, excluded, indegree[v := indegree[v] - 1],
                     if indegree[v] == 1 then ready + [v] else ready)
  {
    var ready' := if indegree[v] == 1 then ready + [v] else ready;
    assert v !in ready;
    assert forall w :: w in ready' <==> w in ready || (indegree[v] == 1 && w == v);
  }

  /** The inner loop: releasing the successors of the node popped from the end of the worklist. */
  method ReleaseSuccessors(ghost known: set<NodeId>, ghost edges: seq<Edge>, ghost popped: seq<NodeId>,
                           u: NodeId, successors: seq<NodeId>, indegree0: map<NodeId, int>, ready0: seq<NodeId>)
    returns (indegree: map<NodeId, int>, ready: seq<NodeId>)
    requires forall e :: e in edges ==> EdgeOk(known, e)
    requires successors == Successors(edges, u)
    requires u in known && u !in popped && Ordered(edges, popped)
    requires Counts(known, edges, Elements(popped), [], indegree0)
    requires Worklist(known, Elements(popped) + {u}, indegree0, ready0)
    ensures Counts(known, edges, Elements(popped) + {u}, [], indegree)
    ensures Worklist(known, Elements(popped) + {u}, indegree, ready)
  {
    indegree, ready := indegree0, ready0;
    ghost var done := Elements(popped);
    Prefixes(successors, 0);
    for j := 0 to |successors|
      invariant Counts(known, edges, done, successors[..j], indegree)
      invariant Worklist(known, done + {u}, indegree, ready)
    {
      var v := successors[j];
      Prefixes(successors, j);
      SuccessorIsPending(known, edges, popped, u, v);
      CountsRelease(known, edges, done, u, successors[..j], indegree, v);
      WorklistRelease(known, done + {u}, indegree, ready, v);
      indegree := indegree[v := indegree[v] - 1];
      if indegree[v] == 0 {
        ready := ready + [v];
      }
    }
    CountsPopped(known, edges, done, u, indegree);
  }

  method InitialWorklist(nodes: seq<NodeId>, indegree: map<NodeId, int>) returns (ready: seq<NodeId>)
    requires Distinct(nodes) && indegree.Keys == Elements(nodes)
    ensures Worklist(Elements(nodes), {}, indegree, ready)
  {
    ready := [];
    Prefixes(nodes, 0);
    for k := 0 to |nodes|
      invariant Distinct(ready)
      invariant forall v :: v in ready <==> v in nodes[..k] && indegree[v] == 0
    {
      assert nodes[k] in nodes;
      Prefixes(nodes, k);
      if indegree[nodes[k]] == 0 {
        assert nodes[k] !in nodes[..k];
        ready := ready + [nodes[k]];
      }
    }
  }

  lemma PopStep(known: set<NodeId>, edges: seq<Edge>, indegree: map<NodeId, int>, rest: seq<NodeId>, u: NodeId, popped: seq<NodeId>)
    requires LoopState(known, edges, indegree, rest + [u], popped)
    ensures u in known && u !in popped && Distinct(popped + [u])
    ensures Elements(popped + [u]) == Elements(popped) + {u}
    ensures Worklist(known, Elements(popped) + {u}, indegree, rest)
    ensures Ordered(edges, popped + [u])
  {
    assert u in rest + [u];
    assert forall v :: v in rest + [u] <==> v in rest || v == u;
    assert forall i :: 0 <= i < |rest| ==> rest[i] == (rest + [u])[i] && (rest + [u])[i] != (rest + [u])[|rest|];
    assert Waiting(edges, u, Elements(popped)) == 0;
    PopKeepsOrder(edges, popped, u);
  }

  /** Kahn's loop: pops until nothing is ready and reports how many nodes were popped. */
  method PopAll(nodes: seq<NodeId>, ghost edges: seq<Edge>, successors: map<NodeId, seq<NodeId>>,
                indegree0: map<NodeId, int>) returns (visited: nat, ghost popped: seq<NodeId>)
    requires Distinct(nodes) && (forall e :: e in edges ==> EdgeOk(Elements(nodes), e))
    requires TablesBuilt(nodes, edges, successors, indegree0)
    ensures visited == |popped|
    ensures Distinct(popped) && Elements(popped) <= Elements(nodes) && Ordered(edges, popped)
    ensures forall v :: v in nodes && v !in popped ==> Waiting(edges, v, Elements(popped)) > 0
  {
    ghost var known := Elements(nodes);
    var indegree := indegree0;
    var ready := InitialWorklist(nodes, indegree);
    visited, popped := 0, [];
    assert Elements(popped) == {};
    while ready != []
      invariant LoopState(known, edges, indegree, ready, popped)
      invariant visited == |popped|
      decreases known - Elements(popped)
    {
      var u := ready[|ready| - 1];
      var rest := ready[..|ready| - 1];
      assert ready == rest + [u];
      PopStep(known, edges, indegree, rest, u, popped);
      visited := visited + 1;
      indegree, ready := ReleaseSuccessors(known, edges, popped, u, successors[u], indegree, rest);
      popped := popped + [u];
    }
  }

  /** When nodes remain, each of them waits for another that remains. */
  lemma RemainderIsCyclic(known: set<NodeId>, edges: seq<Edge>, done: set<NodeId>)
    requires forall e :: e in edges ==> EdgeOk(known, e)
    requires forall v :: v in known - done ==> Waiting(edges, v, done) > 0
    requires known - done != {}
    ensures Cyclic(edges)
  {
    var stuck := known - done;
    forall v | v in stuck ensures exists u :: u in stuck && Edge(u, v) in edges {
      var e :| e in edges && e.target == v && e.source !in done;
      assert e == Edge(e.source, v) && EdgeOk(known, e);
    }
    StuckMeansCyclic(edges, stuck);
  }

  /** Counting is enough: popping as many nodes as there are pops them all. */
  lemma PoppedAllOrStuck(nodes: seq<NodeId>, edges: seq<Edge>, popped: seq<NodeId>)
    requires Distinct(nodes) && (forall e :: e in edges ==> EdgeOk(Elements(nodes), e))
    requires Distinct(popped) && Elements(popped) <= Elements(nodes) && Ordered(edges, popped)
    requires forall v :: v in nodes && v !in popped ==> Waiting(edges, v, Elements(popped)) > 0
    ensures |popped| == |nodes| ==> IsTopological(popped, edges) && Elements(popped) == Elements(nodes) && !Cyclic(edges)
    ensures |popped| != |nodes| ==> Cyclic(edges)
  {
    DistinctSize(nodes);
    DistinctSize(popped);
    if |popped| == |nodes| {
      SubsetOfSameSize(Elements(popped), Elements(nodes));
      forall e | e in edges ensures Precedes(popped, e.source, e.target) {
        assert EdgeOk(Elements(nodes), e) && e.target in Elements(popped);
      }
      TopologicalMeansAcyclic(popped, edges);
    } else {
      SubsetOfSameSize(Elements(popped), Elements(nodes));
      RemainderIsCyclic(Elements(nodes), edges, Elements(popped));
    }
  }

  /** The plan check. Its answer is exactly `Verdict`, and an accepted plan has an execution order. */
  method ValidateDag(nodes: seq<NodeId>, edges: seq<Edge>) returns (r: Result<(), PlanError>)
    ensures r == Verdict(nodes, edges)
    ensures r.Ok? ==> exists order: seq<NodeId> :: IsTopological(order, edges) && Elements(order) == Elements(nodes)
  {
    var known := Elements(nodes);
    DistinctSize(nodes);
    if |known| != |nodes| {
      return Err(DuplicateNode);
    }
    var error, successors, indegree := BuildTables(nodes, edges);
    if error.Some? {
      return Err(error.value);
    }
    var visited, popped := PopAll(nodes, edges, successors, indegree);
    PoppedAllOrStuck(nodes, edges, popped);
    if visited != |nodes| {
      return Err(Cycle);
    }
    return Ok(());
  }
}
