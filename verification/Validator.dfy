/** validateWorkflow: the structural checks and the depth-first cycle search, against Kahn's sort. */
module Validator {
  import opened Seqs
  import opened Graphs
  import opened Kahn

  datatype Finding =
    | DisconnectedNode(nodeId: Id)
    | MissingNodeType(nodeId: Id)
    | InvalidSource(edge: Edge)
    | InvalidTarget(edge: Edge)
    | CycleDetected(nodeId: Id)
  {
    /** type === "error"; a disconnected node is only a warning. */
    predicate IsError() { !DisconnectedNode? }
  }

  /** A walk along edges from r, of any length, meets a cycle. */
  ghost predicate ReachesCycle(edges: seq<Edge>, r: Id) {
    exists u :: Reaches(edges, r, u) && OnCycle(edges, u)
  }

  /** Every edge out of a listed id leads to an id listed before it. */
  ghost predicate Settled(edges: seq<Edge>, order: seq<Id>) {
    forall j, e :: 0 <= j < |order| && e in edges && e.source == order[j] ==> e.target in order[..j]
  }

  lemma {:induction false} SettledPath(edges: seq<Edge>, order: seq<Id>, p: seq<Id>, j: nat)
    requires Settled(edges, order) && IsPath(edges, p) && j < |order| && p[0] == order[j]
    ensures p[|p| - 1] in order[..j + 1]
    ensures |p| >= 2 ==> p[|p| - 1] in order[..j]
    decreases |p|
  {
    if |p| >= 2 {
      assert Edge(p[0], p[0 + 1]) in edges;
      var i :| 0 <= i < j && order[i] == p[1];
      SubPath(edges, p, 1, |p|);
      SettledPath(edges, order, p[1..], i);
      assert order[..i + 1] <= order[..j];
    }
  }

  lemma SettledReachNoCycle(edges: seq<Edge>, order: seq<Id>, r: Id)
    requires Settled(edges, order) && NoDup(order) && r in order
    ensures !ReachesCycle(edges, r)
  {
    if u :| Reaches(edges, r, u) && OnCycle(edges, u) {
      var p :| PathFromTo(edges, p, r, u);
      var q :| PathFromTo(edges, q, u, u) && |q| >= 2;
      var j :| 0 <= j < |order| && order[j] == r;
      SettledPath(edges, order, p, j);
      var i :| 0 <= i < |order| && order[i] == u;
      SettledPath(edges, order, q, i);
      assert false;
    }
  }

  lemma SettledExtend(edges: seq<Edge>, order: seq<Id>, u: Id)
    requires Settled(edges, order)
    requires forall v :: v in Successors(edges, u) ==> v in order
    ensures Settled(edges, order + [u])
  {
    SuccessorsAreEdges(edges, u);
    var d := order + [u];
    forall j, e | 0 <= j < |d| && e in edges && e.source == d[j] ensures e.target in d[..j] {
      assert d[..j] == order[..j];
      assert e == Edge(d[j], e.target);
    }
  }

  /** The stack, closed by an edge back into it, is a cycle its root reaches. */
  lemma BackEdgeShowsCycle(edges: seq<Edge>, stack: seq<Id>, u: Id)
    requires IsPath(edges, stack) && Edge(stack[|stack| - 1], u) in edges && u in stack
    ensures ReachesCycle(edges, stack[0])
  {
    var i :| 0 <= i < |stack| && stack[i] == u;
    SubPath(edges, stack, 0, i + 1);
    assert PathFromTo(edges, stack[..i + 1], stack[0], u);
    SubPath(edges, stack, i, |stack|);
    JoinPaths(edges, stack[i..], [stack[|stack| - 1], u]);
    assert OnCycle(edges, u);
  }

  /** The search's captured state. Ghost: the ids already left for good, oldest first. */
  class CycleSearch {
    const edges: seq<Edge>
    var visited: set<Id>
    var inStack: set<Id>
    ghost var finished: seq<Id>
    ghost const universe: set<Id>

    constructor (g: Graph)
      ensures edges == g.edges && universe == Keys(g)
      ensures Valid([]) && visited == {} && finished == []
    {
      edges, visited, inStack, finished, universe := g.edges, {}, {}, [], Keys(g);
    }

    ghost predicate Valid(stack: seq<Id>)
      reads this
    {
      && inStack == SetOf(stack)
      && visited == SetOf(stack) + SetOf(finished)
      && SetOf(stack) !! SetOf(finished)
      && NoDup(finished)
      && Settled(edges, finished)
      && (stack != [] ==> IsPath(edges, stack))
      && visited <= universe && Targets(edges) <= universe
    }

    /** stack: the chain of open calls; the new id is entered from its top. */
    method HasCycle(nodeId: Id, ghost stack: seq<Id>) returns (found: bool)
      requires Valid(stack) && nodeId in universe
      requires stack != [] ==> Edge(stack[|stack| - 1], nodeId) in edges
      modifies this
      ensures !found ==> Valid(stack) && nodeId in finished && old(finished) <= finished
      ensures found ==> ReachesCycle(edges, (stack + [nodeId])[0])
      decreases universe - visited
    {
      if nodeId in inStack {
        BackEdgeShowsCycle(edges, stack, nodeId);
        return true;
      }
      if nodeId in visited {
        return false;
      }
      found := Explore(nodeId, stack);
    }

    method Explore(nodeId: Id, ghost stack: seq<Id>) returns (found: bool)
      requires Valid(stack) && nodeId in universe && nodeId !in visited
      requires stack != [] ==> Edge(stack[|stack| - 1], nodeId) in edges
      modifies this
      ensures !found ==> Valid(stack) && nodeId in finished && old(finished) <= finished
      ensures found ==> ReachesCycle(edges, (stack + [nodeId])[0])
      decreases universe - visited, 0
    {
      ghost var deeper := stack + [nodeId];
      EnterStack(stack, nodeId);
      visited := visited + {nodeId};
      inStack := inStack + {nodeId};
      var outgoing := Successors(edges, nodeId);
      SuccessorsAreEdges(edges, nodeId);
      for k := 0 to |outgoing|
        invariant Valid(deeper) && old(visited) < visited
        invariant old(finished) <= finished
        invariant forall i :: 0 <= i < k ==> outgoing[i] in finished
      {
        assert outgoing[k] in outgoing;
        assert Edge(nodeId, outgoing[k]) in edges;
        ghost var before := visited;
        var below := HasCycle(outgoing[k], deeper);
        if below {
          assert (deeper + [outgoing[k]])[0] == deeper[0];
          return true;
        }
      }
      LeaveStack(stack, nodeId, finished);
      inStack := inStack - {nodeId};
      finished := finished + [nodeId];
      return false;
    }

    lemma EnterStack(stack: seq<Id>, nodeId: Id)
      requires Valid(stack) && nodeId in universe && nodeId !in visited
      requires stack != [] ==> Edge(stack[|stack| - 1], nodeId) in edges
      ensures SetOf(stack + [nodeId]) == inStack + {nodeId}
      ensures IsPath(edges, stack + [nodeId])
    {
      if stack != [] {
        JoinPaths(edges, stack, [stack[|stack| - 1], nodeId]);
        assert stack + [stack[|stack| - 1], nodeId][1..] == stack + [nodeId];
      }
    }

    lemma LeaveStack(stack: seq<Id>, nodeId: Id, fin: seq<Id>)
      requires nodeId !in stack && fin == finished
      requires Valid(stack + [nodeId])
      requires forall v :: v in Successors(edges, nodeId) ==> v in fin
      ensures Settled(edges, fin + [nodeId]) && NoDup(fin + [nodeId])
      ensures SetOf(fin + [nodeId]) == SetOf(fin) + {nodeId}
      ensures inStack - {nodeId} == SetOf(stack)
      ensures stack != [] ==> IsPath(edges, stack)
    {
      assert nodeId in SetOf(stack + [nodeId]);
      assert nodeId !in SetOf(fin);
      SettledExtend(edges, fin, nodeId);
      if stack != [] {
        SubPath(edges, stack + [nodeId], 0, |stack|);
        assert (stack + [nodeId])[..|stack|] == stack;
      }
    }
  }

  // ── The structural checks ────────────────────────────────────────────────

  function ConnectedIds(edges: seq<Edge>): set<Id> {
    (set e | e in edges :: e.source) + Targets(edges)
  }

  predicate Untyped(n: Node) {
    n.nodeTypeId == "" && n.kind == ""
  }

  function FindingsOfNode(g: Graph, n: Node): seq<Finding> {
    (if n.id !in ConnectedIds(g.edges) && |g.nodes| > 1 then [DisconnectedNode(n.id)] else [])
    + (if Untyped(n) then [MissingNodeType(n.id)] else [])
  }

  function NodeFindings(g: Graph, nodes: seq<Node>): seq<Finding> {
    if nodes == [] then []
    else NodeFindings(g, nodes[..|nodes| - 1]) + FindingsOfNode(g, nodes[|nodes| - 1])
  }

  function FindingsOfEdge(g: Graph, e: Edge): seq<Finding> {
    (if e.source !in NodeIds(g) then [InvalidSource(e)] else [])
    + (if e.target !in NodeIds(g) then [InvalidTarget(e)] else [])
  }

  function EdgeFindings(g: Graph, edges: seq<Edge>): seq<Finding> {
    if edges == [] then []
    else EdgeFindings(g, edges[..|edges| - 1]) + FindingsOfEdge(g, edges[|edges| - 1])
  }

  /** The node named in the finding is the first listed one from which a cycle can be reached. */
  ghost predicate CycleFinding(g: Graph, found: seq<Finding>) {
    || (found == [] && forall n :: n in g.nodes ==> !ReachesCycle(g.edges, n.id))
    || exists k :: && 0 <= k < |g.nodes| && found == [CycleDetected(g.nodes[k].id)]
                   && ReachesCycle(g.edges, g.nodes[k].id)
                   && forall i :: 0 <= i < k ==> !ReachesCycle(g.edges, g.nodes[i].id)
  }

  method SearchCycles(g: Graph) returns (found: seq<Finding>)
    ensures CycleFinding(g, found)
  {
    var search := new CycleSearch(g);
    for k := 0 to |g.nodes|
      invariant search.Valid([]) && fresh(search)
      invariant search.edges == g.edges && search.universe == Keys(g)
      invariant forall i :: 0 <= i < k ==> g.nodes[i].id in search.finished
    {
      var id := g.nodes[k].id;
      assert id in NodeIds(g);
      if id !in search.visited {
        ghost var before := search.finished;
        forall i | 0 <= i < k ensures !ReachesCycle(g.edges, g.nodes[i].id) {
          SettledReachNoCycle(g.edges, before, g.nodes[i].id);
        }
        var cyclic := search.HasCycle(id, []);
        if cyclic {
          return [CycleDetected(id)];
        }
      }
    }
    forall n | n in g.nodes ensures !ReachesCycle(g.edges, n.id) {
      SettledReachNoCycle(g.edges, search.finished, n.id);
    }
    found := [];
  }

  method CheckNode(g: Graph, n: Node, errors: seq<Finding>) returns (r: seq<Finding>)
    ensures r == errors + FindingsOfNode(g, n)
  {
    r := errors;
    if n.id !in ConnectedIds(g.edges) && |g.nodes| > 1 {
      r := r + [DisconnectedNode(n.id)];
    }
    if n.nodeTypeId == "" && n.kind == "" {
      r := r + [MissingNodeType(n.id)];
    }
  }

  method CheckEdge(g: Graph, e: Edge, errors: seq<Finding>) returns (r: seq<Finding>)
    ensures r == errors + FindingsOfEdge(g, e)
  {
    r := errors;
    if e.source !in NodeIds(g) {
      r := r + [InvalidSource(e)];
    }
    if e.target !in NodeIds(g) {
      r := r + [InvalidTarget(e)];
    }
  }

  method CheckNodes(g: Graph) returns (errors: seq<Finding>)
    ensures errors == NodeFindings(g, g.nodes)
  {
    hide FindingsOfNode;
    errors := [];
    for i := 0 to |g.nodes|
      invariant errors == NodeFindings(g, g.nodes[..i])
    {
      TakeStep(g.nodes, i);
      errors := CheckNode(g, g.nodes[i], errors);
    }
    assert g.nodes[..|g.nodes|] == g.nodes;
  }

  method CheckEdges(g: Graph) returns (errors: seq<Finding>)
    ensures errors == EdgeFindings(g, g.edges)
  {
    hide FindingsOfEdge;
    errors := [];
    for i := 0 to |g.edges|
      invariant errors == EdgeFindings(g, g.edges[..i])
    {
      TakeStep(g.edges, i);
      errors := CheckEdge(g, g.edges[i], errors);
    }
    assert g.edges[..|g.edges|] == g.edges;
  }

  method ValidateWorkflow(g: Graph) returns (errors: seq<Finding>)
    ensures exists cycle :: CycleFinding(g, cycle)
              && errors == NodeFindings(g, g.nodes) + EdgeFindings(g, g.edges) + cycle
  {
    var nodeErrors := CheckNodes(g);
    var edgeErrors := CheckEdges(g);
    var cycle := SearchCycles(g);
    errors := nodeErrors + edgeErrors + cycle;
  }

  // ── What the findings mean ───────────────────────────────────────────────

  /** No edge starts or ends here. */
  ghost predicate Isolated(edges: seq<Edge>, id: Id) {
    forall e :: e in edges ==> e.source != id && e.target != id
  }

  lemma ConnectedMeaning(edges: seq<Edge>, id: Id)
    ensures id !in ConnectedIds(edges) <==> Isolated(edges, id)
  {
  }

  /** Which findings the nodes give: a warning for an isolated one, an error for an untyped one. */
  lemma {:induction false} NodeFindingsMeaning(g: Graph, nodes: seq<Node>)
    ensures forall f :: f in NodeFindings(g, nodes) <==>
              || (exists n :: n in nodes && f == DisconnectedNode(n.id) && Isolated(g.edges, n.id) && |g.nodes| > 1)
              || (exists n :: n in nodes && f == MissingNodeType(n.id) && Untyped(n))
  {
    if nodes != [] {
      var k := |nodes| - 1;
      NodeFindingsMeaning(g, nodes[..k]);
      ConnectedMeaning(g.edges, nodes[k].id);
      assert nodes == nodes[..k] + [nodes[k]];
      assert nodes[k] in nodes;
      hide ConnectedIds;
      hide Isolated;
    }
  }

  lemma {:induction false} EdgeFindingsMeaning(g: Graph, edges: seq<Edge>)
    ensures forall f :: f in EdgeFindings(g, edges) <==>
              || (f.InvalidSource? && f.edge in edges && f.edge.source !in NodeIds(g))
              || (f.InvalidTarget? && f.edge in edges && f.edge.target !in NodeIds(g))
  {
    if edges != [] {
      var n := |edges| - 1;
      EdgeFindingsMeaning(g, edges[..n]);
      assert edges == edges[..n] + [edges[n]];
    }
  }

  lemma EdgesCleanIffNotDangling(g: Graph)
    ensures EdgeFindings(g, g.edges) == [] <==> NoDanglingEdges(g)
    ensures forall f :: f in EdgeFindings(g, g.edges) ==> f.IsError()
  {
    EdgeFindingsMeaning(g, g.edges);
    var found := EdgeFindings(g, g.edges);
    if found != [] {
      assert found[0] in found;
    } else {
      forall e | e in g.edges ensures e.source in NodeIds(g) && e.target in NodeIds(g) {
        assert InvalidSource(e) !in found && InvalidTarget(e) !in found;
      }
    }
  }

  /** With no dangling edges the search's finding appears exactly when Kahn's sort omits a node. */
  lemma ValidatorAgreesWithKahn(g: Graph, cycle: seq<Finding>)
    requires NoDanglingEdges(g) && CycleFinding(g, cycle)
    ensures cycle != [] <==> exists v :: v in NodeIds(g) && v !in KahnOrder(g)
  {
    KahnOmitsIffCyclic(g);
    if u :| OnCycle(g.edges, u) {
      var p :| PathFromTo(g.edges, p, u, u) && |p| >= 2;
      assert Edge(p[0], p[0 + 1]) in g.edges;
      assert u in NodeIds(g);
      assert PathFromTo(g.edges, [u], u, u);
      assert ReachesCycle(g.edges, u);
    }
  }

  /** A graph that validates without errors is sorted completely, every edge pointing forward. */
  lemma ValidGraphSortsCompletely(g: Graph, errors: seq<Finding>, cycle: seq<Finding>)
    requires CycleFinding(g, cycle)
    requires errors == NodeFindings(g, g.nodes) + EdgeFindings(g, g.edges) + cycle
    requires forall f :: f in errors ==> !f.IsError()
    ensures NoDanglingEdges(g)
    ensures SetOf(KahnOrder(g)) == NodeIds(g) && NoDup(KahnOrder(g)) && Ordered(g.edges, KahnOrder(g))
  {
    EdgesCleanIffNotDangling(g);
    var edgeErrors := EdgeFindings(g, g.edges);
    hide EdgeFindings;
    hide NodeFindings;
    assert forall f :: f in edgeErrors || f in cycle ==> f in errors;
    assert forall f :: f !in edgeErrors;
    EmptyIffNoMembers(edgeErrors);
    assert forall f :: f in cycle ==> f.IsError();
    EmptyIffNoMembers(cycle);
    ValidatorAgreesWithKahn(g, cycle);
    KahnCharacterized(g);
  }

  lemma FindingsOf(g: Graph, errors: seq<Finding>, cycle: seq<Finding>, f: Finding)
    requires errors == NodeFindings(g, g.nodes) + EdgeFindings(g, g.edges) + cycle
    ensures f in errors <==> f in NodeFindings(g, g.nodes) || f in EdgeFindings(g, g.edges) || f in cycle
  {
    hide NodeFindings;
    hide EdgeFindings;
  }

  lemma NodesTypedIff(g: Graph)
    ensures (forall f :: f in NodeFindings(g, g.nodes) ==> !f.IsError()) <==> forall n :: n in g.nodes ==> !Untyped(n)
  {
    NodeFindingsMeaning(g, g.nodes);
    hide NodeFindings;
    hide Isolated;
    if n :| n in g.nodes && Untyped(n) {
      assert MissingNodeType(n.id) in NodeFindings(g, g.nodes) && MissingNodeType(n.id).IsError();
    }
  }

  /** Validation reports no error if and only if every node has a type and the sort takes the whole graph. */
  lemma ValidIffTypedAndSorted(g: Graph, errors: seq<Finding>, cycle: seq<Finding>)
    requires CycleFinding(g, cycle)
    requires errors == NodeFindings(g, g.nodes) + EdgeFindings(g, g.edges) + cycle
    ensures (forall f :: f in errors ==> !f.IsError()) <==>
              && (forall n :: n in g.nodes ==> !Untyped(n))
              && NoDanglingEdges(g) && SetOf(KahnOrder(g)) == NodeIds(g)
  {
    NodesTypedIff(g);
    EdgesCleanIffNotDangling(g);
    forall f ensures f in errors <==> f in NodeFindings(g, g.nodes) || f in EdgeFindings(g, g.edges) || f in cycle {
      FindingsOf(g, errors, cycle, f);
    }
    if forall f :: f in errors ==> !f.IsError() {
      hide *;
      ValidGraphSortsCompletely(g, errors, cycle);
    } else if NoDanglingEdges(g) && SetOf(KahnOrder(g)) == NodeIds(g) {
      ValidatorAgreesWithKahn(g, cycle);
      hide NodeFindings;
      hide EdgeFindings;
      hide CycleFinding;
      hide NoDanglingEdges;
      hide Untyped;
      assert forall v :: v in NodeIds(g) ==> v in SetOf(KahnOrder(g));
      hide KahnOrder;
      assert cycle == [];
    }
  }
}
