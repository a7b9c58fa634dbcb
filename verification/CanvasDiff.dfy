/** The full diff: its summary counts, the older change list built from it, and its rendering. */
module CanvasDiff {
  import opened Seqs
  import opened Json
  import opened GraphDiff
  import opened CanvasPatch
  import opened CanvasRoundTrip
  import opened CanvasClassify

  // ── computeFullDiff ──────────────────────────────────────────────────────

  datatype Summary = Summary(nodesAdded: nat, nodesRemoved: nat, nodesRenamed: nat, nodesMoved: nat,
                             nodesConfigChanged: nat, nodesTypeChanged: nat, edgesAdded: nat, edgesRemoved: nat,
                             edgesRewired: nat, totalChanges: nat)

  datatype FullDiff = FullDiff(patch: seq<Op>, semanticChanges: seq<Change>, summary: Summary, legacy: seq<Legacy>)

  /** filter(...).length */
  method CountChanges(changes: seq<Change>, what: ChangeType) returns (n: nat)
    ensures n == CountOf(changes, what)
  {
    n := 0;
    for i := 0 to |changes|
      invariant n == CountOf(changes[..i], what)
    {
      TakeStep(changes, i);
      if changes[i].what == what {
        n := n + 1;
      }
    }
    assert changes[..|changes|] == changes;
  }

  method Summarize(changes: seq<Change>) returns (s: Summary)
    ensures s.nodesAdded == CountOf(changes, NodeAdded) && s.nodesRemoved == CountOf(changes, NodeRemoved)
    ensures s.nodesRenamed == CountOf(changes, NodeRenamed) && s.nodesMoved == CountOf(changes, NodeMoved)
    ensures s.nodesConfigChanged == CountOf(changes, NodeConfigChanged)
    ensures s.nodesTypeChanged == CountOf(changes, NodeTypeChanged)
    ensures s.edgesAdded == CountOf(changes, EdgeAdded) && s.edgesRemoved == CountOf(changes, EdgeRemoved)
    ensures s.edgesRewired == CountOf(changes, EdgeRewired)
    ensures s.nodesAdded + s.nodesRemoved + s.nodesRenamed + s.nodesMoved + s.nodesConfigChanged + s.nodesTypeChanged
          + s.edgesAdded + s.edgesRemoved + s.edgesRewired == s.totalChanges == |changes|
  {
    var nodesAdded := CountChanges(changes, NodeAdded);
    var nodesRemoved := CountChanges(changes, NodeRemoved);
    var nodesRenamed := CountChanges(changes, NodeRenamed);
    var nodesMoved := CountChanges(changes, NodeMoved);
    var nodesConfigChanged := CountChanges(changes, NodeConfigChanged);
    var nodesTypeChanged := CountChanges(changes, NodeTypeChanged);
    var edgesAdded := CountChanges(changes, EdgeAdded);
    var edgesRemoved := CountChanges(changes, EdgeRemoved);
    var edgesRewired := CountChanges(changes, EdgeRewired);
    CountsAddUp(changes);
    s := Summary(nodesAdded, nodesRemoved, nodesRenamed, nodesMoved, nodesConfigChanged, nodesTypeChanged,
                 edgesAdded, edgesRemoved, edgesRewired, |changes|);
  }

  ghost predicate AllNamed(from: Graph, to: Graph) {
    Named(from.nodes) && Named(to.nodes) && Named(from.edges) && Named(to.edges)
  }

  /** With printable ids the summary accounts for the difference in size, node and edge. */
  method ComputeFullDiff(from: Graph, to: Graph, order: KeyOrder) returns (d: FullDiff)
    ensures d.patch == GraphPatch(from, to, order) && d.semanticChanges == Classified(from, to, d.patch)
    ensures AllNamed(from, to) ==>
              && |Keys(from.nodes)| + d.summary.nodesAdded - d.summary.nodesRemoved == |Keys(to.nodes)|
              && |Keys(from.edges)| + d.summary.edgesAdded - d.summary.edgesRemoved == |Keys(to.edges)|
    ensures AllNamed(from, to) && DistinctIds(from.nodes) && DistinctIds(to.nodes) ==>
              |from.nodes| + d.summary.nodesAdded - d.summary.nodesRemoved == |to.nodes|
    ensures AllNamed(from, to) && DistinctIds(from.edges) && DistinctIds(to.edges) ==>
              |from.edges| + d.summary.edgesAdded - d.summary.edgesRemoved == |to.edges|
    ensures d.summary.totalChanges == |d.semanticChanges|
    ensures d.legacy == LegacyChanges(from, to, d.semanticChanges)
  {
    var patch := ComputeGraphPatch(from, to, order);
    var semanticChanges := ClassifyPatch(from, to, patch);
    if AllNamed(from, to) {
      CountsAreConserved(from, to, order);
    }
    KeysCountIff(from.nodes);
    KeysCountIff(to.nodes);
    KeysCountIff(from.edges);
    KeysCountIff(to.edges);
    hide DistinctIds;
    hide GraphPatch;
    hide Classified;
    hide CountOf;
    hide Keys;
    var summary := Summarize(semanticChanges);
    var legacy := BuildLegacyChanges(from, to, semanticChanges);
    d := FullDiff(patch, semanticChanges, summary, legacy);
  }

  // ── buildLegacyChanges ───────────────────────────────────────────────────

  datatype Legacy =
    | NodeWasAdded(id: string)
    | NodeWasRemoved(id: string)
    | NodeWasModified(id: string, detail: ChangeType)
    | EdgeWasAdded(id: string, edge: Json)
    | EdgeWasRemoved(id: string, edge: Json)

  function AddedEdge(g: Graph, id: string): seq<Legacy> {
    match Get(g.edges, id)
    case None => []
    case Some(e) => [EdgeWasAdded(id, e)]
  }

  function RemovedEdge(g: Graph, id: string): seq<Legacy> {
    match Get(g.edges, id)
    case None => []
    case Some(e) => [EdgeWasRemoved(id, e)]
  }

  function LegacyOf(from: Graph, to: Graph, c: Change): seq<Legacy> {
    match c.what
    case NodeAdded => [NodeWasAdded(c.id)]
    case NodeRemoved => [NodeWasRemoved(c.id)]
    case EdgeAdded => AddedEdge(to, c.id)
    case EdgeRemoved => RemovedEdge(from, c.id)
    case EdgeRewired => RemovedEdge(from, c.id) + AddedEdge(to, c.id)
    case _ => [NodeWasModified(c.id, c.what)]
  }

  function LegacyChanges(from: Graph, to: Graph, changes: seq<Change>): seq<Legacy> {
    if changes == [] then []
    else LegacyChanges(from, to, changes[..|changes| - 1]) + LegacyOf(from, to, changes[|changes| - 1])
  }

  method BuildLegacyChanges(from: Graph, to: Graph, semantic: seq<Change>) returns (changes: seq<Legacy>)
    ensures changes == LegacyChanges(from, to, semantic)
  {
    hide LegacyOf;
    changes := [];
    for i := 0 to |semantic|
      invariant changes == LegacyChanges(from, to, semantic[..i])
    {
      TakeStep(semantic, i);
      changes := changes + LegacyOf(from, to, semantic[i]);
    }
    assert semantic[..|semantic|] == semantic;
  }

  /** The change an older entry stands for; an edge is shown as it is where it still or already exists. */
  predicate StandsFor(from: Graph, to: Graph, entry: Legacy, c: Change) {
    && c.id == entry.id
    && match entry
       case NodeWasAdded(_) => c.what == NodeAdded
       case NodeWasRemoved(_) => c.what == NodeRemoved
       case NodeWasModified(_, detail) => IsFieldChange(detail) && c.what == detail
       case EdgeWasAdded(id, e) => (c.what == EdgeAdded || c.what == EdgeRewired) && Get(to.edges, id) == Some(e)
       case EdgeWasRemoved(id, e) => (c.what == EdgeRemoved || c.what == EdgeRewired) && Get(from.edges, id) == Some(e)
  }

  lemma LegacyOfOne(from: Graph, to: Graph, c: Change, entry: Legacy)
    ensures entry in LegacyOf(from, to, c) <==> StandsFor(from, to, entry, c)
  {
    hide Get;
  }

  ghost predicate SomeStandsFor(from: Graph, to: Graph, changes: seq<Change>, entry: Legacy) {
    exists i :: 0 <= i < |changes| && StandsFor(from, to, entry, changes[i])
  }

  lemma SomeStandsSnoc(from: Graph, to: Graph, changes: seq<Change>, c: Change, entry: Legacy)
    ensures SomeStandsFor(from, to, changes + [c], entry) <==>
              SomeStandsFor(from, to, changes, entry) || StandsFor(from, to, entry, c)
  {
    hide StandsFor;
    var all := changes + [c];
    assert all[|changes|] == c;
    assert forall i :: 0 <= i < |changes| ==> all[i] == changes[i];
  }

  lemma LegacySnoc(from: Graph, to: Graph, changes: seq<Change>, c: Change)
    ensures LegacyChanges(from, to, changes + [c]) == LegacyChanges(from, to, changes) + LegacyOf(from, to, c)
  {
    hide LegacyOf;
    assert (changes + [c])[..|changes|] == changes;
  }

  /** The older list has exactly the entries that stand for some change. */
  lemma {:induction false} LegacyIff(from: Graph, to: Graph, changes: seq<Change>, entry: Legacy)
    ensures entry in LegacyChanges(from, to, changes) <==>
              SomeStandsFor(from, to, changes, entry)
    decreases |changes|
  {
    if changes != [] {
      var front, c := changes[..|changes| - 1], changes[|changes| - 1];
      assert changes == front + [c];
      hide *;
      LegacyIff(from, to, front, entry);
      LegacyOfOne(from, to, c, entry);
      SomeStandsSnoc(from, to, front, c, entry);
      LegacySnoc(from, to, front, c);
    }
  }

  /** Edges shown as coming minus edges shown as going. */
  function EdgeBalance(changes: seq<Legacy>): int {
    if changes == [] then 0
    else
      var last := changes[|changes| - 1];
      EdgeBalance(changes[..|changes| - 1]) + (if last.EdgeWasAdded? then 1 else if last.EdgeWasRemoved? then -1 else 0)
  }

  lemma {:induction false} BalanceConcat(x: seq<Legacy>, y: seq<Legacy>)
    ensures EdgeBalance(x + y) == EdgeBalance(x) + EdgeBalance(y)
    decreases |y|
  {
    if y == [] {
      assert x + y == x;
    } else {
      assert (x + y)[..|x + y| - 1] == x + y[..|y| - 1];
      BalanceConcat(x, y[..|y| - 1]);
    }
  }

  /** The edges a change speaks of are where it says. */
  ghost predicate Grounded(from: Graph, to: Graph, c: Change) {
    && (c.what == EdgeAdded || c.what == EdgeRewired ==> Get(to.edges, c.id).Some?)
    && (c.what == EdgeRemoved || c.what == EdgeRewired ==> Get(from.edges, c.id).Some?)
  }

  lemma BalanceOfOne(one: Legacy)
    ensures EdgeBalance([one]) == if one.EdgeWasAdded? then 1 else if one.EdgeWasRemoved? then -1 else 0
  {
    assert [one][..0] == [];
  }

  lemma LegacyOfBalance(from: Graph, to: Graph, c: Change)
    requires Grounded(from, to, c)
    ensures EdgeBalance(LegacyOf(from, to, c)) ==
              (if c.what == EdgeAdded then 1 else 0) - (if c.what == EdgeRemoved then 1 else 0)
  {
    var u, v := Get(from.edges, c.id), Get(to.edges, c.id);
    if u.Some? {
      BalanceOfOne(EdgeWasRemoved(c.id, u.value));
    }
    if v.Some? {
      BalanceOfOne(EdgeWasAdded(c.id, v.value));
    }
    BalanceOfOne(NodeWasAdded(c.id));
    BalanceOfOne(NodeWasRemoved(c.id));
    BalanceOfOne(NodeWasModified(c.id, c.what));
    hide Get;
    hide EdgeBalance;
    BalanceConcat(RemovedEdge(from, c.id), AddedEdge(to, c.id));
  }

  lemma {:induction false} LegacyBalance(from: Graph, to: Graph, changes: seq<Change>)
    requires forall i :: 0 <= i < |changes| ==> Grounded(from, to, changes[i])
    ensures EdgeBalance(LegacyChanges(from, to, changes)) == CountOf(changes, EdgeAdded) - CountOf(changes, EdgeRemoved)
    decreases |changes|
  {
    if changes != [] {
      hide Grounded;
      hide LegacyOf;
      hide EdgeBalance;
      var n := |changes| - 1;
      LegacyBalance(from, to, changes[..n]);
      LegacyOfBalance(from, to, changes[n]);
      BalanceConcat(LegacyChanges(from, to, changes[..n]), LegacyOf(from, to, changes[n]));
    }
  }

  lemma ItemGrounded(from: Graph, to: Graph, order: KeyOrder, id: string)
    requires GoodKey(id)
    ensures var patch := GraphPatch(from, to, order);
            forall i :: 0 <= i < |ClassifyItem(EdgeKind, from.edges, to.edges, id, OpsOf(EdgeKind, patch, id))| ==>
              Grounded(from, to, ClassifyItem(EdgeKind, from.edges, to.edges, id, OpsOf(EdgeKind, patch, id))[i])
  {
    var patch := GraphPatch(from, to, order);
    var ops := OpsOf(EdgeKind, patch, id);
    PatchIsExact(EdgeKind, from, to, order, id);
    KeysAreIds(from.edges);
    KeysAreIds(to.edges);
    hide GraphPatch;
    hide OpsOf;
    hide HasAdd;
    hide HasRemove;
    hide Get;
    hide Keys;
    hide Prefix;
    hide Rewires;
    hide Paths;
  }

  lemma {:induction false} EdgesGrounded(from: Graph, to: Graph, order: KeyOrder, keys: seq<string>)
    requires forall i :: 0 <= i < |keys| ==> GoodKey(keys[i])
    ensures var patch := GraphPatch(from, to, order);
            forall i :: 0 <= i < |ClassifyGroups(EdgeKind, from.edges, to.edges, patch, keys)| ==>
              Grounded(from, to, ClassifyGroups(EdgeKind, from.edges, to.edges, patch, keys)[i])
    decreases |keys|
  {
    if keys != [] {
      var n := |keys| - 1;
      EdgesGrounded(from, to, order, keys[..n]);
      hide GraphPatch;
      hide ClassifyItem;
      hide OpsOf;
      hide Grounded;
      hide GoodKey;
      ItemGrounded(from, to, order, keys[n]);
    }
  }

  lemma {:induction false} NodesGrounded(from: Graph, to: Graph, patch: seq<Op>, keys: seq<string>)
    ensures forall i :: 0 <= i < |ClassifyGroups(NodeKind, from.nodes, to.nodes, patch, keys)| ==>
              Grounded(from, to, ClassifyGroups(NodeKind, from.nodes, to.nodes, patch, keys)[i])
    decreases |keys|
  {
    if keys != [] {
      var n := |keys| - 1;
      NodesGrounded(from, to, patch, keys[..n]);
      FieldChangesKinds(keys[n], OpsOf(NodeKind, patch, keys[n]));
      hide FieldChanges;
      hide OpsOf;
      hide HasAdd;
      hide HasRemove;
      hide Get;
      hide Prefix;
    }
  }

  /** The older list, in which a rewired edge is a removal and an addition, conserves edges as well. */
  lemma LegacyConservesEdges(from: Graph, to: Graph, order: KeyOrder)
    requires AllNamed(from, to)
    ensures var changes := Classified(from, to, GraphPatch(from, to, order));
            |Keys(from.edges)| + EdgeBalance(LegacyChanges(from, to, changes)) == |Keys(to.edges)|
  {
    var patch := GraphPatch(from, to, order);
    GroupsAreSegments(EdgeKind, patch);
    CountsAreConserved(from, to, order);
    hide *;
    NodesGrounded(from, to, patch, Groups(NodeKind, patch));
    EdgesGrounded(from, to, order, Groups(EdgeKind, patch));
    ClassifiedParts(from, to, patch);
    LegacyBalance(from, to, Classified(from, to, patch));
  }

  lemma ClassifiedParts(from: Graph, to: Graph, patch: seq<Op>)
    ensures Classified(from, to, patch)
         == ClassifyGroups(NodeKind, from.nodes, to.nodes, patch, Groups(NodeKind, patch))
          + ClassifyGroups(EdgeKind, from.edges, to.edges, patch, Groups(EdgeKind, patch))
  {
  }

  // ── renderSemanticDiff ───────────────────────────────────────────────────

  datatype Group = Nodes | Connections | Configuration

  function GroupFor(what: ChangeType): Group {
    match what
    case NodeConfigChanged => Configuration
    case EdgeAdded => Connections
    case EdgeRemoved => Connections
    case EdgeRewired => Connections
    case _ => Nodes
  }

  predicate Breaking(what: ChangeType) {
    what == NodeRemoved || what == NodeTypeChanged || what == EdgeRewired
  }

  datatype Rendered = Rendered(nodes: seq<Change>, edges: seq<Change>, config: seq<Change>, totalCount: nat,
                               hasBreaking: bool)

  function InGroup(changes: seq<Change>, group: Group): seq<Change> {
    if changes == [] then []
    else
      var n := |changes| - 1;
      InGroup(changes[..n], group) + (if GroupFor(changes[n].what) == group then [changes[n]] else [])
  }

  /** Every change lands in exactly one group, in order; a break is reported exactly when one is there. */
  method RenderSemanticDiff(changes: seq<Change>) returns (r: Rendered)
    ensures r.nodes == InGroup(changes, Nodes) && r.edges == InGroup(changes, Connections)
    ensures r.config == InGroup(changes, Configuration)
    ensures |r.nodes| + |r.edges| + |r.config| == r.totalCount == |changes|
    ensures r.hasBreaking <==> exists i :: 0 <= i < |changes| && Breaking(changes[i].what)
  {
    var nodes: seq<Change>, edges: seq<Change>, config: seq<Change> := [], [], [];
    var hasBreaking := false;
    for i := 0 to |changes|
      invariant nodes == InGroup(changes[..i], Nodes) && edges == InGroup(changes[..i], Connections)
      invariant config == InGroup(changes[..i], Configuration)
      invariant |nodes| + |edges| + |config| == i
      invariant hasBreaking <==> exists j :: 0 <= j < i && Breaking(changes[j].what)
    {
      TakeStep(changes, i);
      var change := changes[i];
      match change.what {
        case NodeConfigChanged => config := config + [change];
        case EdgeAdded => edges := edges + [change];
        case EdgeRemoved => edges := edges + [change];
        case EdgeRewired =>
          hasBreaking := true;
          edges := edges + [change];
        case NodeRemoved =>
          hasBreaking := true;
          nodes := nodes + [change];
        case NodeTypeChanged =>
          hasBreaking := true;
          nodes := nodes + [change];
        case _ => nodes := nodes + [change];
      }
    }
    assert changes[..|changes|] == changes;
    r := Rendered(nodes, edges, config, |changes|, hasBreaking);
  }
}
