/** The editor's graph queries: cycle listing and reachability. */
module CanvasGraph {
  import opened Seqs
  import opened Graphs
  import Validator

  // ── Adjacency ────────────────────────────────────────────────────────────

  /** Sources in the order of their first edge: the key order of the adjacency map. */
  function Sources(edges: seq<Edge>): seq<Id> {
    if edges == [] then []
    else
      var before, u := Sources(edges[..|edges| - 1]), edges[|edges| - 1].source;
      if u in before then before else before + [u]
  }

  lemma {:induction false} SourcesMembers(edges: seq<Edge>)
    ensures forall u :: u in Sources(edges) <==> exists e :: e in edges && e.source == u
  {
    if edges != [] {
      var n := |edges| - 1;
      SourcesMembers(edges[..n]);
      assert edges == edges[..n] + [edges[n]];
      assert edges[n] in edges;
    }
  }

  /** adj.get(u) ?? [] is the list of u's edge targets. */
  ghost predicate Represents(adj: map<Id, seq<Id>>, edges: seq<Edge>) {
    forall u: Id :: Neighbors(adj, u) == Successors(edges, u)
  }

  function Neighbors(adj: map<Id, seq<Id>>, u: Id): seq<Id> {
    if u in adj then adj[u] else []
  }

  lemma AdjacencyStep(adj: map<Id, seq<Id>>, edges: seq<Edge>, i: nat)
    requires i < |edges| && Represents(adj, edges[..i])
    ensures var e := edges[i];
            Represents(adj[e.source := Neighbors(adj, e.source) + [e.target]], edges[..i + 1])
  {
    EdgeStep(edges, i);
    hide Successors;
    var e := edges[i];
    var after := adj[e.source := Neighbors(adj, e.source) + [e.target]];
    forall u: Id ensures Neighbors(after, u) == Successors(edges[..i + 1], u) {
      assert Successors(edges[..i], u) + [] == Successors(edges[..i], u);
    }
  }

  method BuildAdjacency(edges: seq<Edge>) returns (adj: map<Id, seq<Id>>, keys: seq<Id>)
    ensures Represents(adj, edges) && keys == Sources(edges)
  {
    adj, keys := map[], [];
    for i := 0 to |edges|
      invariant keys == Sources(edges[..i])
      invariant forall u :: u in adj <==> u in keys
      invariant Represents(adj, edges[..i])
    {
      TakeStep(edges, i);
      AdjacencyStep(adj, edges, i);
      hide Represents;
      var e := edges[i];
      ghost var before := adj;
      if e.source !in adj {
        adj := adj[e.source := []];
        keys := keys + [e.source];
      }
      adj := adj[e.source := adj[e.source] + [e.target]];
      assert adj == before[e.source := Neighbors(before, e.source) + [e.target]];
    }
    assert edges[..|edges|] == edges;
  }

  // ── detectCycles ─────────────────────────────────────────────────────────

  /** A closed walk that ends where it began and visits nothing else twice. */
  ghost predicate SimpleCycle(edges: seq<Edge>, c: seq<Id>) {
    |c| >= 2 && c[0] == c[|c| - 1] && IsPath(edges, c) && NoDup(c[..|c| - 1])
  }

  lemma PathTailIsCycle(edges: seq<Edge>, path: seq<Id>, i: nat)
    requires NoDup(path) && IsPath(edges, path) && i < |path| && Edge(path[|path| - 1], path[i]) in edges
    ensures SimpleCycle(edges, path[i..] + [path[i]])
  {
    SubPath(edges, path, i, |path|);
    JoinPaths(edges, path[i..], [path[|path| - 1], path[i]]);
    assert path[i..] + [path[|path| - 1], path[i]][1..] == path[i..] + [path[i]];
    var c := path[i..] + [path[i]];
    assert c[..|c| - 1] == path[i..];
  }

  /** u to v is the edge that closes one of the lists. */
  ghost predicate Closes(cycles: seq<seq<Id>>, u: Id, v: Id) {
    exists i :: 0 <= i < |cycles| && |cycles[i]| >= 2 && cycles[i][|cycles[i]| - 2] == u
        && cycles[i][|cycles[i]| - 1] == v
  }

  /** The edges without those that close a list. */
  ghost function Opened(edges: seq<Edge>, cycles: seq<seq<Id>>): seq<Edge> {
    Restrict(edges, set e | e in edges && !Closes(cycles, e.source, e.target))
  }

  lemma OpenedMembers(edges: seq<Edge>, cycles: seq<seq<Id>>)
    ensures forall e :: e in Opened(edges, cycles) <==> e in edges && !Closes(cycles, e.source, e.target)
  {
    hide Closes;
    RestrictMembers(edges, set e | e in edges && !Closes(cycles, e.source, e.target));
  }

  lemma ClosesGrows(cycles: seq<seq<Id>>, more: seq<seq<Id>>, u: Id, v: Id)
    requires cycles <= more && Closes(cycles, u, v)
    ensures Closes(more, u, v)
  {
    var i :| 0 <= i < |cycles| && |cycles[i]| >= 2 && cycles[i][|cycles[i]| - 2] == u
        && cycles[i][|cycles[i]| - 1] == v;
    assert more[i] == cycles[i];
  }

  /** Closing further edges keeps what is settled. */
  lemma OpenedSettled(edges: seq<Edge>, cycles: seq<seq<Id>>, more: seq<seq<Id>>, order: seq<Id>)
    requires cycles <= more && Validator.Settled(Opened(edges, cycles), order)
    ensures Validator.Settled(Opened(edges, more), order)
  {
    OpenedMembers(edges, cycles);
    OpenedMembers(edges, more);
    hide Opened;
    forall e | e in Opened(edges, more) ensures e in Opened(edges, cycles) {
      if Closes(cycles, e.source, e.target) {
        ClosesGrows(cycles, more, e.source, e.target);
      }
    }
  }

  lemma OpenedExtend(edges: seq<Edge>, cycles: seq<seq<Id>>, order: seq<Id>, u: Id)
    requires Validator.Settled(Opened(edges, cycles), order)
    requires forall v :: v in Successors(edges, u) ==> v in order || Closes(cycles, u, v)
    ensures Validator.Settled(Opened(edges, cycles), order + [u])
  {
    OpenedMembers(edges, cycles);
    SuccessorsAreEdges(edges, u);
    SuccessorsAreEdges(Opened(edges, cycles), u);
    hide Opened;
    hide Closes;
    hide Validator.Settled;
    hide Successors;
    Validator.SettledExtend(Opened(edges, cycles), order, u);
  }

  lemma LastListCloses(cycles: seq<seq<Id>>, c: seq<Id>)
    requires |c| >= 2
    ensures Closes(cycles + [c], c[|c| - 2], c[|c| - 1])
  {
    assert (cycles + [c])[|cycles|] == c;
  }

  /** Ghost: the ids left for good, oldest first, and every id an edge mentions. */
  class CycleFinder {
    const adj: map<Id, seq<Id>>
    ghost const edges: seq<Edge>
    ghost const universe: set<Id>
    var visited: set<Id>
    var recStack: set<Id>
    var path: seq<Id>
    var cycles: seq<seq<Id>>
    ghost var finished: seq<Id>

    constructor (adj: map<Id, seq<Id>>, ghost edges: seq<Edge>, ghost universe: set<Id>)
      requires Represents(adj, edges) && Targets(edges) <= universe
      ensures this.adj == adj && this.edges == edges && this.universe == universe
      ensures Valid() && path == [] && cycles == [] && visited == {}
    {
      this.adj, this.edges, this.universe := adj, edges, universe;
      visited, recStack, path, cycles, finished := {}, {}, [], [], [];
    }

    ghost predicate Bookkeeping()
      reads this
    {
      && Represents(adj, edges) && Targets(edges) <= universe
      && recStack == SetOf(path) && NoDup(path)
      && visited == SetOf(path) + SetOf(finished) && SetOf(path) !! SetOf(finished) && visited <= universe
      && NoDup(finished)
      && (path != [] ==> IsPath(edges, path))
    }

    /** But for the edges that close a list, every id left for good leads only to ids left before it. */
    ghost predicate Valid()
      reads this
    {
      && Bookkeeping()
      && (forall c :: c in cycles ==> SimpleCycle(edges, c))
      && Validator.Settled(Opened(edges, cycles), finished)
    }

    method Dfs(node: Id)
      requires Valid() && node in universe && (path != [] ==> Edge(path[|path| - 1], node) in edges)
      modifies this
      ensures Valid() && path == old(path) && old(visited) <= visited && node in visited
      ensures old(finished) <= finished && old(cycles) <= cycles
      ensures node in finished || (path != [] && Closes(cycles, path[|path| - 1], node))
      decreases universe - visited, 1
    {
      if node in recStack {
        var cycleStart := IndexOf(path, node);
        if cycleStart >= 0 {
          PathTailIsCycle(edges, path, cycleStart);
          ghost var c := path[cycleStart..] + [node];
          assert c[|c| - 2] == path[|path| - 1];
          LastListCloses(cycles, c);
          OpenedSettled(edges, cycles, cycles + [c], finished);
          cycles := cycles + [path[cycleStart..] + [node]];
        }
        return;
      }
      if node in visited {
        return;
      }
      Visit(node);
    }

    lemma Entered(node: Id)
      requires Bookkeeping() && node !in visited && (path != [] ==> Edge(path[|path| - 1], node) in edges)
      ensures SetOf(path + [node]) == SetOf(path) + {node} && NoDup(path + [node]) && IsPath(edges, path + [node])
    {
      if path != [] {
        JoinPaths(edges, path, [path[|path| - 1], node]);
        assert path + [path[|path| - 1], node][1..] == path + [node];
      }
    }

    lemma Left(before: seq<Id>, node: Id)
      requires Bookkeeping() && path == before + [node]
      ensures SetOf(path) == SetOf(before) + {node} && node !in before && NoDup(before)
      ensures before != [] ==> IsPath(edges, before)
      ensures SetOf(finished + [node]) == SetOf(finished) + {node} && node !in finished
    {
      NoDupConcat(before, [node]);
      assert node in SetOf(path);
      assert node !in SetOf(finished);
      assert node in [node];
      assert path[..|before|] == before;
      if before != [] {
        SubPath(edges, path, 0, |before|);
      }
    }

    method Visit(node: Id)
      requires Valid() && node in universe && node !in visited
      requires path != [] ==> Edge(path[|path| - 1], node) in edges
      modifies this
      ensures Valid() && path == old(path) && old(visited) <= visited && node in visited
      ensures old(finished) <= finished && old(cycles) <= cycles && node in finished
      decreases universe - visited, 0
    {
      Entered(node);
      visited, recStack, path := visited + {node}, recStack + {node}, path + [node];
      Explore(node);
      Leave(node, old(path));
    }

    method Explore(node: Id)
      requires Valid() && path != [] && path[|path| - 1] == node
      modifies this
      ensures Valid() && path == old(path) && old(visited) <= visited
      ensures old(finished) <= finished && old(cycles) <= cycles
      ensures forall v :: v in Successors(edges, node) ==> v in finished || Closes(cycles, node, v)
      decreases universe - visited, 2
    {
      var next := Neighbors(adj, node);
      SuccessorsAreEdges(edges, node);
      hide Validator.Settled;
      for k := 0 to |next|
        invariant Valid() && path == old(path) && old(visited) <= visited
        invariant old(finished) <= finished && old(cycles) <= cycles
        invariant forall i :: 0 <= i < k ==> next[i] in finished || Closes(cycles, node, next[i])
      {
        assert next[k] in next;
        assert Edge(node, next[k]) in edges;
        ghost var before := cycles;
        Dfs(next[k]);
        forall i | 0 <= i < k && Closes(before, node, next[i]) ensures Closes(cycles, node, next[i]) {
          ClosesGrows(before, cycles, node, next[i]);
        }
      }
    }

    method Leave(node: Id, ghost before: seq<Id>)
      requires Valid() && path == before + [node]
      requires forall v :: v in Successors(edges, node) ==> v in finished || Closes(cycles, node, v)
      modifies this`path, this`recStack, this`finished
      ensures Valid() && path == before && finished == old(finished) + [node]
    {
      Left(before, node);
      OpenedExtend(edges, cycles, finished, node);
      NoDupAppend(finished, node);
      hide Validator.Settled;
      hide SimpleCycle;
      hide Successors;
      hide NoDup;
      hide IsPath;
      hide Represents;
      hide Opened;
      hide Closes;
      path := path[..|path| - 1];
      recStack := recStack - {node};
      finished := finished + [node];
    }
  }

  /** A node on a cycle is the source of an edge. */
  lemma CycleHasSource(edges: seq<Edge>, u: Id)
    requires OnCycle(edges, u)
    ensures u in Sources(edges)
  {
    var p :| PathFromTo(edges, p, u, u) && |p| >= 2;
    assert Edge(p[0], p[0 + 1]) in edges;
    SourcesMembers(edges);
  }

  lemma SettledHasNoCycle(edges: seq<Edge>, order: seq<Id>, u: Id)
    requires Validator.Settled(edges, order) && NoDup(order) && u in order
    ensures !OnCycle(edges, u)
  {
    Validator.SettledReachNoCycle(edges, order, u);
    assert PathFromTo(edges, [u], u, u);
  }

  lemma SimpleCycleIsCycle(edges: seq<Edge>, c: seq<Id>)
    requires SimpleCycle(edges, c)
    ensures OnCycle(edges, c[0])
  {
    assert PathFromTo(edges, c, c[0], c[0]);
  }

  /** What is settled has no cycle. */
  lemma OpenedIsAcyclic(edges: seq<Edge>, cycles: seq<seq<Id>>, order: seq<Id>)
    requires Validator.Settled(Opened(edges, cycles), order) && NoDup(order)
    requires forall u :: u in Sources(edges) ==> u in order
    ensures forall u :: !OnCycle(Opened(edges, cycles), u)
  {
    var rest := Opened(edges, cycles);
    OpenedMembers(edges, cycles);
    SourcesMembers(edges);
    SourcesMembers(rest);
    hide Opened;
    hide Sources;
    forall u ensures !OnCycle(rest, u) {
      if OnCycle(rest, u) {
        CycleHasSource(rest, u);
        assert u in order;
        SettledHasNoCycle(rest, order, u);
      }
    }
  }

  lemma NothingClosed(edges: seq<Edge>, u: Id)
    requires OnCycle(edges, u)
    ensures OnCycle(Opened(edges, []), u)
  {
    OpenedMembers(edges, []);
    hide Opened;
    var p :| PathFromTo(edges, p, u, u) && |p| >= 2;
    assert PathFromTo(Opened(edges, []), p, u, u);
  }

  /**
   * Every list is a simple cycle, the result is empty exactly for an acyclic edge relation, and without
   * the edges that close the lists there is no cycle: no cyclic part goes unreported.
   */
  method DetectCycles(edges: seq<Edge>) returns (cycles: seq<seq<Id>>)
    ensures forall c :: c in cycles ==> SimpleCycle(edges, c)
    ensures cycles == [] <==> forall u :: !OnCycle(edges, u)
    ensures forall u :: !OnCycle(Opened(edges, cycles), u)
  {
    var adj, keys := BuildAdjacency(edges);
    ghost var universe := SetOf(keys) + Targets(edges);
    var finder := new CycleFinder(adj, edges, universe);
    for k := 0 to |keys|
      invariant finder.Valid() && finder.path == [] && fresh(finder)
      invariant finder.edges == edges && finder.universe == universe
      invariant forall i :: 0 <= i < k ==> keys[i] in finder.finished
    {
      finder.Dfs(keys[k]);
    }
    cycles := finder.cycles;
    OpenedIsAcyclic(edges, cycles, finder.finished);
    if cycles == [] {
      forall u ensures !OnCycle(edges, u) {
        if OnCycle(edges, u) {
          NothingClosed(edges, u);
        }
      }
    } else {
      assert cycles[0] in cycles;
      SimpleCycleIsCycle(edges, cycles[0]);
    }
  }

  // ── Reachability ─────────────────────────────────────────────────────────

  /** By at least one edge: a node is downstream of itself only on a cycle. */
  ghost predicate Downstream(edges: seq<Edge>, u: Id, v: Id) {
    exists p :: PathFromTo(edges, p, u, v) && |p| >= 2
  }

  lemma DownstreamStep(edges: seq<Edge>, start: Id, u: Id, v: Id)
    requires (u == start || Downstream(edges, start, u)) && Edge(u, v) in edges
    ensures Downstream(edges, start, v)
  {
    if Downstream(edges, start, u) {
      var p :| PathFromTo(edges, p, start, u) && |p| >= 2;
      JoinPaths(edges, p, [u, v]);
      assert |p + [u, v][1..]| >= 2;
    } else {
      assert PathFromTo(edges, [u, v], start, v);
    }
  }

  lemma {:induction false} ClosedUnderPaths(edges: seq<Edge>, seen: set<Id>, p: seq<Id>)
    requires IsPath(edges, p) && p[0] in seen
    requires forall e :: e in edges && e.source in seen ==> e.target in seen
    ensures p[|p| - 1] in seen
    decreases |p|
  {
    if |p| >= 2 {
      assert Edge(p[0], p[0 + 1]) in edges;
      SubPath(edges, p, 1, |p|);
      ClosedUnderPaths(edges, seen, p[1..]);
    }
  }

  /** Walking order: an edge leads to each listed id from the start or from an id listed before it. */
  ghost predicate Rooted(edges: seq<Edge>, start: Id, ids: seq<Id>) {
    forall i :: 0 <= i < |ids| ==> LedTo(edges, start, ids[..i], ids[i])
  }

  ghost predicate LedTo(edges: seq<Edge>, start: Id, before: seq<Id>, v: Id) {
    exists u :: (u == start || u in before) && Edge(u, v) in edges
  }

  lemma RootedSnoc(edges: seq<Edge>, start: Id, ids: seq<Id>, u: Id, v: Id)
    requires Rooted(edges, start, ids) && (u == start || u in ids) && Edge(u, v) in edges
    ensures Rooted(edges, start, ids + [v])
  {
    assert LedTo(edges, start, ids, v);
    hide LedTo;
    var all := ids + [v];
    forall i | 0 <= i < |all| ensures LedTo(edges, start, all[..i], all[i]) {
      assert all[..i] == ids[..i];
      assert ids[..|ids|] == ids;
    }
  }

  class Reach {
    const adj: map<Id, seq<Id>>
    ghost const edges: seq<Edge>
    ghost const start: Id
    var visited: set<Id>
    var result: seq<Id>

    constructor (adj: map<Id, seq<Id>>, ghost edges: seq<Edge>, ghost start: Id)
      requires Represents(adj, edges)
      ensures this.adj == adj && this.edges == edges && this.start == start
      ensures Valid() && visited == {}
    {
      this.adj, this.edges, this.start := adj, edges, start;
      visited, result := {}, [];
    }

    ghost predicate Valid()
      reads this
    {
      && Represents(adj, edges)
      && visited == SetOf(result) && NoDup(result) && visited <= Targets(edges)
      && (forall v :: v in visited ==> Downstream(edges, start, v))
      && Rooted(edges, start, result)
    }

    /** Outside the open calls, whoever is visited has all its targets visited. */
    ghost predicate ClosedExcept(open: set<Id>)
      reads this
    {
      forall e :: e in edges && e.source in visited && e.source !in open ==> e.target in visited
    }

    method Dfs(id: Id, ghost open: set<Id>)
      requires Valid() && id in open && ClosedExcept(open)
      requires id == start || id in visited
      modifies this
      ensures Valid() && ClosedExcept(open) && old(visited) <= visited
      ensures forall v :: v in Successors(edges, id) ==> v in visited
      decreases Targets(edges) - visited, 1
    {
      var next := Neighbors(adj, id);
      SuccessorsAreEdges(edges, id);
      hide Downstream;
      hide Rooted;
      for k := 0 to |next|
        invariant Valid() && ClosedExcept(open) && old(visited) <= visited
        invariant forall i :: 0 <= i < k ==> next[i] in visited
      {
        var neighbor := next[k];
        assert neighbor in next;
        if neighbor !in visited {
          Discover(id, neighbor, open);
        }
      }
    }

    method Discover(ghost id: Id, neighbor: Id, ghost open: set<Id>)
      requires Valid() && id in open && ClosedExcept(open) && (id == start || id in visited)
      requires Edge(id, neighbor) in edges && neighbor !in visited
      modifies this
      ensures Valid() && ClosedExcept(open) && old(visited) <= visited && neighbor in visited
      decreases Targets(edges) - visited, 0
    {
      DownstreamStep(edges, start, id, neighbor);
      RootedSnoc(edges, start, result, id, neighbor);
      hide Downstream;
      hide Rooted;
      hide Successors;
      NoDupAppend(result, neighbor);
      hide NoDup;
      visited := visited + {neighbor};
      result := result + [neighbor];
      Dfs(neighbor, open + {neighbor});
      CloseOne(open, neighbor);
    }

    lemma CloseOne(open: set<Id>, v: Id)
      requires ClosedExcept(open + {v}) && forall x :: x in Successors(edges, v) ==> x in visited
      ensures ClosedExcept(open)
    {
      SuccessorsAreEdges(edges, v);
      forall e | e in edges && e.source in visited && e.source !in open ensures e.target in visited {
        if e.source == v {
          assert e == Edge(v, e.target);
        }
      }
    }
  }

  /** Without repeats, exactly the ids a non-empty path leads to; cyclic graphs included. */
  method Walk(edges: seq<Edge>, nodeId: Id) returns (result: seq<Id>)
    ensures NoDup(result) && Rooted(edges, nodeId, result)
    ensures forall v :: v in result <==> Downstream(edges, nodeId, v)
  {
    var adj, keys := BuildAdjacency(edges);
    var reach := new Reach(adj, edges, nodeId);
    reach.Dfs(nodeId, {nodeId});
    reach.CloseOne({}, nodeId);
    result := reach.result;
    hide Rooted;
    hide Represents;
    forall v | Downstream(edges, nodeId, v) ensures v in result {
      var p :| PathFromTo(edges, p, nodeId, v) && |p| >= 2;
      assert Edge(p[0], p[0 + 1]) in edges;
      SuccessorsAreEdges(edges, nodeId);
      SubPath(edges, p, 1, |p|);
      ClosedUnderPaths(edges, reach.visited, p[1..]);
    }
  }

  method GetDownstreamNodes(g: Graph, nodeId: Id) returns (result: seq<Id>)
    ensures NoDup(result) && Rooted(g.edges, nodeId, result)
    ensures forall v :: v in result <==> Downstream(g.edges, nodeId, v)
  {
    result := Walk(g.edges, nodeId);
  }

  // ── Upstream: the same over the turned edges ─────────────────────────────

  function Turn(edges: seq<Edge>): (r: seq<Edge>)
    ensures |r| == |edges|
    ensures forall i :: 0 <= i < |r| ==> r[i] == Edge(edges[i].target, edges[i].source)
  {
    seq(|edges|, i requires 0 <= i < |edges| => Edge(edges[i].target, edges[i].source))
  }

  lemma TurnMembers(edges: seq<Edge>, u: Id, v: Id)
    ensures Edge(u, v) in Turn(edges) <==> Edge(v, u) in edges
  {
    if Edge(u, v) in Turn(edges) {
      var i :| 0 <= i < |edges| && Turn(edges)[i] == Edge(u, v);
      assert edges[i] == Edge(v, u);
    }
    if Edge(v, u) in edges {
      var i :| 0 <= i < |edges| && edges[i] == Edge(v, u);
      assert Turn(edges)[i] == Edge(u, v);
    }
  }

  lemma TurnPath(edges: seq<Edge>, p: seq<Id>)
    requires IsPath(Turn(edges), p)
    ensures IsPath(edges, Reverse(p))
  {
    var r, n := Reverse(p), |p|;
    forall i | 0 <= i < n - 1 ensures Edge(r[i], r[i + 1]) in edges {
      var k := n - 2 - i;
      assert Edge(p[k], p[k + 1]) in Turn(edges);
      TurnMembers(edges, p[k], p[k + 1]);
    }
  }

  lemma TurnTwice(edges: seq<Edge>)
    ensures Turn(Turn(edges)) == edges
  {
  }

  lemma TurnDownstream(edges: seq<Edge>, u: Id, v: Id)
    ensures Downstream(Turn(edges), u, v) <==> Downstream(edges, v, u)
  {
    if Downstream(Turn(edges), u, v) {
      var p :| PathFromTo(Turn(edges), p, u, v) && |p| >= 2;
      TurnPath(edges, p);
      assert PathFromTo(edges, Reverse(p), v, u);
    }
    if Downstream(edges, v, u) {
      var p :| PathFromTo(edges, p, v, u) && |p| >= 2;
      TurnTwice(edges);
      TurnPath(Turn(edges), p);
      assert PathFromTo(Turn(edges), Reverse(p), u, v);
    }
  }

  /** Exactly the ids from which a non-empty path leads here. */
  method GetUpstreamNodes(g: Graph, nodeId: Id) returns (result: seq<Id>)
    ensures NoDup(result) && Rooted(Turn(g.edges), nodeId, result)
    ensures forall u :: u in result <==> Downstream(g.edges, u, nodeId)
  {
    result := Walk(Turn(g.edges), nodeId);
    forall u ensures u in result <==> Downstream(g.edges, u, nodeId) {
      TurnDownstream(g.edges, nodeId, u);
    }
  }
}
