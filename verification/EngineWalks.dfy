/**
 * The engine's upstream and downstream walks. Unlike the editor's, they step only onto nodes that
 * exist, and they list a node once for every edge the walk crosses into it.
 */
module EngineWalks {
  import opened Seqs
  import opened Graphs
  import opened CanvasGraph

  /** The edges a walk can cross: those whose target is a node of the graph. */
  function Live(edges: seq<Edge>, ids: set<Id>): (r: seq<Edge>)
    ensures forall e :: e in r <==> e in edges && e.target in ids
  {
    if edges == [] then []
    else
      var n := |edges| - 1;
      assert edges == edges[..n] + [edges[n]];
      Live(edges[..n], ids) + (if edges[n].target in ids then [edges[n]] else [])
  }

  /** How many edges lead into v from the ids in `from`, parallel ones counted. */
  function IncomingFrom(edges: seq<Edge>, v: Id, from: set<Id>): nat {
    if edges == [] then 0
    else
      var e := edges[|edges| - 1];
      IncomingFrom(edges[..|edges| - 1], v, from) + (if e.target == v && e.source in from then 1 else 0)
  }

  lemma {:induction false} IncomingAdds(edges: seq<Edge>, v: Id, a: set<Id>, b: set<Id>)
    requires a !! b
    ensures IncomingFrom(edges, v, a + b) == IncomingFrom(edges, v, a) + IncomingFrom(edges, v, b)
  {
    if edges != [] {
      IncomingAdds(edges[..|edges| - 1], v, a, b);
    }
  }

  lemma {:induction false} IncomingNone(edges: seq<Edge>, v: Id)
    ensures IncomingFrom(edges, v, {}) == 0
  {
    if edges != [] {
      IncomingNone(edges[..|edges| - 1], v);
    }
  }

  lemma {:induction false} IncomingOne(edges: seq<Edge>, v: Id, u: Id)
    ensures IncomingFrom(edges, v, {u}) == Count(Successors(edges, u), v)
  {
    if edges != [] {
      var n := |edges| - 1;
      IncomingOne(edges[..n], v, u);
      hide Count;
      var s := Successors(edges[..n], u);
      CountAppend(s, edges[n].target, v);
      assert s + [] == s;
    }
  }

  /** What one call adds: an entry for every live edge out of the ids it visits. */
  ghost predicate Lists(more: seq<Id>, edges: seq<Edge>, ids: set<Id>, from: set<Id>) {
    forall v :: Count(more, v) == if v in ids then IncomingFrom(edges, v, from) else 0
  }

  /** In the middle of id's edges: the finished calls below, and the first k edges. */
  ghost predicate ListsPart(more: seq<Id>, edges: seq<Edge>, ids: set<Id>, from: set<Id>, crossed: seq<Id>) {
    forall v :: Count(more, v) == if v in ids then IncomingFrom(edges, v, from) + Count(crossed, v) else 0
  }

  lemma PartStarts(edges: seq<Edge>, ids: set<Id>)
    ensures ListsPart([], edges, ids, {}, [])
  {
    forall v ensures IncomingFrom(edges, v, {}) == 0 {
      IncomingNone(edges, v);
    }
  }

  lemma PartSkips(more: seq<Id>, edges: seq<Edge>, ids: set<Id>, from: set<Id>, crossed: seq<Id>, w: Id)
    requires ListsPart(more, edges, ids, from, crossed) && w !in ids
    ensures ListsPart(more, edges, ids, from, crossed + [w])
  {
    hide IncomingFrom;
    forall v ensures Count(crossed + [w], v) == Count(crossed, v) + if v == w then 1 else 0 {
      CountAppend(crossed, w, v);
    }
    hide Count;
  }

  /** Crossing one more edge: its target is listed, then the call below lists its own. */
  lemma PartCrosses(more: seq<Id>, edges: seq<Edge>, ids: set<Id>, from: set<Id>, crossed: seq<Id>, w: Id,
                    below: seq<Id>, reached: set<Id>)
    requires ListsPart(more, edges, ids, from, crossed) && w in ids && from !! reached
    requires Lists(below, edges, ids, reached)
    ensures ListsPart(more + [w] + below, edges, ids, from + reached, crossed + [w])
  {
    forall v ensures Count(more + [w] + below, v) ==
      if v in ids then IncomingFrom(edges, v, from + reached) + Count(crossed + [w], v) else 0
    {
      CountAppend(crossed, w, v);
      CountAppend(more, w, v);
      CountConcat(more + [w], below, v);
      IncomingAdds(edges, v, from, reached);
      hide Count;
      hide IncomingFrom;
    }
  }

  lemma PartEnds(more: seq<Id>, edges: seq<Edge>, ids: set<Id>, from: set<Id>, u: Id)
    requires ListsPart(more, edges, ids, from, Successors(edges, u)) && u !in from
    ensures Lists(more, edges, ids, from + {u})
  {
    forall v
      ensures IncomingFrom(edges, v, from + {u}) == IncomingFrom(edges, v, from) + Count(Successors(edges, u), v) {
      IncomingAdds(edges, v, from, {u});
      IncomingOne(edges, v, u);
    }
    hide Count;
    hide IncomingFrom;
    hide Successors;
  }

  class Walker {
    const g: Graph
    ghost const start: Id
    var visited: set<Id>
    var result: seq<Id>

    constructor (g: Graph, ghost start: Id)
      ensures this.g == g && this.start == start && visited == {} && result == []
    {
      this.g, this.start, visited, result := g, start, {}, [];
    }

    ghost predicate OnTheWay(id: Id) {
      id == start || Downstream(Live(g.edges, NodeIds(g)), start, id)
    }

    ghost predicate Valid()
      reads this
    {
      && visited <= NodeIds(g) + {start}
      && (forall v :: v in visited ==> OnTheWay(v))
      && InOrder()
    }

    ghost predicate InOrder()
      reads this
    {
      Rooted(Live(g.edges, NodeIds(g)), start, result) && forall v :: v in visited ==> v == start || v in result
    }

    /** Whoever is visited and not still open has all its live targets visited. */
    ghost predicate ClosedExcept(open: set<Id>)
      reads this
    {
      forall e :: e in g.edges && e.target in NodeIds(g) && e.source in visited && e.source !in open ==>
          e.target in visited
    }

    /** walk: the ghost result is what this call appended. */
    method Walk(id: Id, ghost open: set<Id>) returns (ghost more: seq<Id>)
      requires Valid() && ClosedExcept(open) && OnTheWay(id) && id in NodeIds(g) + {start}
      requires id == start || id in result
      modifies this
      ensures Valid() && ClosedExcept(open) && old(visited) <= visited && id in visited
      ensures result == old(result) + more && Lists(more, g.edges, NodeIds(g), visited - old(visited))
      decreases NodeIds(g) + {start} - visited, 0
    {
      more := [];
      if id in visited {
        forall v ensures IncomingFrom(g.edges, v, {}) == 0 {
          IncomingNone(g.edges, v);
        }
        assert visited - old(visited) == {};
        return;
      }
      visited := visited + {id};
      ghost var reached;
      more, reached := Cross(id, open + {id});
      assert reached + {id} == visited - old(visited);
      hide InOrder;
      Close(open, id);
    }

    /** The loop over id's outgoing edges. reached: the ids visited since id itself. */
    method Cross(id: Id, ghost open: set<Id>) returns (ghost more: seq<Id>, ghost reached: set<Id>)
      requires Valid() && ClosedExcept(open) && OnTheWay(id) && id in open && id in visited
      modifies this
      ensures Valid() && ClosedExcept(open) && visited == old(visited) + reached && old(visited) !! reached
      ensures result == old(result) + more && Lists(more, g.edges, NodeIds(g), reached + {id})
      ensures forall v :: v in Successors(g.edges, id) && v in NodeIds(g) ==> v in visited
      decreases NodeIds(g) + {start} - visited, 2
    {
      hide InOrder;
      hide OnTheWay;
      var outgoing := Successors(g.edges, id);
      SuccessorsAreEdges(g.edges, id);
      more, reached := [], {};
      PartStarts(g.edges, NodeIds(g));
      assert outgoing[..0] == [];
      hide *;
      for k := 0 to |outgoing|
        invariant Valid() && ClosedExcept(open) && visited == old(visited) + reached && old(visited) !! reached
        invariant result == old(result) + more
        invariant ListsPart(more, g.edges, NodeIds(g), reached, outgoing[..k])
        invariant forall i :: 0 <= i < k && outgoing[i] in NodeIds(g) ==> outgoing[i] in visited
      {
        TakeStep(outgoing, k);
        assert outgoing[k] in outgoing;
        if outgoing[k] in NodeIds(g) {
          more, reached := CrossOne(id, outgoing[k], open, old(visited), old(result), more, reached, outgoing[..k]);
        } else {
          PartSkips(more, g.edges, NodeIds(g), reached, outgoing[..k], outgoing[k]);
        }
      }
      assert outgoing[..|outgoing|] == outgoing;
      PartEnds(more, g.edges, NodeIds(g), reached, id);
    }

    /** One edge: list its target, then walk on from there. */
    method CrossOne(ghost id: Id, w: Id, ghost open: set<Id>, ghost base: set<Id>, ghost listed: seq<Id>,
                    ghost more: seq<Id>, ghost reached: set<Id>, ghost crossed: seq<Id>)
      returns (ghost after: seq<Id>, ghost further: set<Id>)
      requires Valid() && ClosedExcept(open) && OnTheWay(id) && visited == base + reached && base !! reached
      requires id in visited && Edge(id, w) in g.edges && w in NodeIds(g) && result == listed + more
      requires ListsPart(more, g.edges, NodeIds(g), reached, crossed)
      modifies this
      ensures Valid() && ClosedExcept(open) && w in visited && result == listed + after
      ensures visited == base + further && base !! further && reached <= further
      ensures ListsPart(after, g.edges, NodeIds(g), further, crossed + [w])
      decreases NodeIds(g) + {start} - visited, 1
    {
      StepOn(id, w);
      RootedSnoc(Live(g.edges, NodeIds(g)), start, result, id, w);
      hide *;
      ghost var seen := visited;
      result := result + [w];
      ghost var below := Walk(w, open);
      after, further := more + [w] + below, reached + (visited - seen);
      PartCrosses(more, g.edges, NodeIds(g), reached, crossed, w, below, visited - seen);
      Assoc(listed, more + [w], below);
      Assoc(listed, more, [w]);
    }

    lemma StepOn(id: Id, w: Id)
      requires OnTheWay(id) && Edge(id, w) in g.edges && w in NodeIds(g)
      ensures OnTheWay(w)
    {
      DownstreamStep(Live(g.edges, NodeIds(g)), start, id, w);
    }

    lemma Close(open: set<Id>, id: Id)
      requires ClosedExcept(open + {id})
      requires forall v :: v in Successors(g.edges, id) && v in NodeIds(g) ==> v in visited
      ensures ClosedExcept(open)
    {
      SuccessorsAreEdges(g.edges, id);
      forall e | e in g.edges && e.target in NodeIds(g) && e.source in visited && e.source !in open
        ensures e.target in visited {
        if e.source == id {
          assert e == Edge(id, e.target);
        }
      }
    }
  }

  /** The ids a walk stands on: the start, and whatever it leads to. */
  ghost predicate Walked(live: seq<Edge>, nodeId: Id, walked: set<Id>) {
    forall u :: u in walked <==> u == nodeId || Downstream(live, nodeId, u)
  }

  /** What a walk lists: once per edge into a node from the start or from a node on the way. */
  ghost predicate WalkListing(g: Graph, nodeId: Id, listed: seq<Id>) {
    var live := Live(g.edges, NodeIds(g));
    && (forall v :: v in listed <==> Downstream(live, nodeId, v))
    && Rooted(live, nodeId, listed)
    && exists walked: set<Id> :: Walked(live, nodeId, walked) && Lists(listed, g.edges, NodeIds(g), walked)
  }

  lemma ReachedIsVisited(g: Graph, nodeId: Id, visited: set<Id>, v: Id)
    requires nodeId in visited && Downstream(Live(g.edges, NodeIds(g)), nodeId, v)
    requires forall e :: e in g.edges && e.target in NodeIds(g) && e.source in visited ==> e.target in visited
    ensures v in visited
  {
    var live := Live(g.edges, NodeIds(g));
    var p :| PathFromTo(live, p, nodeId, v) && |p| >= 2;
    ClosedUnderPaths(live, visited, p);
  }

  lemma ListedIffReached(g: Graph, nodeId: Id, visited: set<Id>, listed: seq<Id>, v: Id)
    requires Walked(Live(g.edges, NodeIds(g)), nodeId, visited)
    requires Lists(listed, g.edges, NodeIds(g), visited)
    ensures v in listed <==> Downstream(Live(g.edges, NodeIds(g)), nodeId, v)
  {
    var live := Live(g.edges, NodeIds(g));
    CountZero(listed, v);
    IncomingZero(g.edges, v, visited);
    hide Count;
    hide IncomingFrom;
    hide Live;
    if Downstream(live, nodeId, v) {
      var u := LastEdge(live, nodeId, v);
      hide Downstream;
      assert Edge(u, v) in live && u in visited;
    }
    if v in listed {
      var e :| e in g.edges && e.target == v && e.source in visited;
      hide Downstream;
      assert e == Edge(e.source, v) && e in live;
      DownstreamStep(live, nodeId, e.source, v);
    }
  }

  lemma LastEdge(edges: seq<Edge>, u: Id, v: Id) returns (w: Id)
    requires Downstream(edges, u, v)
    ensures Edge(w, v) in edges && (w == u || Downstream(edges, u, w))
  {
    var p :| PathFromTo(edges, p, u, v) && |p| >= 2;
    var n := |p| - 1;
    w := p[n - 1];
    assert Edge(p[n - 1], p[n - 1 + 1]) in edges;
    if n >= 2 {
      SubPath(edges, p, 0, n);
      assert PathFromTo(edges, p[..n], u, w);
    }
  }

  lemma {:induction false} IncomingZero(edges: seq<Edge>, v: Id, from: set<Id>)
    ensures IncomingFrom(edges, v, from) == 0 <==> forall e :: e in edges && e.target == v ==> e.source !in from
  {
    if edges != [] {
      var n := |edges| - 1;
      IncomingZero(edges[..n], v, from);
      assert edges == edges[..n] + [edges[n]];
      assert edges[n] in edges;
    }
  }

  method WalkFrom(g: Graph, nodeId: Id) returns (listed: seq<Id>)
    ensures WalkListing(g, nodeId, listed)
  {
    var walker := new Walker(g, nodeId);
    ghost var more := walker.Walk(nodeId, {});
    listed := walker.result;
    assert listed == more && walker.visited - {} == walker.visited;
    forall v ensures v in walker.visited <==> v == nodeId || Downstream(Live(g.edges, NodeIds(g)), nodeId, v) {
      if Downstream(Live(g.edges, NodeIds(g)), nodeId, v) {
        ReachedIsVisited(g, nodeId, walker.visited, v);
      }
    }
    assert Walked(Live(g.edges, NodeIds(g)), nodeId, walker.visited);
    forall v ensures v in listed <==> Downstream(Live(g.edges, NodeIds(g)), nodeId, v) {
      ListedIffReached(g, nodeId, walker.visited, listed, v);
    }
  }

  method GetDownstreamNodes(g: Graph, nodeId: Id) returns (listed: seq<Id>)
    ensures WalkListing(g, nodeId, listed)
  {
    listed := WalkFrom(g, nodeId);
  }

  /** The same over the turned edges. */
  method GetUpstreamNodes(g: Graph, nodeId: Id) returns (listed: seq<Id>)
    ensures WalkListing(Graph(g.nodes, Turn(g.edges)), nodeId, listed)
  {
    listed := WalkFrom(Graph(g.nodes, Turn(g.edges)), nodeId);
  }

  lemma {:induction false} IncomingTwo(edges: seq<Edge>, v: Id, from: set<Id>, i: nat, j: nat)
    requires i < j < |edges| && edges[i].target == v == edges[j].target
    requires edges[i].source in from && edges[j].source in from
    ensures IncomingFrom(edges, v, from) >= 2
    decreases |edges|
  {
    var n := |edges| - 1;
    if j < n {
      IncomingTwo(edges[..n], v, from, i, j);
    } else {
      IncomingZero(edges[..n], v, from);
      assert edges[..n][i] == edges[i];
      assert edges[i] in edges[..n];
    }
  }

  /** So a node below a diamond is listed more than once. */
  lemma TwoWaysListTwice(g: Graph, nodeId: Id, listed: seq<Id>, i: nat, j: nat)
    requires WalkListing(g, nodeId, listed)
    requires i < j < |g.edges| && g.edges[i].target == g.edges[j].target && g.edges[i].target in NodeIds(g)
    requires forall e :: e in [g.edges[i], g.edges[j]] ==>
               e.source == nodeId || Downstream(Live(g.edges, NodeIds(g)), nodeId, e.source)
    ensures Count(listed, g.edges[i].target) >= 2
  {
    var live := Live(g.edges, NodeIds(g));
    var walked: set<Id> :| Walked(live, nodeId, walked) && Lists(listed, g.edges, NodeIds(g), walked);
    assert g.edges[i] in [g.edges[i], g.edges[j]] && g.edges[j] in [g.edges[i], g.edges[j]];
    IncomingTwo(g.edges, g.edges[i].target, walked, i, j);
  }
}
