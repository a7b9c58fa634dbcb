/** Workflow graphs, their paths and cycles, and the in-degree counts both schedulers use. */
module Graphs {
  import opened Seqs

  type Id = string

  /** nodeTypeId and kind are "" when the source field is missing. */
  datatype Node = Node(id: Id, name: string, nodeTypeId: string, kind: string)
  datatype Edge = Edge(source: Id, target: Id)
  datatype Graph = Graph(nodes: seq<Node>, edges: seq<Edge>)

  function NodeIds(g: Graph): set<Id> {
    set n | n in g.nodes :: n.id
  }

  function Targets(edges: seq<Edge>): set<Id> {
    set e | e in edges :: e.target
  }

  ghost predicate NoDanglingEdges(g: Graph) {
    forall e :: e in g.edges ==> e.source in NodeIds(g) && e.target in NodeIds(g)
  }

  // ── Paths ────────────────────────────────────────────────────────────────

  ghost predicate IsPath(edges: seq<Edge>, p: seq<Id>) {
    |p| >= 1 && forall i :: 0 <= i < |p| - 1 ==> Edge(p[i], p[i + 1]) in edges
  }

  ghost predicate PathFromTo(edges: seq<Edge>, p: seq<Id>, u: Id, v: Id) {
    IsPath(edges, p) && p[0] == u && p[|p| - 1] == v
  }

  /** u is an ancestor of v, or v itself. */
  ghost predicate Reaches(edges: seq<Edge>, u: Id, v: Id) {
    exists p :: PathFromTo(edges, p, u, v)
  }

  ghost predicate OnCycle(edges: seq<Edge>, u: Id) {
    exists p :: PathFromTo(edges, p, u, u) && |p| >= 2
  }

  lemma JoinPaths(edges: seq<Edge>, p: seq<Id>, q: seq<Id>)
    requires IsPath(edges, p) && IsPath(edges, q) && p[|p| - 1] == q[0]
    ensures PathFromTo(edges, p + q[1..], p[0], q[|q| - 1])
  {
    var r := p + q[1..];
    forall i | 0 <= i < |r| - 1 ensures Edge(r[i], r[i + 1]) in edges {
      if i < |p| - 1 {
        assert r[i] == p[i] && r[i + 1] == p[i + 1];
      } else {
        var k := i - (|p| - 1);
        assert r[i] == q[k] && r[i + 1] == q[k + 1];
      }
    }
  }

  lemma SubPath(edges: seq<Edge>, p: seq<Id>, i: nat, j: nat)
    requires IsPath(edges, p) && i < j <= |p|
    ensures IsPath(edges, p[i..j])
  {
    forall k | 0 <= k < |p[i..j]| - 1 ensures Edge(p[i..j][k], p[i..j][k + 1]) in edges {
      assert p[i..j][k] == p[i + k] && p[i..j][k + 1] == p[i + k + 1];
    }
  }

  // ── In-degrees ───────────────────────────────────────────────────────────

  /** How many edges into v, parallel edges counted, have a source outside `unlocked`. */
  function Pending(edges: seq<Edge>, v: Id, unlocked: set<Id>): nat {
    if edges == [] then 0
    else
      var e := edges[|edges| - 1];
      Pending(edges[..|edges| - 1], v, unlocked)
      + (if e.target == v && e.source !in unlocked then 1 else 0)
  }

  /** The targets of u's outgoing edges, in edge order. */
  function Successors(edges: seq<Edge>, u: Id): seq<Id> {
    if edges == [] then []
    else
      var e := edges[|edges| - 1];
      Successors(edges[..|edges| - 1], u) + (if e.source == u then [e.target] else [])
  }

  lemma {:induction false} SuccessorsAreEdges(edges: seq<Edge>, u: Id)
    ensures forall v :: v in Successors(edges, u) <==> Edge(u, v) in edges
  {
    if edges != [] {
      var n := |edges| - 1;
      SuccessorsAreEdges(edges[..n], u);
      assert edges == edges[..n] + [edges[n]];
    }
  }

  /** What one more edge does to the two maps built edge by edge. */
  lemma EdgeStep(edges: seq<Edge>, i: nat)
    requires i < |edges|
    ensures forall v, unlocked :: Pending(edges[..i + 1], v, unlocked)
              == Pending(edges[..i], v, unlocked)
                 + (if edges[i].target == v && edges[i].source !in unlocked then 1 else 0)
    ensures forall u :: Successors(edges[..i + 1], u)
              == Successors(edges[..i], u) + (if edges[i].source == u then [edges[i].target] else [])
  {
    TakeStep(edges, i);
  }

  /** A node is pending on nothing exactly when every edge into it starts in `unlocked`. */
  lemma {:induction false} PendingZero(edges: seq<Edge>, v: Id, unlocked: set<Id>)
    ensures Pending(edges, v, unlocked) == 0 <==> forall e :: e in edges && e.target == v ==> e.source in unlocked
  {
    if edges != [] {
      var n := |edges| - 1;
      PendingZero(edges[..n], v, unlocked);
      assert edges == edges[..n] + [edges[n]];
      assert edges[n] in edges;
    }
  }

  /** Unlocking u takes away exactly the edges from u to v. */
  lemma {:induction false} PendingUnlock(edges: seq<Edge>, v: Id, unlocked: set<Id>, u: Id)
    requires u !in unlocked
    ensures Pending(edges, v, unlocked) == Pending(edges, v, unlocked + {u}) + Count(Successors(edges, u), v)
  {
    if edges != [] {
      var n := |edges| - 1;
      PendingUnlock(edges[..n], v, unlocked, u);
      hide Count;
      var s := Successors(edges[..n], u);
      CountAppend(s, edges[n].target, v);
      assert s + [] == s;
    }
  }

  lemma PendingMonotone(edges: seq<Edge>, v: Id, a: set<Id>, b: set<Id>)
    requires a <= b && Pending(edges, v, a) == 0
    ensures Pending(edges, v, b) == 0
  {
    PendingZero(edges, v, a);
    PendingZero(edges, v, b);
  }
}
