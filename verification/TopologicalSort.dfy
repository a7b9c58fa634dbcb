/** The engine's topologicalSort and the canvas normalizer's: two loops, one order. */
module TopologicalSort {
  import opened Seqs
  import opened Graphs
  import opened Kahn

  /** adjacency.get(id) ?? [] */
  function NeighboursOf(g: Graph, id: Id): seq<Id> {
    if id in NodeIds(g) then Successors(g.edges, id) else []
  }

  ghost predicate TakenInv(g: Graph, unlocked: set<Id>, all: seq<Id>) {
    NoDup(all) && forall v :: v in all <==> v in Keys(g) && Pending(g.edges, v, unlocked) == 0
  }

  /**
   * taken: everything dequeued so far. A dangling edge target also passes through the queue, as a
   * no-op, so the order proper is the queue's history restricted to node ids.
   */
  ghost predicate LoopInv(g: Graph, inDegree: map<Id, int>, queue: seq<Id>, taken: seq<Id>) {
    var done := Restrict(taken, NodeIds(g));
    && inDegree == PendingMap(g, SetOf(done))
    && OrderInv(g, done, Restrict(queue, NodeIds(g)))
    && TakenInv(g, SetOf(done), taken + queue)
  }

  lemma LoopStarts(g: Graph)
    ensures LoopInv(g, PendingMap(g, {}), Seeds(g), [])
  {
    KahnSeeded(g);
    SeedsMembers(g);
    RestrictAll(Seeds(g), NodeIds(g));
    assert [] + Seeds(g) == Seeds(g);
    assert SetOf<Id>([]) == {};
    forall v | v in Keys(g) && Pending(g.edges, v, {}) == 0 ensures v in NodeIds(g) {
      PendingZero(g.edges, v, {});
    }
  }

  lemma LoopBound(g: Graph, inDegree: map<Id, int>, queue: seq<Id>, taken: seq<Id>)
    requires LoopInv(g, inDegree, queue, taken)
    ensures |taken| + |queue| <= |Keys(g)|
  {
    NoDupBound(taken + queue, Keys(g));
  }

  lemma TakenStep(g: Graph, unlocked: set<Id>, u: Id, all: seq<Id>)
    requires TakenInv(g, unlocked, all) && u !in unlocked
    ensures TakenInv(g, unlocked + {u}, all + NewlyReady(g, unlocked, u, Keys(g)))
  {
    var ready := NewlyReady(g, unlocked, u, Keys(g));
    NewlyReadyMembers(g, unlocked, u, Keys(g));
    NoDupConcat(all, ready);
    forall v ensures v in all + ready <==> v in Keys(g) && Pending(g.edges, v, unlocked + {u}) == 0 {
      if Pending(g.edges, v, unlocked) == 0 {
        PendingMonotone(g.edges, v, unlocked, unlocked + {u});
      }
    }
  }

  lemma RestrictHead(queue: seq<Id>, ids: set<Id>)
    requires queue != []
    ensures Restrict(queue, ids) == (if queue[0] in ids then [queue[0]] else []) + Restrict(queue[1..], ids)
  {
    assert queue == [queue[0]] + queue[1..];
    RestrictConcat([queue[0]], queue[1..], ids);
    RestrictSingle(queue[0], ids);
  }

  lemma LoopStepNode(g: Graph, done: seq<Id>, waiting: seq<Id>, u: Id, rest: seq<Id>, taken: seq<Id>)
    requires done == Restrict(taken, NodeIds(g)) && waiting == Restrict(rest, NodeIds(g)) && u in NodeIds(g)
    requires OrderInv(g, done, [u] + waiting) && TakenInv(g, SetOf(done), taken + [u] + rest)
    ensures u !in done
    ensures LoopInv(g, PendingMap(g, SetOf(done) + {u}), rest + NewlyReady(g, SetOf(done), u, Keys(g)), taken + [u])
  {
    hide KahnInv;
    hide NoDup;
    hide OrderInv;
    hide TakenInv;
    hide NewlyReady;
    hide PendingMap;
    var ready := NewlyReady(g, SetOf(done), u, Keys(g));
    OrderStep(g, done, u, waiting);
    TakenStep(g, SetOf(done), u, taken + [u] + rest);
    assert taken + [u] + rest + ready == (taken + [u]) + (rest + ready);
    NewlyReadyRestricts(g, SetOf(done), u);
    RestrictConcat(rest, ready, NodeIds(g));
    RestrictConcat(taken, [u], NodeIds(g));
    RestrictSingle(u, NodeIds(g));
  }

  /** One iteration of either loop. */
  lemma LoopStep(g: Graph, inDegree: map<Id, int>, queue: seq<Id>, taken: seq<Id>)
    requires LoopInv(g, inDegree, queue, taken) && queue != []
    ensures var r := Relax(Relaxed(inDegree, queue[1..]), NeighboursOf(g, queue[0]), Keys(g));
            LoopInv(g, r.deg, r.queue, taken + [queue[0]])
    ensures Restrict(taken + [queue[0]], NodeIds(g))
         == Restrict(taken, NodeIds(g)) + (if queue[0] in NodeIds(g) then [queue[0]] else [])
  {
    hide KahnInv;
    hide NoDup;
    hide OrderInv;
    hide TakenInv;
    hide NewlyReady;
    hide PendingMap;
    hide Restrict;
    var u, rest, ids := queue[0], queue[1..], NodeIds(g);
    var done, waiting := Restrict(taken, ids), Restrict(rest, ids);
    RestrictHead(queue, ids);
    RestrictConcat(taken, [u], ids);
    RestrictSingle(u, ids);
    assert taken + queue == taken + [u] + rest;
    if u in ids {
      LoopStepNode(g, done, waiting, u, rest, taken);
      RelaxUnlocks(g, SetOf(done), u, Keys(g), rest);
    } else {
      assert done + [] == done && [] + waiting == waiting;
    }
  }

  lemma NewlyReadyRestricts(g: Graph, unlocked: set<Id>, u: Id)
    ensures Restrict(NewlyReady(g, unlocked, u, Keys(g)), NodeIds(g)) == NewlyReady(g, unlocked, u, NodeIds(g))
  {
    var r := Relaxed(PendingMap(g, unlocked), []);
    assert Restrict(r.queue, NodeIds(g)) == r.queue;
    RelaxRestricts(r, r, Successors(g.edges, u), Keys(g), NodeIds(g));
  }

  lemma LoopEnds(g: Graph, inDegree: map<Id, int>, taken: seq<Id>)
    requires LoopInv(g, inDegree, [], taken)
    ensures Restrict(taken, NodeIds(g)) == KahnOrder(g)
    ensures NoDup(taken)
    ensures forall v :: v in taken <==> v in Keys(g) && Pending(g.edges, v, SetOf(KahnOrder(g))) == 0
  {
    assert taken + [] == taken;
  }

  method DecrementNeighbours(deg: map<Id, int>, queue: seq<Id>, succ: seq<Id>, keep: set<Id>)
    returns (r: Relaxed)
    ensures r == Relax(Relaxed(deg, queue), succ, keep)
  {
    r := Relaxed(deg, queue);
    for j := 0 to |succ|
      invariant r == Relax(Relaxed(deg, queue), succ[..j], keep)
    {
      TakeStep(succ, j);
      r := RelaxOne(r, succ[j], keep);
    }
    assert succ[..|succ|] == succ;
  }

  function IdsOf(nodes: seq<Node>): seq<Id> {
    seq(|nodes|, i requires 0 <= i < |nodes| => nodes[i].id)
  }

  /** The Map entry for an id: the last node that carries it. */
  function NodeOf(nodes: seq<Node>, id: Id): (n: Node)
    requires exists k :: 0 <= k < |nodes| && nodes[k].id == id
    ensures n in nodes && n.id == id
  {
    if nodes[|nodes| - 1].id == id then nodes[|nodes| - 1] else NodeOf(nodes[..|nodes| - 1], id)
  }

  lemma NodeOfDefined(g: Graph, id: Id)
    requires id in NodeIds(g)
    ensures exists k :: 0 <= k < |g.nodes| && g.nodes[k].id == id
  {
    var n :| n in g.nodes && n.id == id;
  }

  lemma AppendId(nodes: seq<Node>, n: Node)
    ensures IdsOf(nodes + [n]) == IdsOf(nodes) + [n.id]
  {
  }

  lemma NoIds()
    ensures forall keep :: IdsOf([]) == Restrict([], keep)
  {
  }

  method TopologicalSort(g: Graph) returns (sorted: seq<Node>)
    ensures IdsOf(sorted) == KahnOrder(g)
    ensures forall n :: n in sorted ==> n in g.nodes
  {
    hide LoopInv;
    hide Restrict;
    hide PendingMap;
    hide IdsOf;
    hide NodeOf;
    hide Relax;
    NoIds();
    var inDegree := BuildInDegreeMap(g);
    var adjacency := BuildAdjacencyMap(g);
    var queue := SeedQueue(g, inDegree);
    sorted := [];
    ghost var taken: seq<Id> := [];
    LoopStarts(g);
    while queue != []
      invariant LoopInv(g, inDegree, queue, taken)
      invariant IdsOf(sorted) == Restrict(taken, NodeIds(g))
      invariant forall n :: n in sorted ==> n in g.nodes
      decreases |Keys(g)| - |taken|
    {
      LoopBound(g, inDegree, queue, taken);
      var id := queue[0];
      LoopStep(g, inDegree, queue, taken);
      if id in NodeIds(g) {
        NodeOfDefined(g, id);
        var node := NodeOf(g.nodes, id);
        AppendId(sorted, node);
        sorted := sorted + [node];
      }
      var succ := if id in adjacency then adjacency[id] else [];
      var r := DecrementNeighbours(inDegree, queue[1..], succ, Keys(g));
      inDegree, queue := r.deg, r.queue;
      taken := taken + [id];
    }
    LoopEnds(g, inDegree, taken);
  }

  /** The canvas version emits every dequeued id, dangling targets included. */
  method NormalizerSort(g: Graph) returns (sorted: seq<Id>)
    ensures Restrict(sorted, NodeIds(g)) == KahnOrder(g)
    ensures NoDup(sorted)
    ensures forall v :: v in sorted <==> v in Keys(g) && Pending(g.edges, v, SetOf(KahnOrder(g))) == 0
  {
    var inDegree := BuildInDegreeMap(g);
    var adjacency := BuildAdjacencyMap(g);
    var queue := SeedQueue(g, inDegree);
    sorted := [];
    LoopStarts(g);
    while queue != []
      invariant LoopInv(g, inDegree, queue, sorted)
      decreases |Keys(g)| - |sorted|
    {
      LoopBound(g, inDegree, queue, sorted);
      var id := queue[0];
      var succ := if id in adjacency then adjacency[id] else [];
      LoopStep(g, inDegree, queue, sorted);
      sorted := sorted + [id];
      var r := DecrementNeighbours(inDegree, queue[1..], succ, Keys(g));
      inDegree, queue := r.deg, r.queue;
    }
    LoopEnds(g, inDegree, sorted);
  }
}
