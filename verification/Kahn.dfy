/**
 * Kahn's algorithm: the decrement loop shared by the sorts and by the concurrent scheduler,
 * the order it produces, and what that order means for paths and cycles.
 */
module Kahn {
  import opened Seqs
  import opened Graphs

  // ── The decrement loop ───────────────────────────────────────────────────

  datatype Relaxed = Relaxed(deg: map<Id, int>, queue: seq<Id>)

  function RelaxOne(r: Relaxed, v: Id, keep: set<Id>): Relaxed {
    var d := (if v in r.deg then r.deg[v] else 1) - 1;
    Relaxed(r.deg[v := d], if d == 0 && v in keep then r.queue + [v] else r.queue)
  }

  /** Decrement every neighbour in turn, queueing those of `keep` that drop to zero. */
  function Relax(r: Relaxed, succ: seq<Id>, keep: set<Id>): Relaxed {
    if succ == [] then r
    else RelaxOne(Relax(r, succ[..|succ| - 1], keep), succ[|succ| - 1], keep)
  }

  function Keys(g: Graph): set<Id> {
    NodeIds(g) + Targets(g.edges)
  }

  function PendingMap(g: Graph, unlocked: set<Id>): map<Id, int> {
    map v | v in Keys(g) :: Pending(g.edges, v, unlocked)
  }

  /** The ids that unlocking u makes ready, in the order the loop queues them. */
  function NewlyReady(g: Graph, unlocked: set<Id>, u: Id, keep: set<Id>): seq<Id> {
    Relax(Relaxed(PendingMap(g, unlocked), []), Successors(g.edges, u), keep).queue
  }

  lemma {:induction false} RelaxAppends(r: Relaxed, succ: seq<Id>, keep: set<Id>)
    ensures Relax(r, succ, keep).deg == Relax(r.(queue := []), succ, keep).deg
    ensures Relax(r, succ, keep).queue == r.queue + Relax(r.(queue := []), succ, keep).queue
  {
    if succ != [] {
      RelaxAppends(r, succ[..|succ| - 1], keep);
    }
  }

  /** u's edges into v are among the pending ones. */
  lemma PrefixCountBound(g: Graph, unlocked: set<Id>, u: Id, succ: seq<Id>, v: Id)
    requires u !in unlocked && succ <= Successors(g.edges, u)
    ensures Pending(g.edges, v, unlocked) >= Count(succ, v)
  {
    var all := Successors(g.edges, u);
    PendingUnlock(g.edges, v, unlocked, u);
    assert all == succ + all[|succ|..];
    CountConcat(succ, all[|succ|..], v);
  }

  ghost predicate RelaxedBy(g: Graph, unlocked: set<Id>, keep: set<Id>, succ: seq<Id>, r: Relaxed) {
    && r.deg.Keys == Keys(g)
    && (forall v :: v in Keys(g) ==> r.deg[v] == Pending(g.edges, v, unlocked) - Count(succ, v))
    && NoDup(r.queue)
    && (forall v :: v in r.queue <==> v in keep && v in succ && Pending(g.edges, v, unlocked) == Count(succ, v))
  }

  lemma RelaxedByStep(g: Graph, unlocked: set<Id>, u: Id, keep: set<Id>, succ: seq<Id>, w: Id, r: Relaxed)
    requires u !in unlocked && succ + [w] <= Successors(g.edges, u)
    requires RelaxedBy(g, unlocked, keep, succ, r)
    ensures RelaxedBy(g, unlocked, keep, succ + [w], RelaxOne(r, w, keep))
  {
    hide Count;
    hide Pending;
    hide Successors;
    SuccessorsAreEdges(g.edges, u);
    assert w in succ + [w] && w in Successors(g.edges, u);
    assert Edge(u, w) in g.edges;
    forall v ensures Pending(g.edges, v, unlocked) >= Count(succ + [w], v)
                  && Count(succ + [w], v) == Count(succ, v) + if v == w then 1 else 0 {
      PrefixCountBound(g, unlocked, u, succ + [w], v);
      CountAppend(succ, w, v);
    }
  }

  /** After a prefix of the neighbours: the counts, and exactly who has been queued. */
  lemma {:induction false} RelaxPrefix(g: Graph, unlocked: set<Id>, u: Id, keep: set<Id>, succ: seq<Id>)
    requires u !in unlocked
    requires succ <= Successors(g.edges, u)
    ensures RelaxedBy(g, unlocked, keep, succ, Relax(Relaxed(PendingMap(g, unlocked), []), succ, keep))
  {
    if succ != [] {
      hide RelaxedBy;
      var n := |succ| - 1;
      RelaxPrefix(g, unlocked, u, keep, succ[..n]);
      assert succ == succ[..n] + [succ[n]];
      RelaxedByStep(g, unlocked, u, keep, succ[..n], succ[n],
                    Relax(Relaxed(PendingMap(g, unlocked), []), succ[..n], keep));
    }
  }

  /** Unlocking u turns the pending counts into those for unlocked + {u}. */
  lemma RelaxUnlocks(g: Graph, unlocked: set<Id>, u: Id, keep: set<Id>, queue: seq<Id>)
    requires u !in unlocked
    ensures var r := Relax(Relaxed(PendingMap(g, unlocked), queue), Successors(g.edges, u), keep);
            && r.deg == PendingMap(g, unlocked + {u})
            && r.queue == queue + NewlyReady(g, unlocked, u, keep)
  {
    hide Relax;
    hide Pending;
    hide Count;
    hide Successors;
    hide NoDup;
    RelaxAppends(Relaxed(PendingMap(g, unlocked), queue), Successors(g.edges, u), keep);
    RelaxPrefix(g, unlocked, u, keep, Successors(g.edges, u));
    forall v ensures Pending(g.edges, v, unlocked + {u})
        == Pending(g.edges, v, unlocked) - Count(Successors(g.edges, u), v) {
      PendingUnlock(g.edges, v, unlocked, u);
    }
  }

  /** Exactly the ids whose last pending edge came from u become ready, each once. */
  lemma NewlyReadyMembers(g: Graph, unlocked: set<Id>, u: Id, keep: set<Id>)
    requires u !in unlocked
    ensures NoDup(NewlyReady(g, unlocked, u, keep))
    ensures forall v :: v in NewlyReady(g, unlocked, u, keep) <==>
              v in keep && Pending(g.edges, v, unlocked) > 0 && Pending(g.edges, v, unlocked + {u}) == 0
  {
    var succ := Successors(g.edges, u);
    RelaxPrefix(g, unlocked, u, keep, succ);
    forall v ensures v in succ && Pending(g.edges, v, unlocked) == Count(succ, v) <==>
        Pending(g.edges, v, unlocked) > 0 && Pending(g.edges, v, unlocked + {u}) == 0 {
      PendingUnlock(g.edges, v, unlocked, u);
      CountZero(succ, v);
    }
  }

  ghost predicate LastAt(s: seq<Id>, x: Id, k: nat) {
    k < |s| && s[k] == x && x !in s[k + 1..]
  }

  /** The ids stand in the order in which s names them for the last time. */
  ghost predicate ByLastMention(ids: seq<Id>, s: seq<Id>, last: seq<nat>) {
    && |last| == |ids|
    && (forall i :: 0 <= i < |ids| ==> LastAt(s, ids[i], last[i]))
    && (forall i, j :: 0 <= i < j < |last| ==> last[i] < last[j])
  }

  lemma QueuedLast(g: Graph, unlocked: set<Id>, u: Id, k: nat)
    requires u !in unlocked && k < |Successors(g.edges, u)|
    requires var all := Successors(g.edges, u);
             Pending(g.edges, all[k], unlocked) == Count(all[..k + 1], all[k])
    ensures LastAt(Successors(g.edges, u), Successors(g.edges, u)[k], k)
  {
    var all := Successors(g.edges, u);
    PrefixCountBound(g, unlocked, u, all, all[k]);
    assert all == all[..k + 1] + all[k + 1..];
    CountConcat(all[..k + 1], all[k + 1..], all[k]);
    CountZero(all[k + 1..], all[k]);
  }

  lemma ByLastMentionSnoc(ids: seq<Id>, s: seq<Id>, last: seq<nat>, x: Id, k: nat)
    requires ByLastMention(ids, s, last) && LastAt(s, x, k) && forall i :: 0 <= i < |last| ==> last[i] < k
    ensures ByLastMention(ids + [x], s, last + [k])
  {
    hide LastAt;
  }

  /** The queue after u's first k edges. */
  function QueueAfterEdges(g: Graph, unlocked: set<Id>, u: Id, keep: set<Id>, k: nat): seq<Id>
    requires k <= |Successors(g.edges, u)|
  {
    Relax(Relaxed(PendingMap(g, unlocked), []), Successors(g.edges, u)[..k], keep).queue
  }

  /** The next edge queues its target or nothing. */
  lemma QueuesOneMore(g: Graph, unlocked: set<Id>, u: Id, keep: set<Id>, k: nat) returns (queued: bool)
    requires u !in unlocked && k < |Successors(g.edges, u)|
    ensures QueueAfterEdges(g, unlocked, u, keep, k + 1)
         == QueueAfterEdges(g, unlocked, u, keep, k) + (if queued then [Successors(g.edges, u)[k]] else [])
    ensures queued ==> LastAt(Successors(g.edges, u), Successors(g.edges, u)[k], k)
  {
    var succ := Successors(g.edges, u);
    TakeStep(succ, k);
    var r := Relax(Relaxed(PendingMap(g, unlocked), []), succ[..k], keep);
    RelaxPrefix(g, unlocked, u, keep, succ[..k]);
    RelaxPrefix(g, unlocked, u, keep, succ[..k + 1]);
    queued := RelaxOne(r, succ[k], keep).queue != r.queue;
    hide Count;
    hide NoDup;
    hide Pending;
    hide PendingMap;
    hide LastAt;
    hide Successors;
    if queued {
      QueuedLast(g, unlocked, u, k);
    }
  }

  lemma {:induction false} ReadyPositions(g: Graph, unlocked: set<Id>, u: Id, keep: set<Id>, k: nat)
    returns (last: seq<nat>)
    requires u !in unlocked && k <= |Successors(g.edges, u)|
    ensures ByLastMention(QueueAfterEdges(g, unlocked, u, keep, k), Successors(g.edges, u), last)
    ensures forall i :: 0 <= i < |last| ==> last[i] < k
  {
    last := [];
    if k > 0 {
      hide *;
      last := ReadyPositions(g, unlocked, u, keep, k - 1);
      var queued := QueuesOneMore(g, unlocked, u, keep, k - 1);
      if queued {
        var succ := Successors(g.edges, u);
        ByLastMentionSnoc(QueueAfterEdges(g, unlocked, u, keep, k - 1), succ, last, succ[k - 1], k - 1);
        last := last + [k - 1];
      }
    }
  }

  /** Ids that become ready together are queued in the order of the last edge from u that names them. */
  lemma NewlyReadyOrder(g: Graph, unlocked: set<Id>, u: Id, keep: set<Id>)
    requires u !in unlocked
    ensures exists last: seq<nat> :: ByLastMention(NewlyReady(g, unlocked, u, keep), Successors(g.edges, u), last)
  {
    var succ := Successors(g.edges, u);
    var last := ReadyPositions(g, unlocked, u, keep, |succ|);
    assert succ[..|succ|] == succ;
    hide ByLastMention;
    assert ByLastMention(NewlyReady(g, unlocked, u, keep), succ, last);
  }

  /** Queueing fewer ids only filters the queue. */
  lemma {:induction false} RelaxRestricts(r: Relaxed, q: Relaxed, succ: seq<Id>, keep: set<Id>, part: set<Id>)
    requires part <= keep && r.deg == q.deg && q.queue == Restrict(r.queue, part)
    ensures Relax(q, succ, part).deg == Relax(r, succ, keep).deg
    ensures Relax(q, succ, part).queue == Restrict(Relax(r, succ, keep).queue, part)
  {
    if succ != [] {
      var n := |succ| - 1;
      RelaxRestricts(r, q, succ[..n], keep, part);
      RestrictConcat(Relax(r, succ[..n], keep).queue, [succ[n]], part);
      RestrictSingle(succ[n], part);
    }
  }

  // ── The order ────────────────────────────────────────────────────────────

  /** The distinct node ids in first-occurrence order: a Map's key order. */
  function DistinctIds(nodes: seq<Node>): seq<Id> {
    if nodes == [] then []
    else
      var prior := DistinctIds(nodes[..|nodes| - 1]);
      var id := nodes[|nodes| - 1].id;
      if id in prior then prior else prior + [id]
  }

  function Seeds(g: Graph): seq<Id> {
    Restrict(DistinctIds(g.nodes), Entries(g))
  }

  function Entries(g: Graph): set<Id> {
    set v | v in NodeIds(g) && Pending(g.edges, v, {}) == 0
  }

  lemma {:induction false} DistinctIdsAreNodeIds(nodes: seq<Node>)
    ensures NoDup(DistinctIds(nodes))
    ensures forall v :: v in DistinctIds(nodes) <==> exists n :: n in nodes && n.id == v
  {
    if nodes != [] {
      var k := |nodes| - 1;
      DistinctIdsAreNodeIds(nodes[..k]);
      assert nodes == nodes[..k] + [nodes[k]];
    }
  }

  lemma SeedsMembers(g: Graph)
    ensures NoDup(Seeds(g))
    ensures forall v :: v in Seeds(g) <==> v in NodeIds(g) && Pending(g.edges, v, {}) == 0
  {
    DistinctIdsAreNodeIds(g.nodes);
    RestrictMembers(DistinctIds(g.nodes), Entries(g));
  }

  /** Every edge into a listed id starts at an id listed before it. */
  ghost predicate Ordered(edges: seq<Edge>, order: seq<Id>) {
    forall j, e :: 0 <= j < |order| && e in edges && e.target == order[j] ==> e.source in order[..j]
  }

  /** done: ids already unlocked, oldest first. queue: ids waiting. */
  ghost predicate KahnInv(g: Graph, done: seq<Id>, queue: seq<Id>) {
    && NoDup(done + queue)
    && Ordered(g.edges, done)
    && (forall v :: v in done + queue <==> v in NodeIds(g) && Pending(g.edges, v, SetOf(done)) == 0)
  }

  lemma KahnSeeded(g: Graph)
    ensures KahnInv(g, [], Seeds(g))
  {
    SeedsMembers(g);
    assert [] + Seeds(g) == Seeds(g);
    assert SetOf<Id>([]) == {};
  }

  lemma KahnBound(g: Graph, done: seq<Id>, queue: seq<Id>)
    requires KahnInv(g, done, queue)
    ensures |done| + |queue| <= |NodeIds(g)|
  {
    NoDupBound(done + queue, NodeIds(g));
  }

  lemma OrderedExtend(edges: seq<Edge>, done: seq<Id>, u: Id)
    requires Ordered(edges, done) && Pending(edges, u, SetOf(done)) == 0
    ensures Ordered(edges, done + [u])
  {
    PendingZero(edges, u, SetOf(done));
    var d := done + [u];
    forall j, e | 0 <= j < |d| && e in edges && e.target == d[j] ensures e.source in d[..j] {
      assert d[..j] == done[..j];
    }
  }

  /** Moving the queue's head to done and queueing what it unlocks keeps the invariant. */
  lemma KahnStep(g: Graph, done: seq<Id>, queue: seq<Id>)
    requires KahnInv(g, done, queue) && queue != []
    ensures KahnInv(g, done + [queue[0]], queue[1..] + NewlyReady(g, SetOf(done), queue[0], NodeIds(g)))
    ensures queue[0] !in done
    ensures SetOf(done + [queue[0]]) == SetOf(done) + {queue[0]}
  {
    var u := queue[0];
    var before, after := SetOf(done), SetOf(done + [u]);
    var ready := NewlyReady(g, before, u, NodeIds(g));
    NoDupConcat(done, queue);
    assert queue[0] in queue;
    assert after == before + {u};
    assert u in done + queue;
    OrderedExtend(g.edges, done, u);
    NewlyReadyMembers(g, before, u, NodeIds(g));
    assert (done + [u]) + (queue[1..] + ready) == (done + queue) + ready by {
      assert queue == [u] + queue[1..];
    }
    NoDupConcat(done + queue, ready);
    forall v ensures v in (done + queue) + ready <==> v in NodeIds(g) && Pending(g.edges, v, after) == 0 {
      if v in NodeIds(g) && Pending(g.edges, v, before) == 0 {
        PendingMonotone(g.edges, v, before, after);
      }
    }
  }

  /** The ids emitted from here on, appended to done. */
  ghost function KahnRun(g: Graph, done: seq<Id>, queue: seq<Id>): (order: seq<Id>)
    requires KahnInv(g, done, queue)
    ensures KahnInv(g, order, []) && done <= order
    decreases |NodeIds(g)| - |done|
  {
    if queue == [] then done
    else
      KahnStep(g, done, queue);
      KahnBound(g, done, queue);
      KahnRun(g, done + [queue[0]], queue[1..] + NewlyReady(g, SetOf(done), queue[0], NodeIds(g)))
  }

  lemma KahnRunStep(g: Graph, done: seq<Id>, queue: seq<Id>)
    requires KahnInv(g, done, queue) && queue != []
    ensures var done1 := done + [queue[0]];
            var queue1 := queue[1..] + NewlyReady(g, SetOf(done), queue[0], NodeIds(g));
            KahnInv(g, done1, queue1) && KahnRun(g, done, queue) == KahnRun(g, done1, queue1)
  {
    KahnStep(g, done, queue);
  }

  ghost function KahnOrder(g: Graph): (order: seq<Id>)
    ensures KahnInv(g, order, [])
  {
    KahnSeeded(g);
    KahnRun(g, [], Seeds(g))
  }

  /** Continuing from here yields the order. */
  ghost predicate OrderInv(g: Graph, done: seq<Id>, waiting: seq<Id>) {
    KahnInv(g, done, waiting) && KahnRun(g, done, waiting) == KahnOrder(g)
  }

  lemma OrderStep(g: Graph, done: seq<Id>, u: Id, waiting: seq<Id>)
    requires OrderInv(g, done, [u] + waiting)
    ensures u !in done
    ensures SetOf(done + [u]) == SetOf(done) + {u}
    ensures OrderInv(g, done + [u], waiting + NewlyReady(g, SetOf(done), u, NodeIds(g)))
  {
    var queue := [u] + waiting;
    assert queue[0] == u && queue[1..] == waiting;
    KahnStep(g, done, queue);
    KahnRunStep(g, done, queue);
  }

  lemma WaitingPrefix(done: seq<Id>, queue: seq<Id>, ready: seq<Id>, order: seq<Id>)
    requires queue != [] && (done + [queue[0]]) + (queue[1..] + ready) <= order
    ensures done + queue <= order
  {
    assert queue == [queue[0]] + queue[1..];
    assert (done + [queue[0]]) + (queue[1..] + ready) == (done + queue) + ready;
  }

  /** What waits is emitted next, in its order. */
  lemma {:induction false} WaitingComesNext(g: Graph, done: seq<Id>, queue: seq<Id>)
    requires KahnInv(g, done, queue)
    ensures done + queue <= KahnRun(g, done, queue)
    decreases |NodeIds(g)| - |done|
  {
    if queue == [] {
      assert done + queue == done;
    } else {
      hide *;
      var ready := NewlyReady(g, SetOf(done), queue[0], NodeIds(g));
      KahnRunStep(g, done, queue);
      KahnBound(g, done, queue);
      WaitingComesNext(g, done + [queue[0]], queue[1..] + ready);
      WaitingPrefix(done, queue, ready, KahnRun(g, done, queue));
    }
  }

  lemma {:induction false} QueueAfter(g: Graph, done: seq<Id>, queue: seq<Id>, n: nat) returns (waiting: seq<Id>)
    requires KahnInv(g, done, queue) && |done| <= n <= |KahnRun(g, done, queue)|
    ensures KahnInv(g, KahnRun(g, done, queue)[..n], waiting)
    ensures KahnRun(g, done, queue)[..n] + waiting <= KahnRun(g, done, queue)
    decreases |NodeIds(g)| - |done|
  {
    if n == |done| {
      waiting := queue;
      WaitingComesNext(g, done, queue);
      assert KahnRun(g, done, queue)[..n] == done;
    } else {
      KahnRunStep(g, done, queue);
      KahnBound(g, done, queue);
      waiting := QueueAfter(g, done + [queue[0]], queue[1..] + NewlyReady(g, SetOf(done), queue[0], NodeIds(g)), n);
    }
  }

  /**
   * First come, first served: the ids that are ready after n ids have been taken, no edge into them left
   * from another, are always the next ones of the order.
   */
  lemma FirstComeFirstServed(g: Graph, n: nat)
    requires n <= |KahnOrder(g)|
    ensures var order := KahnOrder(g);
            exists m: nat :: m <= |order|
              && forall v :: v in order[..m] <==> v in NodeIds(g) && Pending(g.edges, v, SetOf(order[..n])) == 0
  {
    var order := KahnOrder(g);
    KahnSeeded(g);
    var waiting := QueueAfter(g, [], Seeds(g), n);
    assert order[..n] + waiting == order[..n + |waiting|];
  }

  /** Two orders that are each closed and grounded list the same ids. */
  lemma {:induction false} ClosedContainsOrdered(g: Graph, order: seq<Id>, closed: set<Id>)
    requires Ordered(g.edges, order)
    requires forall v :: v in order ==> v in NodeIds(g)
    requires forall v :: v in NodeIds(g) && Pending(g.edges, v, closed) == 0 ==> v in closed
    ensures SetOf(order) <= closed
  {
    if order != [] {
      var n := |order| - 1;
      assert order == order[..n] + [order[n]];
      assert Ordered(g.edges, order[..n]) by {
        forall j, e | 0 <= j < n && e in g.edges && e.target == order[j] ensures e.source in order[..n][..j] {
          assert order[..n][..j] == order[..j];
        }
      }
      ClosedContainsOrdered(g, order[..n], closed);
      PendingZero(g.edges, order[n], closed);
    }
  }

  // ── What the order means ─────────────────────────────────────────────────

  /** Along a path into the order, the start is listed, and strictly earlier when the path moves. */
  lemma {:induction false} OrderedPath(edges: seq<Edge>, order: seq<Id>, p: seq<Id>, j: nat)
    requires Ordered(edges, order) && IsPath(edges, p) && j < |order| && p[|p| - 1] == order[j]
    ensures p[0] in order[..j + 1]
    ensures |p| >= 2 ==> p[0] in order[..j]
    decreases |p|
  {
    if |p| >= 2 {
      var n := |p| - 1;
      assert Edge(p[n - 1], p[n - 1 + 1]) in edges;
      var i :| 0 <= i < j && order[i] == p[n - 1];
      SubPath(edges, p, 0, n);
      OrderedPath(edges, order, p[..n], i);
      assert order[..i + 1] <= order[..j];
    }
  }

  lemma OrderedHasNoCycle(edges: seq<Edge>, order: seq<Id>, u: Id)
    requires Ordered(edges, order) && u in order && NoDup(order)
    ensures !OnCycle(edges, u)
  {
    if OnCycle(edges, u) {
      var p :| PathFromTo(edges, p, u, u) && |p| >= 2;
      var j :| 0 <= j < |order| && order[j] == u;
      OrderedPath(edges, order, p, j);
      assert false;
    }
  }

  /** Walk back from an unlisted node along unlisted predecessors for up to k steps. */
  lemma {:induction false} WalkBack(g: Graph, order: seq<Id>, v: Id, k: nat) returns (p: seq<Id>)
    requires KahnInv(g, order, []) && v !in order
    ensures IsPath(g.edges, p) && p[|p| - 1] == v
    ensures p[0] !in NodeIds(g) || (|p| == k + 1 && SetOf(p) <= NodeIds(g))
    decreases k
  {
    if v !in NodeIds(g) || k == 0 {
      p := [v];
    } else {
      assert order + [] == order;
      assert Pending(g.edges, v, SetOf(order)) != 0;
      PendingZero(g.edges, v, SetOf(order));
      var e :| e in g.edges && e.target == v && e.source !in SetOf(order);
      assert e == Edge(e.source, v);
      var q := WalkBack(g, order, e.source, k - 1);
      assert IsPath(g.edges, [e.source, v]);
      JoinPaths(g.edges, q, [e.source, v]);
      p := q + [v];
      assert [e.source, v][1..] == [v];
    }
  }

  /** A path that repeats a node shows an ancestor on a cycle. */
  lemma RepeatShowsCycle(edges: seq<Edge>, p: seq<Id>, i: nat, j: nat)
    requires IsPath(edges, p) && i < j < |p| && p[i] == p[j]
    ensures Reaches(edges, p[i], p[|p| - 1]) && OnCycle(edges, p[i])
  {
    SubPath(edges, p, i, |p|);
    assert PathFromTo(edges, p[i..], p[i], p[|p| - 1]);
    SubPath(edges, p, i, j + 1);
    assert PathFromTo(edges, p[i..j + 1], p[i], p[i]);
  }

  lemma UnlistedHasBadAncestor(g: Graph, v: Id) returns (a: Id)
    requires v in NodeIds(g) && v !in KahnOrder(g)
    ensures Reaches(g.edges, a, v)
    ensures a !in NodeIds(g) || OnCycle(g.edges, a)
  {
    hide KahnInv;
    hide KahnOrder;
    var p := WalkBack(g, KahnOrder(g), v, |NodeIds(g)|);
    if p[0] !in NodeIds(g) {
      a := p[0];
      assert PathFromTo(g.edges, p, a, v);
    } else {
      var i, j := Pigeonhole(p, NodeIds(g));
      a := p[i];
      RepeatShowsCycle(g.edges, p, i, j);
    }
  }

  /**
   * The sort lists each of its ids once, only node ids, sources before targets; and it lists
   * exactly the nodes none of whose ancestors (itself included) is missing or lies on a cycle.
   */
  lemma KahnCharacterized(g: Graph)
    ensures NoDup(KahnOrder(g)) && Ordered(g.edges, KahnOrder(g))
    ensures forall v :: v in KahnOrder(g) <==>
              v in NodeIds(g) && forall a :: Reaches(g.edges, a, v) ==> a in NodeIds(g) && !OnCycle(g.edges, a)
  {
    var order := KahnOrder(g);
    assert order + [] == order;
    forall v, a | v in order && Reaches(g.edges, a, v) ensures a in NodeIds(g) && !OnCycle(g.edges, a) {
      var p :| PathFromTo(g.edges, p, a, v);
      var j :| 0 <= j < |order| && order[j] == v;
      OrderedPath(g.edges, order, p, j);
      OrderedHasNoCycle(g.edges, order, a);
    }
    forall v | v in NodeIds(g) && v !in order
      ensures exists a :: Reaches(g.edges, a, v) && (a !in NodeIds(g) || OnCycle(g.edges, a)) {
      var a := UnlistedHasBadAncestor(g, v);
    }
  }

  /** With no dangling edges the sort omits a node exactly when the graph has a cycle. */
  lemma KahnOmitsIffCyclic(g: Graph)
    requires NoDanglingEdges(g)
    ensures (exists v :: v in NodeIds(g) && v !in KahnOrder(g)) <==> exists u :: OnCycle(g.edges, u)
  {
    KahnCharacterized(g);
    if v :| v in NodeIds(g) && v !in KahnOrder(g) {
      var a := UnlistedHasBadAncestor(g, v);
      var p :| PathFromTo(g.edges, p, a, v);
      if |p| >= 2 {
        assert Edge(p[0], p[0 + 1]) in g.edges;
      }
      assert OnCycle(g.edges, a);
    }
    if u :| OnCycle(g.edges, u) {
      var p :| PathFromTo(g.edges, p, u, u) && |p| >= 2;
      assert Edge(p[0], p[0 + 1]) in g.edges;
      assert PathFromTo(g.edges, [u], u, u);
      assert Reaches(g.edges, u, u);
    }
  }

  // ── The two sorts ────────────────────────────────────────────────────────

  /** The source's initial loop: every node id with the same value. */
  method FillNodeKeys<V>(g: Graph, v: V) returns (m: map<Id, V>)
    ensures m.Keys == NodeIds(g) && forall u :: u in m ==> m[u] == v
  {
    m := map[];
    for i := 0 to |g.nodes|
      invariant m.Keys <= NodeIds(g)
      invariant forall k :: 0 <= k < i ==> g.nodes[k].id in m
      invariant forall u :: u in m ==> m[u] == v
    {
      m := m[g.nodes[i].id := v];
    }
  }

  /** Every edge counted so far, and no other key but the nodes. */
  ghost predicate Counted(g: Graph, i: nat, inDegree: map<Id, int>)
    requires i <= |g.edges|
  {
    && inDegree.Keys == NodeIds(g) + Targets(g.edges[..i])
    && forall v :: Pending(g.edges[..i], v, {}) == if v in inDegree then inDegree[v] else 0
  }

  lemma CountOneMore(g: Graph, i: nat, inDegree: map<Id, int>)
    requires i < |g.edges| && Counted(g, i, inDegree)
    ensures var v := g.edges[i].target;
            Counted(g, i + 1, inDegree[v := (if v in inDegree then inDegree[v] else 0) + 1])
  {
    EdgeStep(g.edges, i);
    hide Pending;
    assert Targets(g.edges[..i + 1]) == Targets(g.edges[..i]) + {g.edges[i].target} by {
      TakeStep(g.edges, i);
    }
  }

  lemma CountsAreComplete(g: Graph, inDegree: map<Id, int>)
    requires Counted(g, |g.edges|, inDegree)
    ensures inDegree == PendingMap(g, {})
  {
    assert g.edges[..|g.edges|] == g.edges;
    hide Pending;
  }

  method BuildInDegreeMap(g: Graph) returns (inDegree: map<Id, int>)
    ensures inDegree == PendingMap(g, {})
  {
    inDegree := FillNodeKeys(g, 0);
    assert Counted(g, 0, inDegree);
    hide *;
    for i := 0 to |g.edges|
      invariant Counted(g, i, inDegree)
    {
      CountOneMore(g, i, inDegree);
      var v := g.edges[i].target;
      inDegree := inDegree[v := (if v in inDegree then inDegree[v] else 0) + 1];
    }
    CountsAreComplete(g, inDegree);
  }

  method BuildAdjacencyMap(g: Graph) returns (adjacency: map<Id, seq<Id>>)
    ensures adjacency.Keys == NodeIds(g)
    ensures forall u :: u in adjacency ==> adjacency[u] == Successors(g.edges, u)
  {
    adjacency := FillNodeKeys(g, []);
    for i := 0 to |g.edges|
      invariant adjacency.Keys == NodeIds(g)
      invariant forall u :: u in adjacency ==> adjacency[u] == Successors(g.edges[..i], u)
    {
      var e := g.edges[i];
      EdgeStep(g.edges, i);
      hide Successors;
      if e.source in adjacency {
        adjacency := adjacency[e.source := adjacency[e.source] + [e.target]];
      }
    }
    assert g.edges[..|g.edges|] == g.edges;
  }

  /** Ids of the zero-degree keys in map order; a key that is no node has an incoming edge. */
  method SeedQueue(g: Graph, inDegree: map<Id, int>) returns (queue: seq<Id>)
    requires inDegree == PendingMap(g, {})
    ensures queue == Seeds(g)
  {
    queue := [];
    var keys := DistinctIds(g.nodes);
    DistinctIdsAreNodeIds(g.nodes);
    assert forall v :: v in keys ==> v in NodeIds(g) && v in inDegree && (inDegree[v] == 0 <==> v in Entries(g));
    hide Entries;
    hide DistinctIds;
    hide PendingMap;
    for i := 0 to |keys|
      invariant queue == Restrict(keys[..i], Entries(g))
    {
      TakeStep(keys, i);
      assert keys[i] in keys;
      if inDegree[keys[i]] == 0 {
        queue := queue + [keys[i]];
      }
    }
    assert keys[..|keys|] == keys;
  }
}
