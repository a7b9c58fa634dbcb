/** Which nodes a run reaches, what keeps it from the others, and when it does the whole sort. */
module DagCoverage {
  import opened Seqs
  import opened Graphs
  import opened Kahn
  import opened DagState
  import opened DagInvariants
  import opened DagLog
  import opened DagRuns
  import opened DagCompletion

  // ── What stops a node ────────────────────────────────────────────────────

  /** The node a reply stops without failing the run: its lease was denied, or it paused. */
  ghost function StoppedBy(a: Action): set<Id> {
    match a
    case LeaseReply(id, granted) => if granted then {} else {id}
    case ExecuteReply(id, status, _) => if status == Paused then {id} else {}
    case _ => {}
  }

  ghost function StoppedIds(acts: seq<Action>): set<Id> {
    if acts == [] then {} else StoppedIds(acts[..|acts| - 1]) + StoppedBy(acts[|acts| - 1])
  }

  /** Everyone taken is on its way, cleared, stopped or saved; the cleared are unlocked or about to be. */
  ghost predicate ReachInv(c: Config, s: State, stopped: set<Id>) {
    && stopped <= SetOf(s.q.taken) && stopped !! Cleared(s.results)
    && (forall id :: id in stopped && id in s.active ==> PastUnlock(s.active[id]))
    && ResultIds(s.results) !! CompletedIds(c)
    && (!s.failed ==>
          && (forall id :: id in s.q.taken ==>
                || id in CompletedIds(c) || id in Cleared(s.results) || id in stopped
                || (id in s.active && NotYetRun(s.active[id])))
          && (forall id :: id in Cleared(s.results) ==> id in s.q.unlocked || IsMarking(s, id)))
  }

  lemma ReachFrame(c: Config, s: State, s1: State, stopped: set<Id>)
    requires ReachInv(c, s, stopped) && s1.q == s.q && s1.results == s.results && s1.active == s.active
    requires s.failed ==> s1.failed
    ensures ReachInv(c, s1, stopped)
  {
  }

  /** One node moves to phase p, with its result, its unlocking or its stop. */
  lemma ReachMove(c: Config, s: State, s1: State, stopped: set<Id>, more: set<Id>, id: Id, p: Phase)
    requires ReachInv(c, s, stopped) && id in s.q.taken && id !in CompletedIds(c) && more <= {id}
    requires s1.q.taken == s.q.taken && s1.active == s.active[id := p] && (s.failed ==> s1.failed)
    requires ResultIds(s1.results) <= ResultIds(s.results) + {id}
    requires Cleared(s.results) <= Cleared(s1.results) <= Cleared(s.results) + {id}
    requires id in Cleared(s1.results) ==> id !in stopped + more
    requires PastUnlock(p) || id !in stopped + more
    requires !s1.failed ==> NotYetRun(p) || id in Cleared(s1.results) || id in stopped + more
    requires !s1.failed ==> forall x :: x in s.q.unlocked ==> x in s1.q.unlocked
    requires !s1.failed && id in Cleared(s1.results) ==> id in s1.q.unlocked || p.Marking?
    ensures ReachInv(c, s1, stopped + more)
  {
    assert forall x :: x != id && IsMarking(s, x) ==> IsMarking(s1, x);
    assert forall x :: x != id && x in s.active && NotYetRun(s.active[x]) ==> x in s1.active && NotYetRun(s1.active[x]);
  }

  lemma ReachAdmit(c: Config, s: State, stopped: set<Id>)
    requires ReachInv(c, s, stopped) && CoreInv(c, s) && s.q.ready != [] && !s.failed && !s.aborted
    ensures ReachInv(c, AdmitHead(c, s), stopped)
  {
    var id := s.q.ready[0];
    HeadIsNew(c.graph, s.q);
    assert id !in SetOf(s.q.taken);
    assert id !in s.active && id !in s.inFlight;
    hide CoreInv;
    var s1 := AdmitHead(c, s);
    assert s1.q.taken == s.q.taken + [id] && s1.results == s.results && s1.q.unlocked == s.q.unlocked;
    assert s1.active == if id in CompletedIds(c) then s.active else s.active[id := Acquiring];
    hide AdmitHead;
    assert SetOf(s1.q.taken) == SetOf(s.q.taken) + {id};
    assert forall x :: IsMarking(s, x) ==> IsMarking(s1, x);
  }

  /** Only an active node's phase is known; the rest of its standing follows from it. */
  lemma ActiveFacts(c: Config, s: State, stopped: set<Id>, id: Id)
    requires CoreInv(c, s) && ResultInv(s) && ReachInv(c, s, stopped) && id in s.active
    ensures id in s.q.taken && id !in CompletedIds(c)
    ensures !PastUnlock(s.active[id]) ==> id !in stopped
    ensures NotYetRun(s.active[id]) ==> id !in Cleared(s.results)
    ensures s.active[id].Marking? ==> id in Cleared(s.results)
  {
    assert id in SetOf(s.q.taken);
    assert Cleared(s.results) <= ResultIds(s.results);
  }

  lemma UnlockFacts(c: Config, s: State, id: Id)
    ensures var s1 := UnlockDownstream(c, s, id);
            && s1 == s.(q := s1.q) && s1.q.taken == s.q.taken
            && s1.q.unlocked == if s.failed then s.q.unlocked else s.q.unlocked + [id]
  {
    hide Relax;
  }

  lemma ReachSkip(c: Config, s: State, stopped: set<Id>, id: Id, output: Output)
    requires CoreInv(c, s) && ResultInv(s) && ReachInv(c, s, stopped) && id in s.active && NotYetRun(s.active[id])
    ensures ReachInv(c, Skip(c, s, id, output), stopped)
  {
    ActiveFacts(c, s, stopped, id);
    PushResult(s.results, Result(id, Skipped, output));
    UnlockFacts(c, s.(results := s.results + [Result(id, Skipped, output)]), id);
    hide UnlockDownstream;
    hide CoreInv;
    hide ResultInv;
    hide ReachInv;
    hide Cleared;
    hide ResultIds;
    ReachMove(c, s, Skip(c, s, id, output), stopped, {}, id, Releasing);
    assert stopped + {} == stopped;
  }

  lemma ReachExecute(c: Config, s: State, stopped: set<Id>, id: Id, status: Status, output: Output)
    requires CoreInv(c, s) && ResultInv(s) && ReachInv(c, s, stopped) && IsIn(s, id, Executing) && status != Skipped
    ensures ReachInv(c, AfterExecute(c, s, id, status, output), stopped + (if status == Paused then {id} else {}))
  {
    ActiveFacts(c, s, stopped, id);
    PushResult(s.results, Result(id, status, output));
    hide SetShared;
    var s2 := s.(results := s.results + [Result(id, status, output)], shared := SetShared(s.shared, id, output));
    var s3 := if c.enableSaga then s2.(saga := s2.saga + [SagaEntry(id, output)]) else s2;
    UnlockFacts(c, s3, id);
    hide UnlockDownstream;
    hide CoreInv;
    hide ResultInv;
    hide ReachInv;
    hide Cleared;
    hide ResultIds;
    var p := if status == Success && c.hasIdempotencyStore then Marking(output) else Releasing;
    ReachMove(c, s, AfterExecute(c, s, id, status, output), stopped, if status == Paused then {id} else {}, id, p);
  }

  lemma ReachFinish(c: Config, s: State, stopped: set<Id>, id: Id)
    requires CoreInv(c, s) && ResultInv(s) && ReachInv(c, s, stopped) && IsMarking(s, id)
    ensures ReachInv(c, Finish(c, s, id, s.active[id].output), stopped)
  {
    ActiveFacts(c, s, stopped, id);
    var output := s.active[id].output;
    UnlockFacts(c, if c.enableSaga then s.(saga := s.saga + [SagaEntry(id, output)]) else s, id);
    hide UnlockDownstream;
    hide CoreInv;
    hide ResultInv;
    hide ReachInv;
    hide Cleared;
    hide ResultIds;
    ReachMove(c, s, Finish(c, s, id, output), stopped, {}, id, Releasing);
    assert stopped + {} == stopped;
  }

  /** A move that records nothing. */
  lemma ReachPhase(c: Config, s: State, s1: State, stopped: set<Id>, more: set<Id>, id: Id, p: Phase)
    requires CoreInv(c, s) && ResultInv(s) && ReachInv(c, s, stopped) && id in s.active && more <= {id}
    requires s1.q == s.q && s1.results == s.results && s1.active == s.active[id := p] && s1.failed == s.failed
    requires NotYetRun(s.active[id]) && (if NotYetRun(p) then more == {} else PastUnlock(p) && more == {id})
    ensures ReachInv(c, s1, stopped + more)
  {
    ActiveFacts(c, s, stopped, id);
    hide ReachInv;
    hide CoreInv;
    hide ResultInv;
    ReachMove(c, s, s1, stopped, more, id, p);
  }

  lemma ReachLeave(c: Config, s: State, s1: State, stopped: set<Id>, id: Id)
    requires ReachInv(c, s, stopped) && id in s.active && PastUnlock(s.active[id])
    requires s1.q == s.q && s1.results == s.results && s1.failed == s.failed
    requires s1.active == s.active[id := Settling] || s1.active == s.active - {id}
    ensures ReachInv(c, s1, stopped)
  {
    assert forall x :: IsMarking(s, x) ==> IsMarking(s1, x);
  }

  lemma ReachLoop(c: Config, s: State, stopped: set<Id>)
    requires ReachInv(c, s, stopped) && CoreInv(c, s) && (s.mode.Deciding? || s.mode.Admitting?)
    requires s.mode.Admitting? ==> !s.failed && !s.aborted
    ensures ReachInv(c, LoopStep(c, s), stopped)
  {
    hide ReachInv;
    hide CoreInv;
    hide AdmitHead;
    if s.mode.Admitting? && s.q.ready != [] && CanStart(c, s) {
      ReachAdmit(c, s, stopped);
    } else {
      ReachFrame(c, s, LoopStep(c, s), stopped);
    }
  }

  lemma ReachLease(c: Config, s: State, stopped: set<Id>, id: Id, granted: bool)
    requires ReachInv(c, s, stopped) && CoreInv(c, s) && ResultInv(s) && IsIn(s, id, Acquiring)
    ensures ReachInv(c, AfterLease(c, s, id, granted), stopped + (if granted then {} else {id}))
  {
    ActiveNotCompleted(c, s, id);
    hide ReachInv;
    hide CoreInv;
    hide ResultInv;
    hide Skip;
    ReachPhase(c, s, AfterLease(c, s, id, granted), stopped, if granted then {} else {id}, id,
               if !granted then Settling else if c.hasIdempotencyStore then Probing else Executing);
  }

  lemma ReachStep(c: Config, s: State, stopped: set<Id>, a: Action)
    requires ReachInv(c, s, stopped) && CoreInv(c, s) && ResultInv(s) && Enabled(c, s, a)
    requires s.mode.Admitting? ==> !s.failed && !s.aborted
    ensures ReachInv(c, Apply(c, s, a), stopped + StoppedBy(a))
  {
    assert stopped + {} == stopped;
    hide ReachInv;
    hide CoreInv;
    hide ResultInv;
    hide AfterOutput;
    hide AfterExecute;
    hide AfterLease;
    hide Finish;
    hide LoopStep;
    match a
    case LoopTurn => ReachLoop(c, s, stopped);
    case LeaseReply(id, granted) => ReachLease(c, s, stopped, id, granted);
    case ProbeReply(id, hit) => ReachPhase(c, s, Apply(c, s, a), stopped, {}, id, if hit then Fetching else Executing);
    case OutputReply(id, output) => ReachOutput(c, s, stopped, id, output);
    case ExecuteReply(id, status, output) => ReachExecute(c, s, stopped, id, status, output);
    case MarkReply(id) => ReachFinish(c, s, stopped, id);
    case ReleaseReply(id) => ReachLeave(c, s, Apply(c, s, a), stopped, id);
    case Settle(id) => ReachLeave(c, s, Apply(c, s, a), stopped, id);
    case _ => ReachFrame(c, s, Apply(c, s, a), stopped);
  }

  lemma ReachOutput(c: Config, s: State, stopped: set<Id>, id: Id, output: Output)
    requires CoreInv(c, s) && ResultInv(s) && ReachInv(c, s, stopped) && IsIn(s, id, Fetching)
    ensures ReachInv(c, AfterOutput(c, s, id, output), stopped)
  {
    hide SetShared;
    var s1 := s.(shared := SetShared(s.shared, id, output));
    CoreFrame(c, s, s1);
    ReachFrame(c, s, s1, stopped);
    ReachSkip(c, s1, stopped, id, output);
  }

  lemma ReachSnoc(c: Config, s: State, acts: seq<Action>, a: Action)
    requires RunInv(c, s) && Enabled(c, s, a) && ReachInv(c, s, StoppedIds(acts))
    ensures ReachInv(c, Apply(c, s, a), StoppedIds(acts + [a]))
  {
    assert (acts + [a])[..|acts|] == acts;
    assert StoppedIds(acts + [a]) == StoppedIds(acts) + StoppedBy(a);
    assert s.mode.Admitting? ==> !s.failed && !s.aborted by {
      assert ModeInv(c, s);
      hide CoreInv;
      hide LogInv;
    }
    hide *;
    RunParts(c, s);
    ReachStep(c, s, StoppedIds(acts), a);
  }

  lemma ReachInit(c: Config)
    ensures ReachInv(c, Init(c), {})
  {
  }

  lemma {:induction false} ReachInvariant(c: Config, acts: seq<Action>, states: seq<State>, i: nat)
    requires WellFormed(c) && IsRun(c, acts, states) && i < |states|
    ensures RunInv(c, states[i]) && ReachInv(c, states[i], StoppedIds(acts[..i]))
  {
    RunShape(c, acts, states);
    if i == 0 {
      assert acts[..0] == [] && StoppedIds([]) == {};
      hide *;
      RunInvariant(c, acts, states, i);
      ReachInit(c);
    } else {
      hide *;
      RunInvariant(c, acts, states, i);
      ReachInvariant(c, acts, states, i - 1);
      StepOf(c, acts, states, i - 1);
      ReachSnoc(c, states[i - 1], acts[..i - 1], acts[i - 1]);
    }
  }

  // ── What keeps a node from being taken ───────────────────────────────────

  /** Nothing downstream of a locked node is taken. */
  lemma {:induction false} LockedBlocks(g: Graph, q: Queue, p: seq<Id>)
    requires QueueInv(g, q) && IsPath(g.edges, p) && |p| >= 2 && p[0] !in q.unlocked
    ensures p[|p| - 1] !in q.taken
    decreases |p|
  {
    var n := |p| - 1;
    if p[n] in q.taken {
      var e := Edge(p[n - 1], p[n - 1 + 1]);
      assert e in g.edges;
      TakenPredecessors(g, q, e);
      assert e.source in SetOf(q.taken);
      if n > 1 {
        SubPath(g.edges, p, 0, n);
        LockedBlocks(g, q, p[..n]);
      }
    }
  }

  /** A node not recorded as success or skipped keeps everything downstream of it untaken. */
  lemma UnclearedBlocksDownstream(c: Config, acts: seq<Action>, states: seq<State>, i: nat, u: Id)
    requires WellFormed(c) && IsRun(c, acts, states) && i < |states| && u !in Cleared(states[i].results)
    ensures forall p :: IsPath(c.graph.edges, p) && |p| >= 2 && p[0] == u ==> p[|p| - 1] !in states[i].q.taken
  {
    var s := states[i];
    RunInvariant(c, acts, states, i);
    assert u !in SetOf(s.q.unlocked);
    forall p | IsPath(c.graph.edges, p) && |p| >= 2 && p[0] == u ensures p[|p| - 1] !in s.q.taken {
      LockedBlocks(c.graph, s.q, p);
    }
  }

  /** A node with a loaded checkpoint is dropped: it gets no result, and nothing downstream is taken. */
  lemma CheckpointBlocksDownstream(c: Config, acts: seq<Action>, states: seq<State>, i: nat, u: Id)
    requires WellFormed(c) && IsRun(c, acts, states) && i < |states| && u in CompletedIds(c)
    ensures u !in ResultIds(states[i].results)
    ensures forall p :: IsPath(c.graph.edges, p) && |p| >= 2 && p[0] == u ==> p[|p| - 1] !in states[i].q.taken
  {
    ReachInvariant(c, acts, states, i);
    UnclearedBlocksDownstream(c, acts, states, i, u);
  }

  /** The same for a node whose lease was denied or that paused, from then on. */
  lemma StoppedNodeBlocksDownstream(c: Config, acts: seq<Action>, states: seq<State>, i: nat, u: Id)
    requires WellFormed(c) && IsRun(c, acts, states) && i < |states| && u in StoppedIds(acts[..i])
    ensures u !in Cleared(states[i].results)
    ensures forall p :: IsPath(c.graph.edges, p) && |p| >= 2 && p[0] == u ==> p[|p| - 1] !in states[i].q.taken
  {
    ReachInvariant(c, acts, states, i);
    UnclearedBlocksDownstream(c, acts, states, i, u);
  }

  // ── What a finished run has done ─────────────────────────────────────────

  /** In a finished unfailed run nothing is on its way any more. */
  ghost predicate AtRest(c: Config, s: State, stopped: set<Id>) {
    && SetOf(s.q.unlocked) == Cleared(s.results) <= SetOf(s.q.taken)
    && (forall id :: id in Cleared(s.results) <==> id in s.q.taken && id !in CompletedIds(c) && id !in stopped)
    && (c.maxParallel >= 0 ==> s.q.ready == [])
  }

  lemma FinishedAtRest(c: Config, s: State, stopped: set<Id>)
    requires RunInv(c, s) && ReachInv(c, s, stopped) && s.mode.Ended? && !s.failed
    ensures AtRest(c, s, stopped) && QueueInv(c.graph, s.q)
  {
    assert s.active == map[] && Exhausted(c, s);
    hide ModeInv;
    hide SagaInv;
    hide SharedInv;
    assert SetOf(s.q.unlocked) <= Cleared(s.results) <= ResultIds(s.results) <= SetOf(s.q.taken);
    forall id | id in Cleared(s.results) ensures id in SetOf(s.q.unlocked) {
      assert !IsMarking(s, id);
    }
  }

  /** Taken were exactly the nodes all of whose predecessors ended in success or were skipped. */
  lemma TakenIffPredecessorsCleared(c: Config, acts: seq<Action>, states: seq<State>, i: nat, v: Id)
    requires WellFormed(c) && IsRun(c, acts, states) && i < |states| && c.maxParallel >= 0
    requires states[i].mode.Ended? && !states[i].failed
    ensures v in states[i].q.taken <==>
              v in NodeIds(c.graph) && forall e :: e in c.graph.edges && e.target == v ==>
                  e.source in Cleared(states[i].results)
  {
    var q := states[i].q;
    ReachInvariant(c, acts, states, i);
    FinishedAtRest(c, states[i], StoppedIds(acts[..i]));
    hide RunInv;
    hide ReachInv;
    assert q.taken + q.ready == q.taken;
    PendingZero(c.graph.edges, v, SetOf(q.unlocked));
  }

  /** The run's dropped, denied and paused nodes. */
  ghost function Absent(c: Config, acts: seq<Action>): set<Id> {
    CompletedIds(c) + StoppedIds(acts)
  }

  lemma SourceReaches(edges: seq<Edge>, u: Id, e: Edge)
    requires e in edges && Reaches(edges, u, e.source)
    ensures Reaches(edges, u, e.target)
  {
    var p :| PathFromTo(edges, p, u, e.source);
    var q := [e.source, e.target];
    assert Edge(q[0], q[0 + 1]) == e;
    JoinPaths(edges, p, q);
    assert PathFromTo(edges, p + q[1..], u, e.target);
  }

  /** Sorted nodes that no absent node reaches are cleared, the earlier ones first. */
  lemma {:induction false} OrderIsCleared(c: Config, s: State, absent: set<Id>, j: nat)
    requires QueueInv(c.graph, s.q) && s.q.ready == [] && SetOf(s.q.unlocked) == Cleared(s.results)
    requires forall id :: id in s.q.taken && id !in absent ==> id in Cleared(s.results)
    requires j < |KahnOrder(c.graph)|
    requires forall u :: Reaches(c.graph.edges, u, KahnOrder(c.graph)[j]) ==> u !in absent
    ensures KahnOrder(c.graph)[j] in Cleared(s.results)
    decreases j
  {
    var g, order := c.graph, KahnOrder(c.graph);
    var v := order[j];
    KahnCharacterized(g);
    hide KahnInv;
    hide KahnOrder;
    assert v in order;
    forall e | e in g.edges && e.target == v ensures e.source in SetOf(s.q.unlocked) {
      assert e.source in order[..j];
      var k :| 0 <= k < j && order[k] == e.source;
      forall u | Reaches(g.edges, u, e.source) ensures u !in absent {
        SourceReaches(g.edges, u, e);
      }
      OrderIsCleared(c, s, absent, k);
    }
    PendingZero(g.edges, v, SetOf(s.q.unlocked));
    assert v in s.q.taken + s.q.ready;
    assert s.q.taken + s.q.ready == s.q.taken;
    assert PathFromTo(g.edges, [v], v, v);
  }

  lemma TakenAreSorted(g: Graph, q: Queue, v: Id)
    requires QueueInv(g, q) && v in q.taken
    ensures v in KahnOrder(g)
  {
    var order := KahnOrder(g);
    assert order + [] == order;
    assert forall x :: x in q.taken ==> x in q.taken + q.ready;
    ClosedContainsOrdered(g, q.taken, SetOf(order));
    assert v in SetOf(q.taken);
  }

  /** How a finished unfailed run stands. */
  lemma AtTheEnd(c: Config, acts: seq<Action>, states: seq<State>, i: nat)
    requires WellFormed(c) && IsRun(c, acts, states) && i < |states|
    requires states[i].mode.Ended? && !states[i].failed
    ensures var s := states[i];
            && QueueInv(c.graph, s.q) && SetOf(s.q.unlocked) == Cleared(s.results)
            && (forall id :: id in Cleared(s.results) <==> id in s.q.taken && id !in Absent(c, acts[..i]))
            && (c.maxParallel >= 0 ==> s.q.ready == [])
            && s.events != [] && s.events[|s.events| - 1] == ExecutionCompleted
  {
    var s := states[i];
    ReachInvariant(c, acts, states, i);
    FinishedAtRest(c, s, StoppedIds(acts[..i]));
    assert EndedWell(s) by {
      hide CoreInv;
      hide LogInv;
    }
    hide RunInv;
    hide ReachInv;
    hide RolledBack;
  }

  lemma ClearedHasNoneAbsentAbove(c: Config, acts: seq<Action>, states: seq<State>, i: nat, v: Id, u: Id)
    requires WellFormed(c) && IsRun(c, acts, states) && i < |states|
    requires states[i].mode.Ended? && !states[i].failed
    requires v in Cleared(states[i].results) && Reaches(c.graph.edges, u, v)
    ensures u !in Absent(c, acts[..i])
  {
    var q := states[i].q;
    AtTheEnd(c, acts, states, i);
    assert v in q.taken && v !in Absent(c, acts[..i]);
    if u in Absent(c, acts[..i]) {
      assert u !in SetOf(q.unlocked);
      hide *;
      UnreachedFrom(c.graph, q, u, v);
    }
  }

  /** A locked node reaches no taken one but itself. */
  lemma UnreachedFrom(g: Graph, q: Queue, u: Id, v: Id)
    requires QueueInv(g, q) && u !in q.unlocked && u != v && Reaches(g.edges, u, v)
    ensures v !in q.taken
  {
    var p :| PathFromTo(g.edges, p, u, v);
    LockedBlocks(g, q, p);
  }

  /**
   * A finished unfailed run, resumed or not, in any interleaving: exactly the sorted nodes end in
   * success or skipped that no saved, denied or paused node reaches, themselves included.
   */
  lemma ClearedIffNoneAbsentAbove(c: Config, acts: seq<Action>, states: seq<State>, i: nat, v: Id)
    requires WellFormed(c) && IsRun(c, acts, states) && i < |states| && c.maxParallel >= 0
    requires states[i].mode.Ended? && !states[i].failed
    ensures v in Cleared(states[i].results) <==>
              v in KahnOrder(c.graph) && forall u :: Reaches(c.graph.edges, u, v) ==> u !in Absent(c, acts[..i])
  {
    var s, order, absent := states[i], KahnOrder(c.graph), Absent(c, acts[..i]);
    AtTheEnd(c, acts, states, i);
    hide QueueInv;
    hide Absent;
    hide Cleared;
    hide KahnOrder;
    if v in Cleared(s.results) {
      TakenAreSorted(c.graph, s.q, v);
      forall u | Reaches(c.graph.edges, u, v) ensures u !in absent {
        ClearedHasNoneAbsentAbove(c, acts, states, i, v, u);
      }
    } else if v in order && forall u :: Reaches(c.graph.edges, u, v) ==> u !in absent {
      var j :| 0 <= j < |order| && order[j] == v;
      OrderIsCleared(c, s, absent, j);
    }
  }

  // ── When the closing event means what it says ────────────────────────────

  /** A negative limit takes nothing at all. */
  lemma {:induction false} NegativeLimitTakesNothing(c: Config, acts: seq<Action>, states: seq<State>, i: nat)
    requires WellFormed(c) && IsRun(c, acts, states) && i < |states| && c.maxParallel < 0
    ensures states[i].q.taken == []
  {
    if i > 0 {
      NegativeLimitTakesNothing(c, acts, states, i - 1);
      RunInvariant(c, acts, states, i - 1);
      assert StepAt(c, acts, states, i - 1);
      IdleStep(c, states[i - 1], acts[i - 1]);
    }
  }

  lemma IdleStep(c: Config, s: State, a: Action)
    requires RunInv(c, s) && Enabled(c, s, a) && c.maxParallel < 0 && s.q.taken == []
    ensures Apply(c, s, a).q == s.q
  {
    assert s.active.Keys <= SetOf(s.q.taken);
    assert s.active.Keys == {};
    hide RunInv;
    assert forall id :: id !in s.active;
  }

  /**
   * An unfailed run closes with execution.completed; it has done the whole sort exactly when no
   * sorted node was dropped for its checkpoint and no node was denied its lease or paused.
   */
  lemma CompletedIffNoneAbsent(c: Config, acts: seq<Action>, states: seq<State>, i: nat)
    requires WellFormed(c) && IsRun(c, acts, states) && i < |states|
    requires states[i].mode.Ended? && !states[i].failed
    ensures states[i].events != [] && states[i].events[|states[i].events| - 1] == ExecutionCompleted
    ensures SetOf(KahnOrder(c.graph)) <= Cleared(states[i].results) <==>
              || KahnOrder(c.graph) == []
              || (c.maxParallel >= 0 && SetOf(KahnOrder(c.graph)) !! CompletedIds(c) && StoppedIds(acts[..i]) == {})
  {
    var order := KahnOrder(c.graph);
    AtTheEnd(c, acts, states, i);
    hide QueueInv;
    hide KahnOrder;
    hide Cleared;
    EmptyIffNoMembers(order);
    if c.maxParallel < 0 {
      NegativeLimitTakesNothing(c, acts, states, i);
      assert Cleared(states[i].results) == {};
      assert order != [] ==> order[0] in SetOf(order);
    } else {
      StoppedAreSorted(c, acts, states, i);
      AllCleared(c, acts, states, i);
    }
  }

  lemma StoppedAreSorted(c: Config, acts: seq<Action>, states: seq<State>, i: nat)
    requires WellFormed(c) && IsRun(c, acts, states) && i < |states|
    ensures StoppedIds(acts[..i]) <= SetOf(KahnOrder(c.graph))
  {
    ReachInvariant(c, acts, states, i);
    var q := states[i].q;
    hide KahnOrder;
    forall id | id in StoppedIds(acts[..i]) ensures id in SetOf(KahnOrder(c.graph)) {
      assert id in SetOf(q.taken);
      TakenAreSorted(c.graph, q, id);
    }
  }

  lemma AllCleared(c: Config, acts: seq<Action>, states: seq<State>, i: nat)
    requires WellFormed(c) && IsRun(c, acts, states) && i < |states| && c.maxParallel >= 0
    requires states[i].mode.Ended? && !states[i].failed
    ensures SetOf(KahnOrder(c.graph)) <= Cleared(states[i].results) <==>
              SetOf(KahnOrder(c.graph)) !! Absent(c, acts[..i])
  {
    var g, order, absent := c.graph, KahnOrder(c.graph), Absent(c, acts[..i]);
    hide Absent;
    KahnCharacterized(g);
    hide KahnOrder;
    forall v | v in order
      ensures PathFromTo(g.edges, [v], v, v)
      ensures v in Cleared(states[i].results) <==> forall u :: Reaches(g.edges, u, v) ==> u !in absent {
      ClearedIffNoneAbsentAbove(c, acts, states, i, v);
    }
    forall v, u | v in order && Reaches(g.edges, u, v) ensures u in order {
      AncestorsAreSorted(g, u, v);
    }
  }

  lemma AncestorsAreSorted(g: Graph, u: Id, v: Id)
    requires v in KahnOrder(g) && Reaches(g.edges, u, v)
    ensures u in KahnOrder(g)
  {
    var order := KahnOrder(g);
    KahnCharacterized(g);
    hide KahnOrder;
    var p :| PathFromTo(g.edges, p, u, v);
    var j :| 0 <= j < |order| && order[j] == v;
    OrderedPath(g.edges, order, p, j);
  }

  // ── When resuming works ──────────────────────────────────────────────────

  lemma SmoothStep(c: Config, s: State, a: Action)
    requires Enabled(c, s, a) && GoodAction(a) && !s.failed && !s.aborted
    ensures !Apply(c, s, a).failed && !Apply(c, s, a).aborted && StoppedBy(a) == {}
  {
    hide SetShared;
    hide Relax;
  }

  lemma {:induction false} SmoothStays(c: Config, acts: seq<Action>, states: seq<State>, i: nat)
    requires SmoothRun(c, acts, states) && i < |states|
    ensures !states[i].failed && !states[i].aborted && StoppedIds(acts[..i]) == {}
  {
    if i > 0 {
      SmoothStays(c, acts, states, i - 1);
      assert StepAt(c, acts, states, i - 1);
      assert GoodAction(acts[i - 1]);
      hide Apply;
      SmoothStep(c, states[i - 1], acts[i - 1]);
      assert acts[..i] == acts[..i - 1] + [acts[i - 1]];
    }
  }

  /** Along a path into the sort, saved nodes lead only to saved nodes. */
  lemma {:induction false} SavedSpreads(c: Config, p: seq<Id>)
    requires ResumesCleanly(c) && IsPath(c.graph.edges, p) && p[0] in CompletedIds(c)
    requires p[|p| - 1] in KahnOrder(c.graph)
    ensures p[|p| - 1] in CompletedIds(c)
    decreases |p|
  {
    var n := |p| - 1;
    if n > 0 {
      var e := Edge(p[n - 1], p[n - 1 + 1]);
      assert e in c.graph.edges;
      SubPath(c.graph.edges, p, 0, n);
      assert PathFromTo(c.graph.edges, [p[n - 1], p[n]], p[n - 1], p[n]);
      hide KahnOrder;
      AncestorsAreSorted(c.graph, p[n - 1], p[n]);
      SavedSpreads(c, p[..n]);
    }
  }

  /** What a caller can check before resuming: no saved node has an unsaved sorted successor. */
  ghost predicate ResumesCleanly(c: Config) {
    forall e :: e in c.graph.edges && e.source in CompletedIds(c) && e.target in KahnOrder(c.graph)
      ==> e.target in CompletedIds(c)
  }

  /**
   * A resumed run in which nothing is denied, paused, failing or timed out skips the saved nodes
   * and does all the others exactly when no saved node has an unsaved sorted successor.
   */
  lemma ResumeCompletesIff(c: Config, acts: seq<Action>, states: seq<State>, i: nat)
    requires SmoothRun(c, acts, states) && i < |states| && states[i].mode.Ended?
    ensures SetOf(KahnOrder(c.graph)) - CompletedIds(c) == Cleared(states[i].results) <==> ResumesCleanly(c)
  {
    var g, order, saved, cleared := c.graph, KahnOrder(c.graph), CompletedIds(c), Cleared(states[i].results);
    SmoothStays(c, acts, states, i);
    assert Absent(c, acts[..i]) == saved;
    hide KahnOrder;
    hide Cleared;
    forall v ensures v in cleared <==> v in order && forall u :: Reaches(g.edges, u, v) ==> u !in saved {
      ClearedIffNoneAbsentAbove(c, acts, states, i, v);
    }
    if ResumesCleanly(c) {
      forall v, u | v in order && v !in saved && Reaches(g.edges, u, v) ensures u !in saved {
        var p :| PathFromTo(g.edges, p, u, v);
        if u in saved {
          SavedSpreads(c, p);
        }
      }
      forall v | v in order ensures PathFromTo(g.edges, [v], v, v) {
      }
    } else {
      var e :| e in g.edges && e.source in saved && e.target in order && e.target !in saved;
      assert PathFromTo(g.edges, [e.source, e.target], e.source, e.target);
      assert Reaches(g.edges, e.source, e.target);
      assert e.target !in cleared;
    }
  }

  lemma SeedIsSorted(g: Graph, u: Id)
    requires u in Seeds(g)
    ensures u in KahnOrder(g)
  {
    var order := KahnOrder(g);
    SeedsMembers(g);
    assert order + [] == order;
    PendingMonotone(g.edges, u, {}, SetOf(order));
  }

  lemma JoinSteps(c: Config, s: State, acts1: seq<Action>, states1: seq<State>, acts2: seq<Action>, states2: seq<State>)
    requires StepsFrom(c, s, acts1, states1) && StepsFrom(c, states1[|acts1|], acts2, states2)
    ensures StepsFrom(c, s, acts1 + acts2, states1 + states2[1..])
  {
    var acts, states := acts1 + acts2, states1 + states2[1..];
    hide Enabled;
    hide Apply;
    forall i | 0 <= i < |acts| ensures StepAt(c, acts, states, i) {
      GlueAt(states1, states2, i);
      GlueAt(states1, states2, i + 1);
      if i < |acts1| {
        assert StepAt(c, acts1, states1, i);
      } else {
        assert StepAt(c, acts2, states2, i - |acts1|);
      }
    }
  }

  /** The only entry node is started. */
  lemma EntryStarts(c: Config, u: Id) returns (states: seq<State>)
    requires c.maxParallel >= 0 && c.saved == [] && Seeds(c.graph) == [u]
    ensures StepsFrom(c, Init(c), [LoopTurn, LoopTurn, LoopTurn], states)
    ensures var s := states[3];
            && s.mode == Waiting(false) && s.active == map[u := Acquiring] && s.q.ready == []
            && !s.failed && !s.aborted && s.events == [] && s.results == []
  {
    hide Seeds;
    hide PendingMap;
    hide LoadSaved;
    var s1 := Apply(c, Init(c), LoopTurn);
    var s2 := Apply(c, s1, LoopTurn);
    var s3 := Apply(c, s2, LoopTurn);
    states := [Init(c), s1, s2, s3];
  }

  function DeniedReplies(u: Id): seq<Action> {
    [LeaseReply(u, false), Settle(u), Wake, LoopTurn, DrainDone]
  }

  /** Its lease is denied, and the loop runs out. */
  lemma DeniedSteps(c: Config, s: State, u: Id) returns (states: seq<State>)
    requires s.mode == Waiting(false) && s.active == map[u := Acquiring] && s.q.ready == []
    requires !s.failed && !s.aborted && s.events == [] && s.results == []
    ensures StepsFrom(c, s, DeniedReplies(u), states)
    ensures states[5].mode.Ended? && states[5].events == [ExecutionCompleted] && states[5].results == []
  {
    hide Relax;
    hide SetShared;
    var s1 := Apply(c, s, LeaseReply(u, false));
    var s2 := Apply(c, s1, Settle(u));
    assert s2.active == map[];
    var s3 := Apply(c, s2, Wake);
    var s4 := Apply(c, s3, LoopTurn);
    var s5 := Apply(c, s4, DrainDone);
    states := [s, s1, s2, s3, s4, s5];
  }

  /** One denied lease on the only entry node: the run completes and has done nothing. */
  lemma DeniedRunCompletesNothing(c: Config, u: Id) returns (acts: seq<Action>, states: seq<State>)
    requires WellFormed(c) && c.maxParallel >= 0 && c.saved == [] && Seeds(c.graph) == [u]
    ensures IsRun(c, acts, states) && |states| == 9 && acts[3] == LeaseReply(u, false)
    ensures states[8].mode.Ended? && states[8].events == [ExecutionCompleted] && states[8].results == []
    ensures u in KahnOrder(c.graph)
  {
    SeedIsSorted(c.graph, u);
    hide KahnOrder;
    hide Seeds;
    var first := EntryStarts(c, u);
    var rest := DeniedSteps(c, first[3], u);
    hide Apply;
    hide Enabled;
    JoinSteps(c, Init(c), [LoopTurn, LoopTurn, LoopTurn], first, DeniedReplies(u), rest);
    acts, states := [LoopTurn, LoopTurn, LoopTurn] + DeniedReplies(u), first + rest[1..];
    GlueAt(first, rest, 8);
  }
}
