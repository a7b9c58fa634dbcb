/** What every step of the concurrent scheduler keeps. */
module DagInvariants {
  import opened Seqs
  import opened Graphs
  import opened Kahn
  import opened DagState

  // ── The ready queue and the in-degrees ───────────────────────────────────

  /** Node ids with no edge pending from outside `unlocked`: each is waiting or has been taken, once. */
  ghost predicate QueueInv(g: Graph, q: Queue) {
    && SetOf(q.unlocked) <= SetOf(q.taken)
    && NoDup(q.unlocked)
    && q.deg == PendingMap(g, SetOf(q.unlocked))
    && NoDup(q.taken + q.ready)
    && Ordered(g.edges, q.taken)
    && forall v :: v in q.taken + q.ready <==> v in NodeIds(g) && Pending(g.edges, v, SetOf(q.unlocked)) == 0
  }

  lemma QueueInit(g: Graph)
    ensures QueueInv(g, Queue(Seeds(g), PendingMap(g, {}), [], []))
  {
    SeedsMembers(g);
    assert [] + Seeds(g) == Seeds(g);
    assert SetOf<Id>([]) == {};
  }

  lemma HeadIsNew(g: Graph, q: Queue)
    requires QueueInv(g, q) && q.ready != []
    ensures q.ready[0] !in q.taken && q.ready[0] !in q.unlocked && q.ready[0] in NodeIds(g)
  {
    NoDupConcat(q.taken, q.ready);
    assert q.ready[0] in q.ready;
    assert q.ready[0] in q.taken + q.ready;
    assert q.ready[0] !in SetOf(q.taken);
  }

  lemma QueueTakeHead(g: Graph, q: Queue)
    requires QueueInv(g, q) && q.ready != []
    ensures QueueInv(g, TakeHead(q))
  {
    var u := q.ready[0];
    assert (q.taken + [u]) + q.ready[1..] == q.taken + q.ready;
    assert u in q.taken + q.ready;
    PendingMonotone(g.edges, u, SetOf(q.unlocked), SetOf(q.taken));
    OrderedExtend(g.edges, q.taken, u);
  }

  lemma QueueUnlock(g: Graph, q: Queue, u: Id)
    requires QueueInv(g, q) && u in q.taken && u !in q.unlocked
    ensures QueueInv(g, UnlockQueue(g, q, u))
  {
    hide Relax;
    hide Pending;
    hide Ordered;
    var before, after := SetOf(q.unlocked), SetOf(q.unlocked + [u]);
    assert after == before + {u};
    RelaxUnlocks(g, before, u, NodeIds(g), q.ready);
    NewlyReadyMembers(g, before, u, NodeIds(g));
    var more := NewlyReady(g, before, u, NodeIds(g));
    var all := q.taken + q.ready;
    assert q.taken + (q.ready + more) == all + more;
    NoDupConcat(all, more);
    forall v ensures v in all + more <==> v in NodeIds(g) && Pending(g.edges, v, after) == 0 {
      if Pending(g.edges, v, before) == 0 {
        PendingMonotone(g.edges, v, before, after);
      }
    }
  }

  /** Every predecessor of a taken id has been unlocked. */
  lemma TakenPredecessors(g: Graph, q: Queue, e: Edge)
    requires QueueInv(g, q) && e in g.edges && e.target in q.taken
    ensures e.source in q.unlocked && e.source in SetOf(q.unlocked)
  {
    assert e.target in q.taken + q.ready;
    PendingZero(g.edges, e.target, SetOf(q.unlocked));
  }

  // ── Started nodes and their phases ───────────────────────────────────────

  predicate PastUnlock(p: Phase) {
    p.Releasing? || p.Settling?
  }

  ghost predicate PhaseInv(c: Config, s: State) {
    && s.active.Keys <= SetOf(s.q.taken) - CompletedIds(c)
    && (forall id :: id in s.inFlight <==> id in s.active && !s.active[id].Settling?)
    && (forall id :: id in s.active && !PastUnlock(s.active[id]) ==> id !in s.q.unlocked)
    && SetOf(s.q.unlocked) !! CompletedIds(c)
    && (c.maxParallel > 0 ==> |s.active| <= c.maxParallel)
  }

  ghost predicate CoreInv(c: Config, s: State) {
    QueueInv(c.graph, s.q) && PhaseInv(c, s)
  }

  lemma SizeAfterInsert<K, V>(m: map<K, V>, k: K, v: V)
    ensures k !in m ==> |m[k := v]| == |m| + 1
    ensures k in m ==> |m[k := v]| == |m|
  {
    assert m[k := v].Keys == m.Keys + {k};
    assert |m[k := v]| == |m[k := v].Keys| && |m| == |m.Keys|;
  }

  lemma CoreUnlock(c: Config, s: State, id: Id)
    requires CoreInv(c, s) && id in s.active && !PastUnlock(s.active[id])
    ensures var s1 := UnlockDownstream(c, s, id);
            CoreInv(c, s1.(active := s1.active[id := Releasing]))
  {
    hide QueueInv;
    assert id in SetOf(s.q.taken);
    if !s.failed {
      QueueUnlock(c.graph, s.q, id);
      assert SetOf(s.q.unlocked + [id]) == SetOf(s.q.unlocked) + {id};
    }
    SizeAfterInsert(s.active, id, Releasing);
  }

  /** A change of phase that does not pass the unlocking point backwards. */
  lemma CorePhase(c: Config, s: State, id: Id, p: Phase, flying: set<Id>)
    requires CoreInv(c, s) && id in s.active
    requires PastUnlock(p) || !PastUnlock(s.active[id])
    requires flying == if p.Settling? then s.inFlight - {id} else s.inFlight
    requires !s.active[id].Settling?
    ensures CoreInv(c, s.(active := s.active[id := p], inFlight := flying))
  {
    hide QueueInv;
    SizeAfterInsert(s.active, id, p);
  }

  /** A freshly taken node starts in phase p; only a node left Settling is not in flight. */
  lemma PhaseEnter(c: Config, s: State, id: Id, p: Phase, flying: set<Id>)
    requires PhaseInv(c, s) && CanStart(c, s)
    requires id !in s.q.taken && id !in s.q.unlocked && id !in CompletedIds(c)
    requires (p == Settling && flying == s.inFlight) || (p == Acquiring && flying == s.inFlight + {id})
    requires s.q.ready != [] && s.q.ready[0] == id
    ensures PhaseInv(c, s.(q := TakeHead(s.q), active := s.active[id := p], inFlight := flying))
  {
    assert SetOf(s.q.taken + [id]) == SetOf(s.q.taken) + {id};
    assert id !in SetOf(s.q.taken);
    SizeAfterInsert(s.active, id, p);
  }

  lemma PhaseDrop(c: Config, s: State)
    requires PhaseInv(c, s) && s.q.ready != []
    ensures PhaseInv(c, s.(q := TakeHead(s.q)))
  {
  }

  lemma CoreAdmit(c: Config, s: State)
    requires CoreInv(c, s) && s.q.ready != [] && CanStart(c, s)
    ensures CoreInv(c, AdmitHead(c, s))
  {
    var id := s.q.ready[0];
    HeadIsNew(c.graph, s.q);
    QueueTakeHead(c.graph, s.q);
    hide QueueInv;
    if id in s.inFlight || id in CompletedIds(c) {
      PhaseDrop(c, s);
    } else if s.aborted || s.failed {
      PhaseEnter(c, s, id, Settling, s.inFlight);
    } else {
      PhaseEnter(c, s, id, Acquiring, s.inFlight + {id});
    }
  }

  lemma CoreSettle(c: Config, s: State, id: Id)
    requires CoreInv(c, s) && IsIn(s, id, Settling)
    ensures CoreInv(c, s.(active := s.active - {id}))
  {
    hide QueueInv;
    var active := s.active - {id};
    assert active.Keys == s.active.Keys - {id};
    assert |active| == |active.Keys| && |s.active| == |s.active.Keys|;
  }

  /** Only these fields matter to CoreInv. */
  lemma CoreFrame(c: Config, s: State, s1: State)
    requires CoreInv(c, s) && s1.q == s.q && s1.active == s.active && s1.inFlight == s.inFlight
    ensures CoreInv(c, s1)
  {
  }

  lemma CoreInit(c: Config)
    ensures CoreInv(c, Init(c))
  {
    QueueInit(c.graph);
  }

  lemma CoreExecute(c: Config, s: State, id: Id, status: Status, output: Output)
    requires CoreInv(c, s) && IsIn(s, id, Executing)
    ensures CoreInv(c, AfterExecute(c, s, id, status, output))
  {
    hide CoreInv;
    hide SetShared;
    var s1 := s.(results := s.results + [Result(id, status, output)]);
    if status == Paused || status == Failed {
      CorePhase(c, s, id, Releasing, s.inFlight);
      CoreFrame(c, s.(active := s.active[id := Releasing]), AfterExecute(c, s, id, status, output));
    } else if c.hasIdempotencyStore {
      CorePhase(c, s, id, Marking(output), s.inFlight);
      CoreFrame(c, s.(active := s.active[id := Marking(output)]), AfterExecute(c, s, id, status, output));
    } else {
      var s2 := s1.(shared := SetShared(s.shared, id, output));
      var s3 := if c.enableSaga then s2.(saga := s.saga + [SagaEntry(id, output)]) else s2;
      CoreFrame(c, s, s3);
      CoreUnlock(c, s3, id);
    }
  }

  lemma CoreSkip(c: Config, s: State, id: Id, output: Output)
    requires CoreInv(c, s) && id in s.active && !PastUnlock(s.active[id])
    ensures CoreInv(c, Skip(c, s, id, output))
  {
    hide CoreInv;
    var s1 := s.(results := s.results + [Result(id, Skipped, output)]);
    CoreFrame(c, s, s1);
    CoreUnlock(c, s1, id);
  }

  lemma CoreFinish(c: Config, s: State, id: Id, output: Output)
    requires CoreInv(c, s) && id in s.active && !PastUnlock(s.active[id])
    ensures CoreInv(c, Finish(c, s, id, output))
  {
    hide CoreInv;
    var s1 := if c.enableSaga then s.(saga := s.saga + [SagaEntry(id, output)]) else s;
    CoreFrame(c, s, s1);
    CoreUnlock(c, s1, id);
  }

  lemma CoreStep(c: Config, s: State, a: Action)
    requires CoreInv(c, s) && Enabled(c, s, a)
    ensures CoreInv(c, Apply(c, s, a))
  {
    hide CoreInv;
    hide SetShared;
    match a
    case LoopTurn =>
      if s.mode.Admitting? && s.q.ready != [] && CanStart(c, s) {
        CoreAdmit(c, s);
      } else {
        CoreFrame(c, s, LoopStep(c, s));
      }
    case LeaseReply(id, granted) =>
      if !granted {
        CorePhase(c, s, id, Settling, s.inFlight - {id});
      } else if id in CompletedIds(c) {
        CoreSkip(c, s, id, SavedOutput(c.saved, id));
      } else {
        CorePhase(c, s, id, if c.hasIdempotencyStore then Probing else Executing, s.inFlight);
      }
    case ProbeReply(id, hit) => CorePhase(c, s, id, if hit then Fetching else Executing, s.inFlight);
    case OutputReply(id, output) =>
      var s1 := s.(shared := SetShared(s.shared, id, output));
      CoreFrame(c, s, s1);
      CoreSkip(c, s1, id, output);
    case ExecuteReply(id, status, output) => CoreExecute(c, s, id, status, output);
    case MarkReply(id) => CoreFinish(c, s, id, s.active[id].output);
    case ReleaseReply(id) => CorePhase(c, s, id, Settling, s.inFlight - {id});
    case Settle(id) =>
      CoreSettle(c, s, id);
      CoreFrame(c, s.(active := s.active - {id}), Apply(c, s, a));
    case Wake => CoreFrame(c, s, Apply(c, s, a));
    case Timeout => CoreFrame(c, s, Apply(c, s, a));
    case DrainDone => CoreFrame(c, s, Apply(c, s, a));
    case Compensate(_) => CoreFrame(c, s, Apply(c, s, a));
  }
}
