/** The scheduler object: mutable fields, one method per atomic segment, each refining its step. */
module DagRunner {
  import opened Seqs
  import opened Graphs
  import opened Kahn
  import TopologicalSort
  import opened DagState

  ghost predicate InLoop(s: State) {
    s.mode.Deciding? || s.mode.Admitting?
  }

  /** k steps of the scheduling loop. */
  ghost function LoopSteps(c: Config, s: State, k: nat): State {
    if k == 0 then s else LoopStep(c, LoopSteps(c, s, k - 1))
  }

  ghost predicate LoopTrace(c: Config, s: State, k: nat, s1: State) {
    LoopSteps(c, s, k) == s1 && forall j: nat :: j < k ==> InLoop(LoopSteps(c, s, j))
  }

  /** s1 is where the loop, run without interruption from s, hands control back. */
  ghost predicate LoopOutcome(c: Config, s: State, s1: State) {
    !InLoop(s1) && exists k: nat :: LoopTrace(c, s, k, s1)
  }

  lemma LoopTraceStep(c: Config, s: State, k: nat, s1: State)
    requires LoopTrace(c, s, k, s1) && InLoop(s1)
    ensures LoopTrace(c, s, k + 1, LoopStep(c, s1))
  {
    hide LoopStep;
  }

  class DagRun {
    const c: Config
    var adjacency: map<Id, seq<Id>>
    var mode: Mode
    var readyQueue: seq<Id>
    var localInDegree: map<Id, int>
    var inFlight: set<Id>
    var active: map<Id, Phase>
    var results: seq<Result>
    var sagaStack: seq<SagaEntry>
    var sharedState: seq<Entry>
    var failed: bool
    var failure: Failure
    var aborted: bool
    var events: seq<Event>
    ghost var taken: seq<Id>
    ghost var unlocked: seq<Id>

    ghost predicate Valid()
      reads this
    {
      adjacency.Keys == NodeIds(c.graph) && forall u :: u in adjacency ==> adjacency[u] == Successors(c.graph.edges, u)
    }

    ghost function Snapshot(): State
      reads this
    {
      State(mode, Queue(readyQueue, localInDegree, taken, unlocked), inFlight, active, results, sagaStack,
            sharedState, failed, failure, aborted, events)
    }

    constructor (c: Config)
      ensures Valid() && this.c == c && Snapshot() == Init(c)
    {
      this.c := c;
      mode, inFlight, active, results, sagaStack := Deciding, {}, map[], [], [];
      failed, failure, aborted, events, taken, unlocked := false, NoFailure, false, [], [], [];
      sharedState := LoadSaved(c.inherited, c.saved);
      new;
      localInDegree := BuildInDegreeMap(c.graph);
      adjacency := BuildAdjacencyMap(c.graph);
      readyQueue := SeedQueue(c.graph, localInDegree);
    }

    // ── The scheduling loop ────────────────────────────────────────────────

    /** The while guard and the abort check. */
    method Guard()
      requires Valid() && mode.Deciding?
      modifies this
      ensures Valid() && Snapshot() == LoopStep(c, old(Snapshot()))
    {
      if !((readyQueue != [] || active != map[]) && !failed) {
        mode := Draining;
      } else if aborted {
        failed, failure, mode := true, TimedOut, Draining;
      } else {
        mode := Admitting;
      }
    }

    /** From the loop's guard to its next await, or out of it. */
    method Turn()
      requires Valid() && mode.Deciding?
      modifies this
      ensures Valid() && LoopOutcome(c, old(Snapshot()), Snapshot())
    {
      ghost var start := Snapshot();
      ghost var k: nat := 1;
      assert LoopTrace(c, start, 0, start);
      LoopTraceStep(c, start, 0, start);
      Guard();
      hide LoopTrace;
      hide LoopStep;
      if mode.Draining? {
        return;
      }
      while readyQueue != [] && (c.maxParallel == 0 || |active| < c.maxParallel)
        invariant Valid() && mode.Admitting? && LoopTrace(c, start, k, Snapshot())
        decreases |readyQueue|
      {
        LoopTraceStep(c, start, k, Snapshot());
        Admit();
        k := k + 1;
      }
      LoopTraceStep(c, start, k, Snapshot());
      LeaveInnerLoop();
    }

    /** break when nothing is active, otherwise await Promise.race. */
    method LeaveInnerLoop()
      requires Valid() && mode.Admitting? && !(readyQueue != [] && CanStart(c, Snapshot()))
      modifies this
      ensures Valid() && Snapshot() == LoopStep(c, old(Snapshot())) && !InLoop(Snapshot())
    {
      mode := if active == map[] then Draining else Waiting(false);
    }

    /** Shift the head and start processNode up to its first await. */
    method Admit()
      requires Valid() && mode.Admitting? && readyQueue != [] && CanStart(c, Snapshot())
      modifies this
      ensures Valid() && mode.Admitting? && |readyQueue| < |old(readyQueue)|
      ensures Snapshot() == LoopStep(c, old(Snapshot()))
    {
      var id := readyQueue[0];
      readyQueue := readyQueue[1..];
      taken := taken + [id];
      if id in inFlight || id in CompletedIds(c) {
        return;
      }
      if aborted || failed {
        active := active[id := Settling];
        return;
      }
      inFlight := inFlight + {id};
      active := active[id := Acquiring];
    }

    // ── Continuations of processNode ───────────────────────────────────────

    method UnlockDownstream(id: Id)
      requires Valid() && id in adjacency
      modifies this
      ensures Valid() && Snapshot() == DagState.UnlockDownstream(c, old(Snapshot()), id)
    {
      if failed {
        return;
      }
      var neighbours := adjacency[id];
      ghost var start := Relaxed(localInDegree, readyQueue);
      for j := 0 to |neighbours|
        invariant Relaxed(localInDegree, readyQueue) == Relax(start, neighbours[..j], NodeIds(c.graph))
        invariant Snapshot() == old(Snapshot()).(q := old(Snapshot()).q.(ready := readyQueue, deg := localInDegree))
        invariant adjacency == old(adjacency)
      {
        TakeStep(neighbours, j);
        hide Relax;
        DecrementOne(neighbours[j]);
      }
      assert neighbours[..|neighbours|] == neighbours;
      unlocked := unlocked + [id];
    }

    method DecrementOne(v: Id)
      modifies this
      ensures Relaxed(localInDegree, readyQueue)
           == RelaxOne(Relaxed(old(localInDegree), old(readyQueue)), v, NodeIds(c.graph))
      ensures Snapshot() == old(Snapshot()).(q := old(Snapshot()).q.(ready := readyQueue, deg := localInDegree))
      ensures adjacency == old(adjacency)
    {
      var newDegree := (if v in localInDegree then localInDegree[v] else 1) - 1;
      localInDegree := localInDegree[v := newDegree];
      if newDegree == 0 && v in NodeIds(c.graph) {
        readyQueue := readyQueue + [v];
      }
    }

    method PushSkipped(id: Id, output: Output)
      requires Valid() && id in adjacency
      modifies this
      ensures Valid() && Snapshot() == DagState.Skip(c, old(Snapshot()), id, output)
    {
      results := results + [Result(id, Skipped, output)];
      UnlockDownstream(id);
      active := active[id := Releasing];
    }

    method RecordAndUnlock(id: Id, output: Output)
      requires Valid() && id in adjacency
      modifies this
      ensures Valid() && Snapshot() == DagState.Finish(c, old(Snapshot()), id, output)
    {
      if c.enableSaga {
        sagaStack := sagaStack + [SagaEntry(id, output)];
      }
      UnlockDownstream(id);
      active := active[id := Releasing];
    }

    method OnLease(id: Id, granted: bool)
      requires Valid() && id in adjacency && Enabled(c, Snapshot(), LeaseReply(id, granted))
      modifies this
      ensures Valid() && Snapshot() == Apply(c, old(Snapshot()), LeaseReply(id, granted))
    {
      if !granted {
        inFlight := inFlight - {id};
        active := active[id := Settling];
      } else if id in CompletedIds(c) {
        PushSkipped(id, SavedOutput(c.saved, id));
      } else {
        active := active[id := if c.hasIdempotencyStore then Probing else Executing];
      }
    }

    method OnProbe(id: Id, hit: bool)
      requires Valid() && Enabled(c, Snapshot(), ProbeReply(id, hit))
      modifies this
      ensures Valid() && Snapshot() == Apply(c, old(Snapshot()), ProbeReply(id, hit))
    {
      active := active[id := if hit then Fetching else Executing];
    }

    method OnOutput(id: Id, output: Output)
      requires Valid() && id in adjacency && Enabled(c, Snapshot(), OutputReply(id, output))
      modifies this
      ensures Valid() && Snapshot() == Apply(c, old(Snapshot()), OutputReply(id, output))
    {
      hide SetShared;
      sharedState := SetShared(sharedState, id, output);
      PushSkipped(id, output);
    }

    method RecordSuccess(id: Id, output: Output)
      requires Valid() && id in adjacency && IsIn(Snapshot(), id, Executing)
      modifies this
      ensures Valid() && Snapshot() == AfterExecute(c, old(Snapshot()), id, Success, output)
    {
      hide SetShared;
      hide DagState.Finish;
      results := results + [Result(id, Success, output)];
      sharedState := SetShared(sharedState, id, output);
      if c.hasIdempotencyStore {
        active := active[id := Marking(output)];
      } else {
        RecordAndUnlock(id, output);
      }
    }

    method RecordPause(id: Id, output: Output)
      requires Valid() && IsIn(Snapshot(), id, Executing)
      modifies this
      ensures Valid() && Snapshot() == AfterExecute(c, old(Snapshot()), id, Paused, output)
    {
      results := results + [Result(id, Paused, output)];
      active := active[id := Releasing];
    }

    method RecordFailure(id: Id, output: Output)
      requires Valid() && IsIn(Snapshot(), id, Executing)
      modifies this
      ensures Valid() && Snapshot() == AfterExecute(c, old(Snapshot()), id, Failed, output)
    {
      results := results + [Result(id, Failed, output)];
      Fail(id);
      active := active[id := Releasing];
    }

    method Fail(id: Id)
      requires Valid()
      modifies this
      ensures Valid()
      ensures Snapshot() == old(Snapshot()).(failed := true, failure := NodeFailure(id),
                                             events := old(events) + [DlqEntry(id)])
    {
      failed, failure := true, NodeFailure(id);
      events := events + [DlqEntry(id)];
    }

    method OnExecuted(id: Id, status: Status, output: Output)
      requires Valid() && id in adjacency && Enabled(c, Snapshot(), ExecuteReply(id, status, output))
      modifies this
      ensures Valid() && Snapshot() == Apply(c, old(Snapshot()), ExecuteReply(id, status, output))
    {
      hide AfterExecute;
      if status == Paused {
        RecordPause(id, output);
      } else if status == Failed {
        RecordFailure(id, output);
      } else {
        RecordSuccess(id, output);
      }
    }

    method OnMarked(id: Id)
      requires Valid() && id in adjacency && Enabled(c, Snapshot(), MarkReply(id))
      modifies this
      ensures Valid() && Snapshot() == Apply(c, old(Snapshot()), MarkReply(id))
    {
      var output := active[id].output;
      RecordAndUnlock(id, output);
    }

    method OnReleased(id: Id)
      requires Valid() && Enabled(c, Snapshot(), ReleaseReply(id))
      modifies this
      ensures Valid() && Snapshot() == Apply(c, old(Snapshot()), ReleaseReply(id))
    {
      inFlight := inFlight - {id};
      active := active[id := Settling];
    }

    method OnSettled(id: Id)
      requires Valid() && Enabled(c, Snapshot(), Settle(id))
      modifies this
      ensures Valid() && Snapshot() == Apply(c, old(Snapshot()), Settle(id))
    {
      active := active - {id};
      if mode.Waiting? {
        mode := Waiting(true);
      }
    }

    // ── After the loop ─────────────────────────────────────────────────────

    method Close()
      requires Valid()
      modifies this
      ensures Valid() && Snapshot() == End(old(Snapshot()))
    {
      events := events + [if failed then ExecutionFailed(failure) else ExecutionCompleted];
      mode := Ended;
    }

    method OnDrained()
      requires Valid() && Enabled(c, Snapshot(), DrainDone)
      modifies this
      ensures Valid() && Snapshot() == Apply(c, old(Snapshot()), DrainDone)
    {
      if failed && c.enableSaga && |sagaStack| > 0 {
        events := events + [SagaCompensating(|sagaStack|)];
        mode := Compensating(|sagaStack|);
      } else {
        Close();
      }
    }

    /** One iteration of the rollback loop; the last one falls through to the closing event. */
    method OnCompensated(ok: bool)
      requires Valid() && Enabled(c, Snapshot(), Compensate(ok))
      modifies this
      ensures Valid() && Snapshot() == Apply(c, old(Snapshot()), Compensate(ok))
    {
      if mode.left == 0 {
        Close();
        return;
      }
      var entry := sagaStack[mode.left - 1];
      events := events + [NodeCompensating(entry.id)] + (if ok then [NodeCompensated(entry.id)] else []);
      mode := Compensating(mode.left - 1);
    }
  }

  /** The throw at the top of run fires exactly when no node is free of incoming edges. */
  lemma ThrowsIffNoEntryNode(g: Graph)
    ensures KahnOrder(g) == [] <==> forall v :: v in NodeIds(g) ==> Pending(g.edges, v, {}) > 0
  {
    KahnSeeded(g);
    SeedsMembers(g);
    var seeds := Seeds(g);
    hide KahnInv;
    hide Seeds;
    if seeds != [] {
      KahnRunStep(g, [], seeds);
      assert [] + [seeds[0]] <= KahnOrder(g);
      assert seeds[0] in seeds;
    }
    EmptyIffNoMembers(seeds);
  }

  method Start(c: Config) returns (run: DagRun?)
    ensures run == null <==> KahnOrder(c.graph) == [] && c.graph.nodes != []
    ensures run != null ==> fresh(run) && run.Valid() && run.c == c && run.Snapshot() == Init(c)
  {
    var sorted := TopologicalSort.TopologicalSort(c.graph);
    assert TopologicalSort.IdsOf(sorted) == [] <==> sorted == [];
    if sorted == [] && c.graph.nodes != [] {
      return null;
    }
    run := new DagRun(c);
  }
}
