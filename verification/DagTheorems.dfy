/** The scheduler's promises, over every interleaving of every run. */
module DagTheorems {
  import opened Seqs
  import opened Graphs
  import opened Kahn
  import opened DagState
  import opened DagInvariants
  import opened DagLog
  import opened DagRuns

  // ── Scheduling ───────────────────────────────────────────────────────────

  /** localInDegree[v] counts the edges into v, parallel ones too, whose source is not unlocked. */
  lemma InDegreesCountLockedEdges(c: Config, acts: seq<Action>, states: seq<State>, i: nat, v: Id)
    requires WellFormed(c) && IsRun(c, acts, states) && i < |states|
    ensures var q := states[i].q;
            && (v in q.deg <==> v in Keys(c.graph))
            && (v in q.deg ==> q.deg[v] == Pending(c.graph.edges, v, SetOf(q.unlocked)))
  {
    RunInvariant(c, acts, states, i);
  }

  /** A node is taken at most once, and only after every predecessor succeeded or was skipped. */
  lemma TakenOnceAfterPredecessors(c: Config, acts: seq<Action>, states: seq<State>, i: nat)
    requires WellFormed(c) && IsRun(c, acts, states) && i < |states|
    ensures NoDup(states[i].q.taken)
    ensures forall e :: e in c.graph.edges && e.target in states[i].q.taken ==> e.source in Cleared(states[i].results)
  {
    var s := states[i];
    RunInvariant(c, acts, states, i);
    NoDupConcat(s.q.taken, s.q.ready);
    forall e | e in c.graph.edges && e.target in s.q.taken ensures e.source in Cleared(s.results) {
      TakenPredecessors(c.graph, s.q, e);
      assert e.source in SetOf(s.q.unlocked);
    }
  }

  lemma FailedStep(c: Config, s: State, a: Action)
    requires Enabled(c, s, a) && s.failed && !s.mode.Admitting?
    ensures var s1 := Apply(c, s, a);
            s1.failed && s1.q == s.q && forall id :: IsIn(s1, id, Acquiring) ==> IsIn(s, id, Acquiring)
  {
    hide SetShared;
    hide Relax;
  }

  /** Once a node has failed or the run timed out, nothing more is taken and no node is started. */
  lemma NothingTakenAfterFailure(c: Config, acts: seq<Action>, states: seq<State>, i: nat)
    requires WellFormed(c) && IsRun(c, acts, states) && i < |acts| && states[i].failed
    ensures states[i + 1].q == states[i].q
    ensures states[i + 1].failed
    ensures forall id :: IsIn(states[i + 1], id, Acquiring) ==> IsIn(states[i], id, Acquiring)
  {
    RunInvariant(c, acts, states, i);
    assert StepAt(c, acts, states, i);
    assert ModeInv(c, states[i]);
    hide CoreInv;
    hide LogInv;
    hide RolledBack;
    hide Apply;
    FailedStep(c, states[i], acts[i]);
  }

  /** Nor is anything taken once the timer has fired, though what runs may go on to finish. */
  lemma NothingTakenAfterTimeout(c: Config, acts: seq<Action>, states: seq<State>, i: nat)
    requires WellFormed(c) && IsRun(c, acts, states) && i < |acts| && states[i].aborted
    ensures states[i + 1].q.taken == states[i].q.taken
    ensures states[i + 1].aborted
  {
    RunInvariant(c, acts, states, i);
    assert StepAt(c, acts, states, i);
    assert ModeInv(c, states[i]);
    hide CoreInv;
    hide LogInv;
    hide RolledBack;
    hide Apply;
    AbortedStep(c, states[i], acts[i]);
  }

  lemma AbortedStep(c: Config, s: State, a: Action)
    requires Enabled(c, s, a) && s.aborted && !s.mode.Admitting?
    ensures Apply(c, s, a).q.taken == s.q.taken && Apply(c, s, a).aborted
  {
    hide SetShared;
    hide Relax;
  }

  /** The loop waits only when nothing is ready or the limit is used up: capacity is never left idle. */
  lemma NoIdleCapacity(c: Config, acts: seq<Action>, states: seq<State>, i: nat)
    requires IsRun(c, acts, states) && i < |acts| && acts[i] == LoopTurn && states[i + 1].mode.Waiting?
    ensures var s := states[i + 1]; s.q.ready == [] || (c.maxParallel != 0 && |s.active| >= c.maxParallel)
    ensures states[i + 1].active != map[]
  {
    assert StepAt(c, acts, states, i);
    hide IsRun;
  }

  lemma ParallelLimit(c: Config, acts: seq<Action>, states: seq<State>, i: nat)
    requires WellFormed(c) && IsRun(c, acts, states) && i < |states| && c.maxParallel > 0
    ensures |states[i].active| <= c.maxParallel
  {
    RunInvariant(c, acts, states, i);
  }

  // ── Saga rollback ────────────────────────────────────────────────────────

  /** Reversing a stack with sources below targets puts targets first. */
  lemma ReverseSagaOrder(edges: seq<Edge>, saga: seq<SagaEntry>, succeeded: set<Id>, u: Id, v: Id)
    requires SagaOrdered(edges, saga, succeeded) && NoDup(SagaIds(saga))
    requires Edge(u, v) in edges && u in succeeded && v in SagaIds(saga)
    ensures exists i, j :: 0 <= i < j < |saga| && Reverse(SagaIds(saga))[i] == v && Reverse(SagaIds(saga))[j] == u
  {
    var ids := SagaIds(saga);
    var k :| 0 <= k < |ids| && ids[k] == v;
    assert Edge(u, v).target == saga[k].id;
    var below := SagaIds(saga[..k]);
    assert u in below;
    var m :| 0 <= m < k && below[m] == u;
    assert ids[m] == u && |ids| == |saga|;
    hide *;
    ReverseAt(ids, |ids| - 1 - m);
    ReverseAt(ids, |ids| - 1 - k);
  }

  /**
   * A finished run that failed or timed out with the saga enabled has visited exactly the nodes
   * that succeeded in it, once each, targets before sources, whatever each compensation returned.
   */
  lemma RollbackIsComplete(c: Config, acts: seq<Action>, states: seq<State>, i: nat)
    requires WellFormed(c) && IsRun(c, acts, states) && i < |states|
    requires states[i].mode.Ended? && states[i].failed && c.enableSaga
    ensures var back := RolledBack(states[i].events);
            && NoDup(back)
            && SetOf(back) == Succeeded(states[i].results)
            && forall u, v :: Edge(u, v) in c.graph.edges && u in back && v in back ==>
                 exists x, y :: 0 <= x < y < |back| && back[x] == v && back[y] == u
  {
    var s := states[i];
    RunInvariant(c, acts, states, i);
    assert s.active == map[];
    var ids := SagaIds(s.saga);
    var back := RolledBack(s.events);
    assert back == Reverse(ids);
    assert forall x :: x in ids <==> x in Succeeded(s.results);
    assert SagaOrdered(c.graph.edges, s.saga, Succeeded(s.results)) && NoDup(ids);
    hide RunInv;
    ReversedMembers(ids);
    forall u, v | Edge(u, v) in c.graph.edges && u in back && v in back
      ensures exists x, y :: 0 <= x < y < |back| && back[x] == v && back[y] == u {
      ReverseSagaOrder(c.graph.edges, s.saga, Succeeded(s.results), u, v);
    }
  }

  lemma ReversedMembers(ids: seq<Id>)
    ensures forall x :: x in Reverse(ids) <==> x in ids
    ensures NoDup(ids) ==> NoDup(Reverse(ids))
  {
    var back, n := Reverse(ids), |ids|;
    hide Reverse;
    assert forall k :: 0 <= k < n ==> back[k] == ids[n - 1 - k];
    forall x | x in ids ensures x in back {
      var k :| 0 <= k < n && ids[k] == x;
      assert back[n - 1 - k] == x;
    }
  }

  /** An unfailed run, or one without the saga, rolls nothing back. */
  lemma NoRollbackOtherwise(c: Config, acts: seq<Action>, states: seq<State>, i: nat)
    requires WellFormed(c) && IsRun(c, acts, states) && i < |states|
    requires states[i].mode.Ended? && (!states[i].failed || !c.enableSaga)
    ensures RolledBack(states[i].events) == []
  {
    RunInvariant(c, acts, states, i);
    assert SagaInv(c, states[i]);
  }

  /** Exactly one closing event, the last one, and it says whether the run failed. */
  lemma OneClosingEvent(c: Config, acts: seq<Action>, states: seq<State>, i: nat)
    requires WellFormed(c) && IsRun(c, acts, states) && i < |states|
    ensures !states[i].mode.Ended? ==> NoTerminal(states[i].events)
    ensures states[i].mode.Ended? ==>
              var n := |states[i].events| - 1;
              && n >= 0 && NoTerminal(states[i].events[..n])
              && states[i].events[n] == if states[i].failed then ExecutionFailed(states[i].failure)
                  else ExecutionCompleted
  {
    RunInvariant(c, acts, states, i);
  }

  // ── Gathered input ───────────────────────────────────────────────────────

  /** Every key the fields and the entries carry, each with its last writer's value. */
  lemma {:induction false} GatherLastWriter(trigger: Output, shared: seq<Entry>, k: string)
    ensures k in GatherInputs(trigger, shared) <==>
              k in trigger || exists i :: 0 <= i < |shared| && k in shared[i].output
    ensures forall i :: 0 <= i < |shared| && k in shared[i].output
              && (forall j :: i < j < |shared| ==> k !in shared[j].output)
              ==> GatherInputs(trigger, shared)[k] == shared[i].output[k]
    ensures (k in trigger && forall i :: 0 <= i < |shared| ==> k !in shared[i].output)
         ==> GatherInputs(trigger, shared)[k] == trigger[k]
  {
    if shared != [] {
      var n := |shared| - 1;
      GatherLastWriter(trigger, shared[..n], k);
      var rest := shared[..n];
      assert forall i :: 0 <= i < n ==> rest[i] == shared[i];
      assert GatherInputs(trigger, shared) == GatherInputs(trigger, rest) + shared[n].output;
    }
  }

  /** Every ancestor of a taken node has a result that cleared it. */
  lemma {:induction false} AncestorsCleared(c: Config, s: State, p: seq<Id>)
    requires RunInv(c, s) && IsPath(c.graph.edges, p) && |p| >= 2 && p[|p| - 1] in s.q.taken
    ensures p[0] in Cleared(s.results)
    decreases |p|
  {
    var n := |p| - 1;
    var e := Edge(p[n - 1], p[n - 1 + 1]);
    assert e in c.graph.edges;
    TakenPredecessors(c.graph, s.q, e);
    assert e.source in SetOf(s.q.unlocked);
    if n > 1 {
      SubPath(c.graph.edges, p, 0, n);
      assert e.source in SetOf(s.q.taken);
      AncestorsCleared(c, s, p[..n]);
    }
  }

  lemma ClearedIsShared(s: State, id: Id) returns (i: nat, r: Result)
    requires SharedInv(s) && id in Cleared(s.results)
    ensures r in s.results && r.id == id && i < |s.shared| && s.shared[i] == Entry(id, r.output)
  {
    r :| r in s.results && (r.status == Success || r.status == Skipped) && r.id == id;
    assert Entry(id, r.output) in s.shared;
    i :| 0 <= i < |s.shared| && s.shared[i] == Entry(id, r.output);
  }

  /** While a node executes, its gathered input has every key of every ancestor's recorded output. */
  lemma InputCoversAncestors(c: Config, acts: seq<Action>, states: seq<State>, i: nat, v: Id, u: Id, p: seq<Id>)
    requires WellFormed(c) && IsRun(c, acts, states) && i < |states|
    requires IsIn(states[i], v, Executing) && PathFromTo(c.graph.edges, p, u, v) && |p| >= 2
    ensures exists r :: && r in states[i].results && r.id == u
                        && r.output.Keys <= GatherInputs(c.trigger, states[i].shared).Keys
  {
    var s := states[i];
    RunInvariant(c, acts, states, i);
    assert v in SetOf(s.q.taken);
    AncestorsCleared(c, s, p);
    var k, r := ClearedIsShared(s, u);
    forall key | key in r.output ensures key in GatherInputs(c.trigger, s.shared) {
      GatherLastWriter(c.trigger, s.shared, key);
      assert s.shared[k].output == r.output;
    }
  }
}
