/** The scheduler's modes and events, and the invariants over whole runs. */
module DagRuns {
  import opened Seqs
  import opened Graphs
  import opened Kahn
  import opened DagState
  import opened DagInvariants
  import opened DagLog

  predicate IsTerminal(e: Event) {
    e.ExecutionFailed? || e.ExecutionCompleted?
  }

  ghost predicate NoTerminal(events: seq<Event>) {
    forall e :: e in events ==> !IsTerminal(e)
  }

  /** The nodes visited by the rollback, in order. */
  ghost function RolledBack(events: seq<Event>): seq<Id> {
    if events == [] then []
    else
      var e := events[|events| - 1];
      RolledBack(events[..|events| - 1]) + (if e.NodeCompensating? then [e.id] else [])
  }

  lemma RolledBackAppend(events: seq<Event>, e: Event)
    ensures RolledBack(events + [e]) == RolledBack(events) + (if e.NodeCompensating? then [e.id] else [])
  {
    assert (events + [e])[..|events|] == events;
  }

  ghost predicate EndedWell(s: State) {
    var n := |s.events| - 1;
    && s.active == map[]
    && n >= 0
    && s.events[n] == (if s.failed then ExecutionFailed(s.failure) else ExecutionCompleted)
    && NoTerminal(s.events[..n])
    && RolledBack(s.events) == if s.failed then Reverse(SagaIds(s.saga)) else []
  }

  /** Only a negative limit can leave ready nodes behind in an unfailed run. */
  ghost predicate Exhausted(c: Config, s: State) {
    s.active == map[] && (s.q.ready == [] || c.maxParallel < 0)
  }

  ghost predicate ModeInv(c: Config, s: State) {
    && (s.failed <==> s.failure != NoFailure)
    && match s.mode
       case Admitting => !s.failed && !s.aborted && RolledBack(s.events) == [] && NoTerminal(s.events)
       case Waiting(woken) => (!woken ==> s.active != map[]) && RolledBack(s.events) == [] && NoTerminal(s.events)
       case Deciding => RolledBack(s.events) == [] && NoTerminal(s.events)
       case Draining => (!s.failed ==> Exhausted(c, s)) && RolledBack(s.events) == [] && NoTerminal(s.events)
       case Compensating(left) =>
         && s.failed && c.enableSaga && s.active == map[] && left <= |s.saga|
         && RolledBack(s.events) == Reverse(SagaIds(s.saga))[..|s.saga| - left]
         && NoTerminal(s.events)
       case Ended => EndedWell(s) && (!s.failed ==> Exhausted(c, s))
  }

  lemma ModeEnd(c: Config, s: State)
    requires s.active == map[] && NoTerminal(s.events) && (s.failed <==> s.failure != NoFailure)
    requires RolledBack(s.events) == if s.failed then Reverse(SagaIds(s.saga)) else []
    requires !s.failed ==> Exhausted(c, s)
    ensures ModeInv(c, End(s))
  {
    var e := if s.failed then ExecutionFailed(s.failure) else ExecutionCompleted;
    RolledBackAppend(s.events, e);
    assert (s.events + [e])[..|s.events|] == s.events;
  }

  lemma ModeDrainDone(c: Config, s: State)
    requires ModeInv(c, s) && s.mode.Draining? && s.active == map[]
    requires !c.enableSaga ==> s.saga == []
    ensures ModeInv(c, AfterDrain(c, s))
  {
    hide RolledBack;
    if s.failed && c.enableSaga && s.saga != [] {
      RolledBackAppend(s.events, SagaCompensating(|s.saga|));
      assert Reverse(SagaIds(s.saga))[..0] == [];
    } else {
      assert s.failed ==> Reverse(SagaIds(s.saga)) == [];
      ModeEnd(c, s);
    }
  }

  function CompensationEvents(id: Id, ok: bool): seq<Event> {
    [NodeCompensating(id)] + (if ok then [NodeCompensated(id)] else [])
  }

  /** A visit appends its node to the rollback whether or not its compensation failed. */
  lemma RollbackVisit(events: seq<Event>, id: Id, ok: bool)
    ensures RolledBack(events + CompensationEvents(id, ok)) == RolledBack(events) + [id]
    ensures NoTerminal(events) ==> NoTerminal(events + CompensationEvents(id, ok))
  {
    var e1 := events + [NodeCompensating(id)];
    RolledBackAppend(events, NodeCompensating(id));
    RolledBackAppend(e1, NodeCompensated(id));
    hide RolledBack;
    if ok {
      assert events + CompensationEvents(id, ok) == e1 + [NodeCompensated(id)];
      assert RolledBack(events) + [id] + [] == RolledBack(events) + [id];
    } else {
      assert events + CompensationEvents(id, ok) == e1;
    }
  }

  lemma ReverseTakeAt(ids: seq<Id>, r: seq<Id>, k: nat)
    requires |r| == |ids| && k < |ids| && r[k] == ids[|ids| - 1 - k]
    ensures r[..k + 1] == r[..k] + [ids[|ids| - 1 - k]]
  {
  }

  lemma ReverseTake(ids: seq<Id>, n: nat)
    requires 1 <= n <= |ids|
    ensures Reverse(ids)[..|ids| - (n - 1)] == Reverse(ids)[..|ids| - n] + [ids[n - 1]]
  {
    ReverseTakeAt(ids, Reverse(ids), |ids| - n);
  }

  lemma ModeCompensate(c: Config, s: State, ok: bool)
    requires ModeInv(c, s) && s.mode.Compensating?
    ensures s.mode.left <= |s.saga| && ModeInv(c, AfterCompensate(s, ok))
  {
    hide RolledBack;
    hide Reverse;
    var n := s.mode.left;
    var ids := SagaIds(s.saga);
    if n == 0 {
      assert Reverse(ids)[..|s.saga|] == Reverse(ids);
      ModeEnd(c, s);
    } else {
      var id := s.saga[n - 1].id;
      RollbackVisit(s.events, id, ok);
      ReverseTake(ids, n);
      hide NoTerminal;
      assert ids[n - 1] == id;
      assert AfterCompensate(s, ok).events == s.events + CompensationEvents(id, ok);
    }
  }

  lemma ModeExecute(c: Config, s: State, id: Id, status: Status, output: Output)
    requires ModeInv(c, s) && Suspended(s) && IsIn(s, id, Executing)
    ensures ModeInv(c, AfterExecute(c, s, id, status, output))
  {
    hide SetShared;
    hide Relax;
    RolledBackAppend(s.events, DlqEntry(id));
    hide RolledBack;
    assert id in s.active;
  }

  lemma ModeUnlock(c: Config, s: State, s1: State, id: Id)
    requires ModeInv(c, s) && Suspended(s) && id in s.active
    requires s1.mode == s.mode && s1.events == s.events && s1.failed == s.failed && s1.failure == s.failure
    requires id in s1.active
    ensures ModeInv(c, s1)
  {
  }

  lemma ModeLoop(c: Config, s: State)
    requires ModeInv(c, s) && (s.mode.Deciding? || s.mode.Admitting?)
    ensures ModeInv(c, LoopStep(c, s))
  {
  }

  lemma ModeSettle(c: Config, s: State, id: Id)
    requires ModeInv(c, s) && Suspended(s) && IsIn(s, id, Settling)
    ensures ModeInv(c, Apply(c, s, Settle(id)))
  {
  }

  lemma ModeStep(c: Config, s: State, a: Action)
    requires ModeInv(c, s) && SagaInv(c, s) && Enabled(c, s, a)
    ensures ModeInv(c, Apply(c, s, a))
  {
    assert !c.enableSaga ==> s.saga == [];
    hide SagaInv;
    hide SetShared;
    hide UnlockDownstream;
    hide RolledBack;
    hide Reverse;
    match a
    case LoopTurn => ModeLoop(c, s);
    case LeaseReply(id, granted) => ModeUnlock(c, s, Apply(c, s, a), id);
    case ProbeReply(id, hit) => ModeUnlock(c, s, Apply(c, s, a), id);
    case OutputReply(id, output) => ModeUnlock(c, s, Apply(c, s, a), id);
    case ExecuteReply(id, status, output) => ModeExecute(c, s, id, status, output);
    case MarkReply(id) => ModeUnlock(c, s, Apply(c, s, a), id);
    case ReleaseReply(id) => ModeUnlock(c, s, Apply(c, s, a), id);
    case Settle(id) => ModeSettle(c, s, id);
    case Wake =>
    case Timeout =>
    case DrainDone => ModeDrainDone(c, s);
    case Compensate(ok) => ModeCompensate(c, s, ok);
  }

  // ── Runs ─────────────────────────────────────────────────────────────────

  /** A Map handed in by the caller has each key once. */
  ghost predicate WellFormed(c: Config) {
    DistinctKeys(c.inherited)
  }

  ghost predicate RunInv(c: Config, s: State) {
    CoreInv(c, s) && LogInv(c, s) && ModeInv(c, s)
  }

  lemma RunParts(c: Config, s: State)
    requires RunInv(c, s)
    ensures CoreInv(c, s) && LogInv(c, s) && ModeInv(c, s)
    ensures ResultInv(s) && SagaInv(c, s) && SharedInv(s)
  {
    hide CoreInv;
    hide ModeInv;
    hide ResultInv;
    hide SagaInv;
    hide SharedInv;
  }

  lemma EndedIdle(c: Config, s: State)
    requires RunInv(c, s) && s.mode.Ended?
    ensures s.active == map[] && EndedWell(s)
  {
    assert ModeInv(c, s);
    hide CoreInv;
    hide LogInv;
    hide RolledBack;
  }

  lemma RunInit(c: Config)
    requires WellFormed(c)
    ensures RunInv(c, Init(c))
  {
    CoreInit(c);
    LoadSavedDistinct(c.inherited, c.saved);
  }

  lemma RunSaga(c: Config, s: State)
    requires LogInv(c, s)
    ensures SagaInv(c, s)
  {
  }

  lemma RunStep(c: Config, s: State, a: Action)
    requires RunInv(c, s) && Enabled(c, s, a)
    ensures RunInv(c, Apply(c, s, a))
  {
    hide CoreInv;
    hide LogInv;
    hide ModeInv;
    hide SagaInv;
    hide Apply;
    RunSaga(c, s);
    CoreStep(c, s, a);
    LogStep(c, s, a);
    ModeStep(c, s, a);
  }

  lemma RunShape(c: Config, acts: seq<Action>, states: seq<State>)
    requires IsRun(c, acts, states)
    ensures |states| == |acts| + 1 && states[0] == Init(c)
  {
    hide StepAt;
    hide Init;
  }

  lemma StepOf(c: Config, acts: seq<Action>, states: seq<State>, i: nat)
    requires IsRun(c, acts, states) && i < |acts|
    ensures |states| == |acts| + 1 && Enabled(c, states[i], acts[i]) && states[i + 1] == Apply(c, states[i], acts[i])
    ensures acts[..i + 1] == acts[..i] + [acts[i]]
  {
    assert StepAt(c, acts, states, i);
    hide Enabled;
    hide Apply;
    hide Init;
  }

  /** In every interleaving, every state satisfies the invariants. */
  lemma {:induction false} RunInvariant(c: Config, acts: seq<Action>, states: seq<State>, i: nat)
    requires WellFormed(c) && IsRun(c, acts, states) && i < |states|
    ensures RunInv(c, states[i])
  {
    hide RunInv;
    hide Apply;
    if i == 0 {
      RunInit(c);
    } else {
      RunInvariant(c, acts, states, i - 1);
      assert StepAt(c, acts, states, i - 1);
      RunStep(c, states[i - 1], acts[i - 1]);
    }
  }
}
