/** Runs in which nothing is denied, paused, failing or timed out: they do the whole sort. */
module DagCompletion {
  import opened Seqs
  import opened Graphs
  import opened Kahn
  import opened DagState
  import opened DagInvariants
  import opened DagLog
  import opened DagRuns

  predicate GoodAction(a: Action) {
    match a
    case LeaseReply(_, granted) => granted
    case ExecuteReply(_, status, _) => status == Success
    case Timeout => false
    case _ => true
  }

  ghost predicate SmoothRun(c: Config, acts: seq<Action>, states: seq<State>) {
    && WellFormed(c) && c.maxParallel >= 0
    && IsRun(c, acts, states)
    && forall i :: 0 <= i < |acts| ==> GoodAction(acts[i])
  }

  ghost predicate GoodRun(c: Config, acts: seq<Action>, states: seq<State>) {
    SmoothRun(c, acts, states) && c.saved == []
  }

  /** Every taken node is on its way or has unlocked its successors. */
  ghost predicate GoodInv(s: State) {
    && !s.failed && !s.aborted
    && forall id :: id in s.q.taken ==> id in s.q.unlocked || (id in s.active && !PastUnlock(s.active[id]))
  }

  lemma GoodUnlock(c: Config, s: State, id: Id)
    requires GoodInv(s) && id in s.active
    ensures var s1 := UnlockDownstream(c, s, id); GoodInv(s1.(active := s1.active[id := Releasing]))
  {
    hide Relax;
    assert id in s.q.unlocked + [id];
    assert forall x :: x in s.q.unlocked ==> x in s.q.unlocked + [id];
  }

  lemma GoodPhase(s: State, id: Id, p: Phase, s1: State)
    requires GoodInv(s) && id in s.active && (PastUnlock(p) ==> PastUnlock(s.active[id]))
    requires s1.active == s.active[id := p] && s1.q == s.q && s1.failed == s.failed && s1.aborted == s.aborted
    ensures GoodInv(s1)
  {
  }

  lemma GoodFrame(s: State, s1: State)
    requires GoodInv(s) && s1.active == s.active && s1.q == s.q && s1.failed == s.failed && s1.aborted == s.aborted
    ensures GoodInv(s1)
  {
  }

  lemma GoodAdmit(c: Config, s: State)
    requires GoodInv(s) && CoreInv(c, s) && s.q.ready != [] && c.saved == []
    ensures GoodInv(AdmitHead(c, s))
  {
    HeadIsNew(c.graph, s.q);
    assert s.q.ready[0] !in SetOf(s.q.taken);
    assert s.q.ready[0] !in s.active;
  }

  lemma GoodExecute(c: Config, s: State, id: Id, output: Output)
    requires GoodInv(s) && IsIn(s, id, Executing)
    ensures GoodInv(AfterExecute(c, s, id, Success, output))
  {
    hide SetShared;
    hide UnlockDownstream;
    var s2 := s.(results := s.results + [Result(id, Success, output)], shared := SetShared(s.shared, id, output));
    if c.hasIdempotencyStore {
      GoodPhase(s, id, Marking(output), AfterExecute(c, s, id, Success, output));
    } else {
      var s3 := if c.enableSaga then s2.(saga := s2.saga + [SagaEntry(id, output)]) else s2;
      GoodFrame(s, s3);
      GoodUnlock(c, s3, id);
    }
  }

  lemma GoodStep(c: Config, s: State, a: Action)
    requires GoodInv(s) && CoreInv(c, s) && ModeInv(c, s) && Enabled(c, s, a) && GoodAction(a) && c.saved == []
    ensures GoodInv(Apply(c, s, a))
  {
    assert !s.mode.Compensating?;
    hide ModeInv;
    hide SetShared;
    hide UnlockDownstream;
    hide GoodInv;
    GoodFlags(s);
    match a
    case LoopTurn =>
      if s.mode.Admitting? && s.q.ready != [] && CanStart(c, s) {
        GoodAdmit(c, s);
      } else {
        GoodFrame(s, LoopStep(c, s));
      }
    case LeaseReply(id, granted) => GoodPhase(s, id, if c.hasIdempotencyStore then Probing else Executing,
                                              Apply(c, s, a));
    case ProbeReply(id, hit) => GoodPhase(s, id, if hit then Fetching else Executing, Apply(c, s, a));
    case OutputReply(id, output) =>
      var s1 := s.(shared := SetShared(s.shared, id, output), results := s.results + [Result(id, Skipped, output)]);
      GoodFrame(s, s1);
      GoodUnlock(c, s1, id);
    case ExecuteReply(id, status, output) => GoodExecute(c, s, id, output);
    case MarkReply(id) =>
      var s1 := if c.enableSaga then s.(saga := s.saga + [SagaEntry(id, s.active[id].output)]) else s;
      GoodFrame(s, s1);
      GoodUnlock(c, s1, id);
    case ReleaseReply(id) => GoodPhase(s, id, Settling, Apply(c, s, a));
    case Settle(id) => GoodSettle(s, id, Apply(c, s, a));
    case Wake => GoodFrame(s, Apply(c, s, a));
    case DrainDone => GoodFrame(s, Apply(c, s, a));
    case Compensate(_) =>
    case Timeout =>
  }

  lemma GoodFlags(s: State)
    requires GoodInv(s)
    ensures !s.failed && !s.aborted
  {
  }

  lemma GoodSettle(s: State, id: Id, s1: State)
    requires GoodInv(s) && IsIn(s, id, Settling)
    requires s1.active == s.active - {id} && s1.q == s.q && s1.failed == s.failed && s1.aborted == s.aborted
    ensures GoodInv(s1)
  {
  }

  lemma {:induction false} GoodRunInvariant(c: Config, acts: seq<Action>, states: seq<State>, i: nat)
    requires GoodRun(c, acts, states) && i < |states|
    ensures RunInv(c, states[i]) && GoodInv(states[i])
  {
    hide RunInv;
    hide CoreInv;
    hide ModeInv;
    hide Apply;
    RunInvariant(c, acts, states, i);
    if i > 0 {
      hide GoodInv;
      GoodRunInvariant(c, acts, states, i - 1);
      assert StepAt(c, acts, states, i - 1);
      RunParts(c, states[i - 1]);
      GoodStep(c, states[i - 1], acts[i - 1]);
    }
  }

  /** A finished good run has nothing left to do. */
  lemma GoodEnd(c: Config, acts: seq<Action>, states: seq<State>, i: nat)
    requires GoodRun(c, acts, states) && i < |states| && states[i].mode.Ended?
    ensures states[i].active == map[] && states[i].q.ready == []
    ensures |states[i].events| > 0 && states[i].events[|states[i].events| - 1] == ExecutionCompleted
  {
    hide CoreInv;
    hide LogInv;
    hide RolledBack;
    GoodRunInvariant(c, acts, states, i);
    assert EndedWell(states[i]) && Exhausted(c, states[i]);
  }

  /** Everything ready was taken, and everything taken was unlocked: that is the sort's set. */
  lemma ExhaustedIsKahn(g: Graph, q: Queue)
    requires QueueInv(g, q) && q.ready == []
    requires forall id :: id in q.taken ==> id in q.unlocked
    ensures SetOf(q.taken) == SetOf(KahnOrder(g)) == SetOf(q.unlocked)
  {
    var order := KahnOrder(g);
    assert order + [] == order && q.taken + [] == q.taken;
    assert SetOf(q.unlocked) == SetOf(q.taken);
    ClosedContainsOrdered(g, order, SetOf(q.taken));
    ClosedContainsOrdered(g, q.taken, SetOf(order));
  }

  lemma ResultSize(rs: seq<Result>)
    requires OneResultEach(rs)
    ensures |rs| == |ResultIds(rs)|
  {
    var ids := seq(|rs|, i requires 0 <= i < |rs| => rs[i].id);
    NoDupSize(ids);
    assert SetOf(ids) == ResultIds(rs) by {
      forall x | x in ResultIds(rs) ensures x in ids {
        var i :| 0 <= i < |rs| && rs[i].id == x;
        assert ids[i] == x;
      }
    }
  }

  /**
   * A finished good run, in any interleaving and for any graph, cyclic or not, has exactly one
   * result per sorted node, each a success or a skip, and closes with execution.completed.
   */
  lemma GoodRunCompletes(c: Config, acts: seq<Action>, states: seq<State>, i: nat)
    requires GoodRun(c, acts, states) && i < |states| && states[i].mode.Ended?
    ensures var s := states[i];
            && OneResultEach(s.results)
            && ResultIds(s.results) == SetOf(KahnOrder(c.graph)) == Cleared(s.results)
            && |s.results| == |KahnOrder(c.graph)|
            && |s.events| > 0 && s.events[|s.events| - 1] == ExecutionCompleted
  {
    var s := states[i];
    hide RunInv;
    hide CoreInv;
    hide SagaInv;
    hide SharedInv;
    hide ModeInv;
    hide KahnOrder;
    GoodRunInvariant(c, acts, states, i);
    GoodEnd(c, acts, states, i);
    RunParts(c, s);
    CoreQueue(c, s);
    hide QueueInv;
    ExhaustedIsKahn(c.graph, s.q);
    assert Cleared(s.results) <= ResultIds(s.results) <= SetOf(s.q.taken) == SetOf(s.q.unlocked) <= Cleared(s.results);
    ResultSize(s.results);
    KahnCharacterized(c.graph);
    NoDupSize(KahnOrder(c.graph));
  }

  lemma CoreQueue(c: Config, s: State)
    requires CoreInv(c, s)
    ensures QueueInv(c.graph, s.q)
  {
  }

  // ── One node at a time ───────────────────────────────────────────────────

  function ResultSeq(rs: seq<Result>): seq<Id> {
    seq(|rs|, i requires 0 <= i < |rs| => rs[i].id)
  }

  /** The node being run, if any, is the one taken last; the rest is Kahn's loop in mid-flight. */
  ghost predicate LineInv(c: Config, s: State) {
    var done := s.q.unlocked;
    && |done| <= |s.q.taken| <= |done| + 1
    && done <= s.q.taken
    && OrderInv(c.graph, done, s.q.taken[|done|..] + s.q.ready)
    && (ResultSeq(s.results) == done || ResultSeq(s.results) == s.q.taken)
    && (|s.q.taken| > |done| ==> var x := s.q.taken[|done|]; x in s.active && !PastUnlock(s.active[x]))
  }

  lemma LineFrame(c: Config, s: State, s1: State)
    requires LineInv(c, s) && s1.q == s.q && s1.results == s.results
    requires forall x :: x in s.active && !PastUnlock(s.active[x]) ==> x in s1.active && !PastUnlock(s1.active[x])
    ensures LineInv(c, s1)
  {
  }

  /** The node about to unlock is the last one taken. */
  lemma LineCurrent(c: Config, s: State, id: Id)
    requires LineInv(c, s) && CoreInv(c, s) && id in s.active && !PastUnlock(s.active[id])
    ensures s.q.taken == s.q.unlocked + [id]
  {
    assert id in SetOf(s.q.taken) && id !in s.q.unlocked;
    hide CoreInv;
    hide OrderInv;
    LastOf(s.q.unlocked, s.q.taken, id);
  }

  lemma LastOf(done: seq<Id>, taken: seq<Id>, id: Id)
    requires done <= taken && |taken| <= |done| + 1 && id in taken && id !in done
    ensures taken == done + [id]
  {
    assert taken == done + taken[|done|..];
  }

  lemma LineUnlock(c: Config, s: State, id: Id)
    requires LineInv(c, s) && CoreInv(c, s) && !s.failed && id in s.active && !PastUnlock(s.active[id])
    requires ResultSeq(s.results) == s.q.taken
    ensures var s1 := UnlockDownstream(c, s, id); LineInv(c, s1.(active := s1.active[id := Releasing]))
  {
    LineCurrent(c, s, id);
    var done := s.q.unlocked;
    assert s.q.taken[|done|..] == [id];
    OrderStep(c.graph, done, id, s.q.ready);
    RelaxUnlocks(c.graph, SetOf(done), id, NodeIds(c.graph), s.q.ready);
    hide OrderInv;
    hide Relax;
    assert s.q.taken[|done + [id]|..] == [];
    var ready := s.q.ready + NewlyReady(c.graph, SetOf(done), id, NodeIds(c.graph));
    assert [] + ready == ready;
  }

  lemma LinePush(c: Config, s: State, id: Id, status: Status, output: Output)
    requires LineInv(c, s) && CoreInv(c, s) && ResultInv(s) && id in s.active && NotYetRun(s.active[id])
    ensures ResultSeq(s.results + [Result(id, status, output)]) == s.q.taken
    ensures ResultSeq(s.results) == s.q.unlocked && s.q.taken == s.q.unlocked + [id]
  {
    LineCurrent(c, s, id);
    SeqOfResults(s.results, id);
    assert id !in ResultIds(s.results) && id in s.q.taken;
    assert ResultSeq(s.results) == s.q.unlocked || ResultSeq(s.results) == s.q.taken;
    hide CoreInv;
    hide LineInv;
    hide ResultInv;
    hide ResultIds;
    var r := Result(id, status, output);
    assert ResultSeq(s.results + [r]) == ResultSeq(s.results) + [id];
  }

  lemma SeqOfResults(rs: seq<Result>, id: Id)
    ensures id in ResultSeq(rs) <==> id in ResultIds(rs)
  {
    if id in ResultIds(rs) {
      var i :| 0 <= i < |rs| && rs[i].id == id;
      assert ResultSeq(rs)[i] == id;
    }
  }

  /** The node's result is in, its successors still locked. */
  lemma LineRecord(c: Config, s: State, id: Id, status: Status, output: Output, s1: State)
    requires LineInv(c, s) && CoreInv(c, s) && ResultInv(s) && id in s.active && NotYetRun(s.active[id])
    requires s1.q == s.q && s1.active == s.active && s1.inFlight == s.inFlight
    requires s1.results == s.results + [Result(id, status, output)]
    ensures LineInv(c, s1) && CoreInv(c, s1) && ResultSeq(s1.results) == s1.q.taken
  {
    LinePush(c, s, id, status, output);
    CoreFrame(c, s, s1);
  }

  lemma LineIdle(c: Config, s: State)
    requires LineInv(c, s) && s.active == map[]
    ensures s.q.taken == s.q.unlocked && OrderInv(c.graph, s.q.unlocked, s.q.ready)
    ensures ResultSeq(s.results) == s.q.unlocked
  {
    hide OrderInv;
    var done := s.q.unlocked;
    assert |s.q.taken| == |done|;
    assert s.q.taken == s.q.taken[..|done|];
    assert s.q.taken[|done|..] + s.q.ready == s.q.ready;
  }

  lemma LineTaken(c: Config, s: State, s1: State, head: Id)
    requires OrderInv(c.graph, s.q.unlocked, s.q.ready) && s.q.taken == s.q.unlocked == ResultSeq(s.results)
    requires s.q.ready != [] && s.q.ready[0] == head && s1.q == TakeHead(s.q) && s1.results == s.results
    requires head in s1.active && !PastUnlock(s1.active[head])
    ensures LineInv(c, s1)
  {
    hide OrderInv;
    var done := s.q.unlocked;
    assert (done + [head])[|done|..] == [head];
    assert [head] + s.q.ready[1..] == s.q.ready;
  }

  lemma LineAdmit(c: Config, s: State)
    requires LineInv(c, s) && CoreInv(c, s) && s.q.ready != [] && CanStart(c, s)
    requires c.maxParallel == 1 && c.saved == [] && !s.failed && !s.aborted
    ensures LineInv(c, AdmitHead(c, s))
  {
    assert s.active == map[] by {
      assert |s.active| == 0;
    }
    LineIdle(c, s);
    hide LineInv;
    assert s.inFlight == {};
    LineTaken(c, s, AdmitHead(c, s), s.q.ready[0]);
  }

  lemma LineExecute(c: Config, s: State, id: Id, output: Output)
    requires LineInv(c, s) && CoreInv(c, s) && ResultInv(s) && !s.failed && IsIn(s, id, Executing)
    ensures LineInv(c, AfterExecute(c, s, id, Success, output))
  {
    hide SetShared;
    hide LineInv;
    hide CoreInv;
    hide ResultInv;
    hide UnlockDownstream;
    var s2 := s.(results := s.results + [Result(id, Success, output)], shared := SetShared(s.shared, id, output));
    var s3 := if !c.hasIdempotencyStore && c.enableSaga then s2.(saga := s2.saga + [SagaEntry(id, output)]) else s2;
    LineRecord(c, s, id, Success, output, s3);
    if c.hasIdempotencyStore {
      LineFrame(c, s3, AfterExecute(c, s, id, Success, output));
    } else {
      LineUnlock(c, s3, id);
    }
  }

  lemma LineSkip(c: Config, s: State, id: Id, output: Output)
    requires LineInv(c, s) && CoreInv(c, s) && ResultInv(s) && !s.failed && IsIn(s, id, Fetching)
    ensures LineInv(c, AfterOutput(c, s, id, output))
  {
    hide SetShared;
    hide LineInv;
    hide CoreInv;
    hide ResultInv;
    hide UnlockDownstream;
    var s2 := s.(results := s.results + [Result(id, Skipped, output)], shared := SetShared(s.shared, id, output));
    LineRecord(c, s, id, Skipped, output, s2);
    LineUnlock(c, s2, id);
  }

  lemma LineFinish(c: Config, s: State, id: Id)
    requires LineInv(c, s) && CoreInv(c, s) && ResultInv(s) && !s.failed && IsMarking(s, id)
    ensures LineInv(c, Finish(c, s, id, s.active[id].output))
  {
    LineCurrent(c, s, id);
    var r := Result(id, Success, s.active[id].output);
    var k :| 0 <= k < |s.results| && s.results[k] == r;
    assert ResultSeq(s.results)[k] == id;
    assert id !in s.q.unlocked;
    var s1 := if c.enableSaga then s.(saga := s.saga + [SagaEntry(id, s.active[id].output)]) else s;
    CoreFrame(c, s, s1);
    hide CoreInv;
    LineFrame(c, s, s1);
    LineUnlock(c, s1, id);
  }

  lemma LineStep(c: Config, s: State, a: Action)
    requires LineInv(c, s) && CoreInv(c, s) && ResultInv(s) && !s.failed && !s.aborted
    requires Enabled(c, s, a) && GoodAction(a) && c.maxParallel == 1 && c.saved == []
    ensures LineInv(c, Apply(c, s, a))
  {
    hide LineInv;
    hide CoreInv;
    hide ResultInv;
    hide SetShared;
    hide UnlockDownstream;
    match a
    case LoopTurn =>
      if s.mode.Admitting? && s.q.ready != [] && CanStart(c, s) {
        LineAdmit(c, s);
      } else {
        LineFrame(c, s, LoopStep(c, s));
      }
    case LeaseReply(id, granted) => LineFrame(c, s, Apply(c, s, a));
    case ProbeReply(id, hit) => LineFrame(c, s, Apply(c, s, a));
    case OutputReply(id, output) => LineSkip(c, s, id, output);
    case ExecuteReply(id, status, output) => LineExecute(c, s, id, output);
    case MarkReply(id) => LineFinish(c, s, id);
    case ReleaseReply(id) => LineFrame(c, s, Apply(c, s, a));
    case Settle(id) => LineFrame(c, s, Apply(c, s, a));
    case Wake => LineFrame(c, s, Apply(c, s, a));
    case Timeout =>
    case DrainDone => LineFrame(c, s, Apply(c, s, a));
    case Compensate(ok) => LineFrame(c, s, Apply(c, s, a));
  }

  lemma {:induction false} LineInvariant(c: Config, acts: seq<Action>, states: seq<State>, i: nat)
    requires GoodRun(c, acts, states) && i < |states| && c.maxParallel == 1
    ensures LineInv(c, states[i])
  {
    hide LineInv;
    hide RunInv;
    hide CoreInv;
    hide ModeInv;
    hide LogInv;
    hide SagaInv;
    hide SharedInv;
    hide ResultInv;
    hide GoodInv;
    hide Apply;
    if i == 0 {
      LineInit(c);
    } else {
      LineInvariant(c, acts, states, i - 1);
      GoodRunInvariant(c, acts, states, i - 1);
      assert StepAt(c, acts, states, i - 1);
      GoodFlags(states[i - 1]);
      RunParts(c, states[i - 1]);
      LineStep(c, states[i - 1], acts[i - 1]);
    }
  }

  lemma LineInit(c: Config)
    ensures LineInv(c, Init(c))
  {
    KahnSeeded(c.graph);
    assert [] + Seeds(c.graph) == Seeds(c.graph);
  }

  /** With a limit of one, the results come in exactly the sort's order. */
  lemma LimitOneIsSequential(c: Config, acts: seq<Action>, states: seq<State>, i: nat)
    requires GoodRun(c, acts, states) && i < |states| && c.maxParallel == 1 && states[i].mode.Ended?
    ensures ResultSeq(states[i].results) == KahnOrder(c.graph)
  {
    hide LineInv;
    GoodEnd(c, acts, states, i);
    LineInvariant(c, acts, states, i);
    LineIdle(c, states[i]);
  }
}
