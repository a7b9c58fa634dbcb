/** Every run is finite, with an explicit bound, and never stuck before it has ended. */
module DagTermination {
  import opened Seqs
  import opened Graphs
  import opened Kahn
  import opened DagState
  import opened DagInvariants
  import opened DagLog
  import opened DagRuns

  function Rank(p: Phase): nat {
    match p
    case Acquiring => 9
    case Probing => 8
    case Fetching => 7
    case Executing => 7
    case Marking(_) => 6
    case Releasing => 5
    case Settling => 4
  }

  /** Work left in the started nodes. */
  ghost function PhaseSum(active: map<Id, Phase>, taken: seq<Id>): nat {
    if taken == [] then 0
    else
      var id := taken[|taken| - 1];
      PhaseSum(active, taken[..|taken| - 1]) + (if id in active then Rank(active[id]) else 0)
  }

  /** n: the number of distinct node ids. */
  function ModeRank(m: Mode, n: nat): nat {
    match m
    case Ended => 0
    case Compensating(left) => left + 1
    case Draining => n + 2
    case Waiting(woken) => if woken then n + 6 else n + 3
    case Admitting => n + 4
    case Deciding => n + 5
  }

  ghost function Measure(c: Config, s: State): int {
    var n := |NodeIds(c.graph)|;
    10 * (n - |s.q.taken|) + PhaseSum(s.active, s.q.taken) + ModeRank(s.mode, n) + if s.aborted then 0 else 1
  }

  // ── PhaseSum under the three changes ─────────────────────────────────────

  lemma {:induction false} PhaseSumOther(a: map<Id, Phase>, b: map<Id, Phase>, taken: seq<Id>)
    requires forall id :: id in taken ==> (id in a <==> id in b) && (id in a ==> a[id] == b[id])
    ensures PhaseSum(a, taken) == PhaseSum(b, taken)
  {
    if taken != [] {
      var n := |taken| - 1;
      assert taken == taken[..n] + [taken[n]];
      PhaseSumOther(a, b, taken[..n]);
    }
  }

  /** Changing one listed node's phase changes the sum by the difference of ranks. */
  lemma {:induction false} PhaseSumUpdate(a: map<Id, Phase>, b: map<Id, Phase>, taken: seq<Id>, id: Id)
    requires NoDup(taken) && id in taken && id in a
    requires forall x :: x != id ==> (x in a <==> x in b) && (x in a ==> a[x] == b[x])
    ensures PhaseSum(b, taken) == PhaseSum(a, taken) - Rank(a[id]) + (if id in b then Rank(b[id]) else 0)
  {
    var n := |taken| - 1;
    assert taken == taken[..n] + [taken[n]];
    if taken[n] == id {
      assert id !in taken[..n];
      PhaseSumOther(a, b, taken[..n]);
    } else {
      PhaseSumUpdate(a, b, taken[..n], id);
    }
  }

  lemma PhaseSumAppend(a: map<Id, Phase>, taken: seq<Id>, id: Id)
    ensures PhaseSum(a, taken + [id]) == PhaseSum(a, taken) + (if id in a then Rank(a[id]) else 0)
  {
    assert (taken + [id])[..|taken|] == taken;
  }

  /** A step that only moves one node's phase down lowers the measure. */
  lemma PhaseStep(c: Config, s: State, s1: State, id: Id)
    requires CoreInv(c, s) && id in s.active && id in s1.active
    requires s1.active == s.active[id := s1.active[id]]
    requires Rank(s1.active[id]) < Rank(s.active[id])
    requires s1.q.taken == s.q.taken && s1.mode == s.mode && s1.aborted == s.aborted
    ensures Measure(c, s1) < Measure(c, s)
  {
    ActiveIsTaken(c, s, id);
    hide CoreInv;
    hide PhaseSum;
    PhaseSumUpdate(s.active, s1.active, s.q.taken, id);
  }

  lemma ActiveIsTaken(c: Config, s: State, id: Id)
    requires CoreInv(c, s) && id in s.active
    ensures NoDup(s.q.taken) && id in s.q.taken
  {
    assert id in SetOf(s.q.taken);
    NoDupConcat(s.q.taken, s.q.ready);
  }

  lemma SettleStep(c: Config, s: State, id: Id)
    requires CoreInv(c, s) && Enabled(c, s, Settle(id))
    ensures Measure(c, Apply(c, s, Settle(id))) < Measure(c, s)
  {
    ActiveIsTaken(c, s, id);
    hide CoreInv;
    hide PhaseSum;
    hide NoDup;
    SettleSum(s.active, s.q.taken, id);
    var s1 := Apply(c, s, Settle(id));
    assert s1.active == s.active - {id} && s1.q == s.q && s1.aborted == s.aborted;
    hide Apply;
  }

  lemma SettleSum(active: map<Id, Phase>, taken: seq<Id>, id: Id)
    requires NoDup(taken) && id in taken && id in active && active[id] == Settling
    ensures PhaseSum(active - {id}, taken) == PhaseSum(active, taken) - 4
  {
    PhaseSumUpdate(active, active - {id}, taken, id);
  }

  lemma AdmitStep(c: Config, s: State)
    requires CoreInv(c, s) && s.q.ready != [] && s.mode.Admitting?
    ensures Measure(c, AdmitHead(c, s)) < Measure(c, s)
  {
    HeadIsNew(c.graph, s.q);
    var id, s1 := s.q.ready[0], AdmitHead(c, s);
    assert id !in SetOf(s.q.taken);
    assert id !in s.active;
    hide CoreInv;
    PhaseSumOther(s.active, s1.active, s.q.taken);
    PhaseSumAppend(s1.active, s.q.taken, id);
  }

  lemma SagaBound(c: Config, s: State)
    requires CoreInv(c, s) && ResultInv(s) && SagaInv(c, s)
    ensures |s.saga| <= |NodeIds(c.graph)|
  {
    if c.enableSaga {
      var ids := SagaIds(s.saga);
      forall x | x in ids ensures x in NodeIds(c.graph) {
        assert x in ResultIds(s.results);
        assert x in SetOf(s.q.taken);
        assert x in s.q.taken + s.q.ready;
      }
      NoDupBound(ids, NodeIds(c.graph));
    }
  }

  lemma LoopDecreases(c: Config, s: State)
    requires CoreInv(c, s) && Enabled(c, s, LoopTurn)
    ensures Measure(c, LoopStep(c, s)) < Measure(c, s)
  {
    hide CoreInv;
    hide PhaseSum;
    if s.mode.Admitting? && s.q.ready != [] && CanStart(c, s) {
      AdmitStep(c, s);
    }
  }

  /** The steps that touch no node. */
  lemma ControlDecreases(c: Config, s: State, a: Action)
    requires Enabled(c, s, a) && |s.saga| <= |NodeIds(c.graph)|
    requires a.Wake? || a.Timeout? || a.DrainDone? || a.Compensate?
    ensures Measure(c, Apply(c, s, a)) < Measure(c, s)
  {
    hide PhaseSum;
  }

  lemma ReplyDecreases(c: Config, s: State, a: Action)
    requires CoreInv(c, s) && Enabled(c, s, a)
    requires a.LeaseReply? || a.ProbeReply? || a.OutputReply? || a.MarkReply? || a.ReleaseReply?
    ensures Measure(c, Apply(c, s, a)) < Measure(c, s)
  {
    hide CoreInv;
    hide Measure;
    hide SetShared;
    hide Relax;
    PhaseStep(c, s, Apply(c, s, a), a.id);
  }

  /** Each step, whichever it is, lowers the measure. */
  lemma StepDecreases(c: Config, s: State, a: Action)
    requires RunInv(c, s) && Enabled(c, s, a)
    ensures Measure(c, Apply(c, s, a)) < Measure(c, s)
  {
    hide RunInv;
    hide CoreInv;
    hide LogInv;
    hide SagaInv;
    hide SharedInv;
    hide ResultInv;
    hide ModeInv;
    hide Measure;
    hide AfterExecute;
    hide LoopStep;
    RunParts(c, s);
    SagaBound(c, s);
    match a
    case LoopTurn => LoopDecreases(c, s);
    case ExecuteReply(id, status, output) => ExecuteDecreases(c, s, id, status, output);
    case Settle(id) => SettleStep(c, s, id);
    case Wake => ControlDecreases(c, s, a);
    case Timeout => ControlDecreases(c, s, a);
    case DrainDone => ControlDecreases(c, s, a);
    case Compensate(_) => ControlDecreases(c, s, a);
    case _ => ReplyDecreases(c, s, a);
  }

  lemma ExecuteDecreases(c: Config, s: State, id: Id, status: Status, output: Output)
    requires CoreInv(c, s) && Enabled(c, s, ExecuteReply(id, status, output))
    ensures Measure(c, AfterExecute(c, s, id, status, output)) < Measure(c, s)
  {
    hide SetShared;
    hide Relax;
    hide CoreInv;
    PhaseStep(c, s, AfterExecute(c, s, id, status, output), id);
  }

  lemma MeasureNonNegative(c: Config, s: State)
    requires RunInv(c, s)
    ensures Measure(c, s) >= 0
  {
    RunParts(c, s);
    assert QueueInv(c.graph, s.q);
    hide RunInv;
    NoDupConcat(s.q.taken, s.q.ready);
    forall x | x in s.q.taken ensures x in NodeIds(c.graph) {
      assert x in s.q.taken + s.q.ready;
    }
    NoDupBound(s.q.taken, NodeIds(c.graph));
  }

  lemma {:induction false} MeasureAlongRun(c: Config, acts: seq<Action>, states: seq<State>, i: nat)
    requires WellFormed(c) && IsRun(c, acts, states) && i < |states|
    ensures Measure(c, states[i]) + i <= Measure(c, Init(c))
  {
    RunShape(c, acts, states);
    hide *;
    if i > 0 {
      MeasureAlongRun(c, acts, states, i - 1);
      RunInvariant(c, acts, states, i - 1);
      StepOf(c, acts, states, i - 1);
      StepDecreases(c, states[i - 1], acts[i - 1]);
    }
  }

  /** For every graph, cyclic or not, a run takes at most 11 * nodes + 6 steps. */
  lemma RunsAreBounded(c: Config, acts: seq<Action>, states: seq<State>)
    requires WellFormed(c) && IsRun(c, acts, states)
    ensures |acts| <= 11 * |NodeIds(c.graph)| + 6
  {
    hide RunInv;
    RunInvariant(c, acts, states, |acts|);
    MeasureNonNegative(c, states[|acts|]);
    MeasureAlongRun(c, acts, states, |acts|);
    hide IsRun;
    assert Measure(c, Init(c)) == 11 * |NodeIds(c.graph)| + 6;
  }

  // ── Progress ─────────────────────────────────────────────────────────────

  function ReplyFor(id: Id, p: Phase): Action {
    match p
    case Acquiring => LeaseReply(id, true)
    case Probing => ProbeReply(id, false)
    case Fetching => OutputReply(id, map[])
    case Executing => ExecuteReply(id, Success, map[])
    case Marking(_) => MarkReply(id)
    case Releasing => ReleaseReply(id)
    case Settling => Settle(id)
  }

  lemma SuspendedHasReply(c: Config, s: State) returns (a: Action)
    requires Suspended(s) && s.active != map[]
    ensures Enabled(c, s, a) && !a.Timeout?
  {
    var id :| id in s.active;
    a := ReplyFor(id, s.active[id]);
  }

  /** Until it has ended, a run can take a step without the timer. */
  lemma NeverStuck(c: Config, s: State) returns (a: Action)
    requires RunInv(c, s) && !s.mode.Ended?
    ensures Enabled(c, s, a) && !a.Timeout?
  {
    assert ModeInv(c, s);
    hide RunInv;
    match s.mode
    case Deciding => a := LoopTurn;
    case Admitting => a := LoopTurn;
    case Waiting(woken) =>
      if woken {
        a := Wake;
      } else {
        a := SuspendedHasReply(c, s);
      }
    case Draining =>
      if s.active == map[] {
        a := DrainDone;
      } else {
        a := SuspendedHasReply(c, s);
      }
    case Compensating(left) => a := Compensate(true);
  }
}
